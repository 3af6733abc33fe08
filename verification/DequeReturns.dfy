/**
 What the calls of a run return, taken together: every hand-out of the queue is
 returned to exactly one caller, once, with the task pushed under its number.
 */
module DequeReturns {
  import opened Types
  import opened Bits
  import opened Deque

  /** `taker` is the stealer, or `None` for the owner; `n` is the number of the hand-out. */
  datatype Return<T> = Return(taker: Option<nat>, n: nat, got: Option<T>)

  /** What move `m` makes a call return, as the caller sees it. */
  ghost function Outcome<T>(s: State<T>, m: Move<T>): seq<Return<T>> {
    var s' := Step(s, m);
    if m.Steal? && m.thief < |s'.stealers| && s'.stealers[m.thief].Stole? then
      [Return(Some(m.thief), s'.stealers[m.thief].n, s'.stealers[m.thief].task)]
    else if m.Go? && !s.owner.Popped? && s'.owner.Popped? then [Return(None, s'.owner.n, s'.owner.got)]
    else []
  }

  /** Everything the calls of a run return, in order. */
  ghost function Returns<T>(s: State<T>, moves: seq<Move<T>>): seq<Return<T>>
    decreases |moves|
  {
    if moves == [] then [] else Outcome(s, moves[0]) + Returns(Step(s, moves[0]), moves[1..])
  }

  ghost function Times<T>(h: seq<Return<T>>, n: nat): nat {
    if h == [] then 0 else One(h[0].n == n) + Times(h[1..], n)
  }

  lemma {:induction false} TimesPush<T>(h: seq<Return<T>>, r: Return<T>, n: nat)
    ensures Times(h + [r], n) == Times(h, n) + One(r.n == n)
  {
    if h == [] {
      assert h + [r] == [r];
    } else {
      TimesPush(h[1..], r, n);
      assert (h + [r])[1..] == h[1..] + [r];
    }
  }

  lemma {:induction false} TimesAt<T>(h: seq<Return<T>>, i: nat)
    requires i < |h|
    ensures Times(h, h[i].n) > 0
  {
    if i == 0 {
    } else {
      TimesAt(h[1..], i - 1);
    }
  }

  lemma {:induction false} TimesTwice<T>(h: seq<Return<T>>, i: nat, j: nat)
    requires i < j < |h| && h[i].n == h[j].n
    ensures Times(h, h[i].n) > 1
  {
    if i == 0 {
      TimesAt(h[1..], j - 1);
    } else {
      TimesTwice(h[1..], i - 1, j - 1);
    }
  }

  lemma {:induction false} FindReturn<T>(h: seq<Return<T>>, n: nat) returns (i: nat)
    requires Times(h, n) > 0
    ensures i < |h| && h[i].n == n
  {
    if h[0].n == n {
      i := 0;
    } else {
      i := FindReturn(h[1..], n);
      i := i + 1;
    }
  }

  ghost predicate Returned<T>(h: seq<Return<T>>, n: nat) {
    exists i :: 0 <= i < |h| && h[i].n == n
  }

  /** The owner has made hand-out `n` and not returned it yet. */
  predicate Pending<T>(o: Owner<T>, n: nat) {
    || (o.PopRead? && o.f == n)
    || ((o.ResizeLoadBack? || o.ResizeLoadFront? || o.ResizeCopy?) && o.cont.ThenPop? && o.cont.n == n)
  }

  /** Hand-out `n`, once made, is still in the owner's hands or has been returned once. */
  ghost predicate OneFate<T>(s: State<T>, h: seq<Return<T>>, n: nat) {
    Times(h, n) + One(Pending(s.owner, n)) == One(n < |s.claims|)
  }

  ghost predicate Good<T>(s: State<T>, r: Return<T>) {
    r.n < |s.claims| <= |s.pushed| && r.got == Some(s.pushed[r.n])
  }

  /** Results still shown by a caller are in the history under that caller's name. */
  ghost predicate Shown<T>(s: State<T>, h: seq<Return<T>>) {
    && (s.owner.Popped? ==> Return(None, s.owner.n, s.owner.got) in h)
    && (forall t :: 0 <= t < |s.stealers| && s.stealers[t].Stole? ==>
          Return(Some(t), s.stealers[t].n, s.stealers[t].task) in h)
  }

  ghost predicate Fates<T>(s: State<T>, h: seq<Return<T>>) {
    && (forall n: nat :: OneFate(s, h, n))
    && (forall i :: 0 <= i < |h| ==> Good(s, h[i]))
    && Shown(s, h)
  }

  /** The step `s` to `s'` that returns `out` accounts for hand-out `n`. */
  ghost predicate Accounts<T>(s: State<T>, s': State<T>, out: seq<Return<T>>, n: nat) {
    One(|out| == 1 && out[0].n == n) + One(Pending(s'.owner, n)) + One(n < |s.claims|)
    == One(Pending(s.owner, n)) + One(n < |s'.claims|)
  }

  ghost predicate Grows<T>(s: State<T>, s': State<T>) {
    s.pushed <= s'.pushed && |s.claims| <= |s'.claims| <= |s'.pushed|
  }

  ghost predicate Shape<T>(s: State<T>, s': State<T>, out: seq<Return<T>>) {
    Grows(s, s') && (out != [] ==> Good(s', out[0])) && forall n: nat :: Accounts(s, s', out, n)
  }

  lemma Advance<T>(s: State<T>, s': State<T>, out: seq<Return<T>>, h: seq<Return<T>>)
    requires Fates(s, h) && Shape(s, s', out) && |out| <= 1 && Shown(s', h + out)
    ensures Fates(s', h + out)
  {
    hide Times, Pending, Shown;
    forall n: nat
      ensures OneFate(s', h + out, n)
    {
      assert OneFate(s, h, n) && Accounts(s, s', out, n);
      if out != [] {
        TimesPush(h, out[0], n);
        assert h + out == h + [out[0]];
      } else {
        assert h + out == h;
      }
    }
    forall i | 0 <= i < |h + out|
      ensures Good(s', (h + out)[i])
    {
      if i < |h| { assert Good(s, h[i]); }
    }
  }

  lemma StealFates<T>(s: State<T>, t: nat, h: seq<Return<T>>)
    requires Inv(s) && Fates(s, h) && t < |s.stealers|
    ensures Fates(StealStep(s, t), h + Outcome(s, Steal(t)))
  {
    assert StealerInv(s, s.stealers[t]);
    StealShape(s, t);
    hide Inv, OneFate, Read, Shape, Good;
    Advance(s, StealStep(s, t), Outcome(s, Steal(t)), h);
  }

  lemma StealShape<T>(s: State<T>, t: nat)
    requires SharedInv(s) && t < |s.stealers| && StealerInv(s, s.stealers[t])
    requires s.owner.PopRestore? ==> Drained(s)
    ensures Shape(s, StealStep(s, t), Outcome(s, Steal(t)))
  {
    hide Pending;
  }

  lemma OwnerFates<T>(s: State<T>, h: seq<Return<T>>)
    requires Inv(s) && Fates(s, h)
    ensures Fates(OwnerStep(s), h + Outcome(s, Go))
  {
    OwnerShape(s);
    hide Inv, OneFate, Read, Shape, Good, Write;
    Advance(s, OwnerStep(s), Outcome(s, Go), h);
  }

  lemma OwnerShape<T>(s: State<T>)
    requires SharedInv(s) && OwnerInv(s)
    ensures Shape(s, OwnerStep(s), Outcome(s, Go))
  {
    if s.owner.PopFetchAdd? || s.owner.PopRead? {
      PopShape(s);
    } else {
      hide OwnerInv, Holds;
      assert s.owner.ResizeCopy? && s.owner.cont.ThenPop? ==> HandedOut(s, s.owner.cont.n, s.owner.cont.got) by {
        PopInResize(s);
      }
      QuietShape(s);
    }
  }

  lemma PopInResize<T>(s: State<T>)
    requires OwnerInv(s)
    ensures s.owner.ResizeCopy? && s.owner.cont.ThenPop? ==> HandedOut(s, s.owner.cont.n, s.owner.cont.got)
  {
  }

  lemma PopShape<T>(s: State<T>)
    requires SharedInv(s) && OwnerInv(s) && (s.owner.PopFetchAdd? || s.owner.PopRead?)
    ensures Shape(s, OwnerStep(s), Outcome(s, Go))
  {
    hide Holds, IsPow2, Slot;
  }

  /** Every other step of the owner makes no hand-out; only the end of a resize returns one. */
  lemma QuietShape<T>(s: State<T>)
    requires |s.claims| <= |s.pushed| && !s.owner.PopFetchAdd? && !s.owner.PopRead?
    requires s.owner.ResizeCopy? && s.owner.cont.ThenPop? ==> HandedOut(s, s.owner.cont.n, s.owner.cont.got)
    ensures Shape(s, OwnerStep(s), Outcome(s, Go))
  {
    hide Write, Alloc, Read;
  }

  lemma StepFates<T>(s: State<T>, m: Move<T>, h: seq<Return<T>>)
    requires Inv(s) && Fates(s, h)
    ensures Fates(Step(s, m), h + Outcome(s, m))
  {
    match m {
      case Push(_) => Idle(s, Step(s, m), h);
      case Pop => Idle(s, Step(s, m), h);
      case Go => OwnerFates(s, h);
      case Steal(t) => if t < |s.stealers| { StealFates(s, t, h); } else { Idle(s, s, h); }
    }
  }

  /** The owner begins a call, or nothing happens. */
  lemma Idle<T>(s: State<T>, s': State<T>, h: seq<Return<T>>)
    requires Fates(s, h) && (s' == s || (AtRest(s.owner) && s' == s.(owner := s'.owner)))
    requires s' != s ==> s'.owner.PushLoadFront? || s'.owner.PopLoadFront?
    ensures Fates(s', h + [])
  {
    hide Times;
    assert h + [] == h;
    forall n: nat
      ensures OneFate(s', h, n)
    {
      assert OneFate(s, h, n);
    }
  }

  lemma {:induction false} RunFates<T>(s: State<T>, moves: seq<Move<T>>, h: seq<Return<T>>)
    requires Inv(s) && Fates(s, h)
    ensures Inv(Run(s, moves)) && Fates(Run(s, moves), h + Returns(s, moves))
    decreases |moves|
  {
    hide Inv, Fates, Step, Outcome;
    if moves == [] {
      assert h + [] == h;
    } else {
      var s', h' := Step(s, moves[0]), h + Outcome(s, moves[0]);
      StepKeeps(s, moves[0]);
      StepFates(s, moves[0], h);
      RunFates(s', moves[1..], h');
      assert h' + Returns(s', moves[1..]) == h + Returns(s, moves);
    }
  }

  lemma FromStart<T>(thieves: nat, moves: seq<Move<T>>)
    ensures var s := Run(Init<T>(thieves), moves); Inv(s) && Fates(s, Returns(Init<T>(thieves), moves))
  {
    var s := Init<T>(thieves);
    InitInv<T>(thieves);
    forall n: nat
      ensures OneFate(s, [], n)
    {
    }
    RunFates(s, moves, []);
    assert [] + Returns(s, moves) == Returns(s, moves);
  }

  /**
   Over any run, no hand-out is returned by two calls, every returned task is the one pushed
   under its number, and whenever the owner is between calls every hand-out has been returned.
   */
  lemma EachReturnedOnce<T>(thieves: nat, moves: seq<Move<T>>)
    ensures var s := Run(Init<T>(thieves), moves); var h := Returns(Init<T>(thieves), moves);
      && |s.claims| <= |s.pushed|
      && (forall i, j :: 0 <= i < j < |h| ==> h[i].n != h[j].n)
      && (forall i :: 0 <= i < |h| ==>
            h[i].n < |s.claims| && h[i].got == s.claims[h[i].n] == Some(s.pushed[h[i].n]))
      && (AtRest(s.owner) ==> forall n: nat | n < |s.claims| :: Returned(h, n))
  {
    FromStart<T>(thieves, moves);
    hide Run, Init, Returns;
    var s, h := Run(Init<T>(thieves), moves), Returns(Init<T>(thieves), moves);
    forall i, j | 0 <= i < j < |h|
      ensures h[i].n != h[j].n
    {
      assert OneFate(s, h, h[i].n);
      if h[i].n == h[j].n { TimesTwice(h, i, j); }
    }
    forall i | 0 <= i < |h|
      ensures h[i].n < |s.claims| <= |s.pushed| && h[i].got == s.claims[h[i].n] == Some(s.pushed[h[i].n])
    {
      assert Good(s, h[i]);
      assert OneFate(s, h, h[i].n);
      TimesAt(h, i);
    }
    if AtRest(s.owner) {
      forall n: nat | n < |s.claims|
        ensures Returned(h, n)
      {
        assert OneFate(s, h, n);
        var i := FindReturn(h, n);
      }
    }
  }

  lemma DifferentTakers<T>(s: State<T>, h: seq<Return<T>>, a: Return<T>, b: Return<T>)
    requires Fates(s, h) && a in h && b in h && a.taker != b.taker
    ensures a.n != b.n
  {
    var i :| 0 <= i < |h| && h[i] == a;
    var j :| 0 <= j < |h| && h[j] == b;
    assert OneFate(s, h, a.n);
    if a.n == b.n { TimesTwice(h, if i < j then i else j, if i < j then j else i); }
  }

  /**
   What callers are told at any moment: a successful pop or steal shows the task of a hand-out no
   other caller shows; a pop that returns nothing found every pushed task handed out; a steal
   that reports an empty queue saw it empty when it loaded `front`.
   */
  lemma ReturnsAreHonest<T>(thieves: nat, moves: seq<Move<T>>)
    ensures var s := Run(Init<T>(thieves), moves);
      && (s.owner.Popped? ==> HandedOut(s, s.owner.n, s.owner.got))
      && (s.owner.PoppedNone? ==> s.owner.wasEmpty)
      && (forall t :: 0 <= t < |s.stealers| ==>
            && (s.stealers[t].Stole? ==> HandedOut(s, s.stealers[t].n, s.stealers[t].task))
            && (s.stealers[t].Stole? && s.owner.Popped? ==> s.stealers[t].n != s.owner.n)
            && (s.stealers[t].StoleNone? ==> s.stealers[t].wasEmpty))
      && (forall t, u | 0 <= t < u < |s.stealers| && s.stealers[t].Stole? && s.stealers[u].Stole? ::
            s.stealers[t].n != s.stealers[u].n)
  {
    FromStart<T>(thieves, moves);
    hide Run, Init, Returns;
    var s, h := Run(Init<T>(thieves), moves), Returns(Init<T>(thieves), moves);
    forall t | 0 <= t < |s.stealers|
      ensures s.stealers[t].Stole? ==> HandedOut(s, s.stealers[t].n, s.stealers[t].task)
      ensures s.stealers[t].Stole? && s.owner.Popped? ==> s.stealers[t].n != s.owner.n
      ensures s.stealers[t].StoleNone? ==> s.stealers[t].wasEmpty
    {
      assert StealerInv(s, s.stealers[t]);
      if s.stealers[t].Stole? && s.owner.Popped? {
        var stolen := Return(Some(t), s.stealers[t].n, s.stealers[t].task);
        DifferentTakers(s, h, stolen, Return(None, s.owner.n, s.owner.got));
      }
    }
    forall t, u | 0 <= t < u < |s.stealers| && s.stealers[t].Stole? && s.stealers[u].Stole?
      ensures s.stealers[t].n != s.stealers[u].n
    {
      DifferentTakers(s, h, Return(Some(t), s.stealers[t].n, s.stealers[t].task),
                      Return(Some(u), s.stealers[u].n, s.stealers[u].task));
    }
  }
}
