/**
 A drain among other agents' steps. It looks at the pending requests one by one and completes each match
 in two steps, while consumers pop and other agents queue up for the lock; the lock makes it one action.
 */
module DispatcherDrains {
  import opened Types
  import opened Dispatcher

  /** Agent `g` drains `was` for `c` and is past its first `m` requests; `made` is what was completed before. */
  ghost predicate Underway(was: seq<Request>, made: seq<Completion>, s: State, g: Agent, c: Cause, m: nat) {
    && m <= |was| && Made(s) == made + Done(was[..m], c)
    && match g
       case Draining(c', i) =>
         c' == c && i == |Left(was[..m], c)| && s.pending == Left(was[..m], c) + was[m..]
       case Handing(c', i, r) =>
         && m < |was| && c' == c && r == was[m] && Matches(r, c)
         && i == |Left(was[..m], c)| && s.pending == Left(was[..m], c) + was[m + 1..]
       case _ => false
  }

  /** All of `was` has been drained: the matches completed in order, the rest pending in order. */
  ghost predicate Drained(was: seq<Request>, made: seq<Completion>, s: State, c: Cause) {
    s.pending == Left(was, c) && Made(s) == made + Done(was, c)
  }

  lemma OneFurther(was: seq<Request>, c: Cause, m: nat)
    requires m < |was|
    ensures Left(was[..m + 1], c) == Left(was[..m], c) + if Matches(was[m], c) then [] else [was[m]]
    ensures Done(was[..m + 1], c) == Done(was[..m], c) + if Matches(was[m], c) then [Completion(c, was[m])] else []
  {
    assert was[..m + 1][..m] == was[..m];
  }

  lemma LookStep(was: seq<Request>, made: seq<Completion>, s: State, a: nat, c: Cause, m: nat)
    requires a < |s.agents| && s.agents[a].Draining? && Underway(was, made, s, s.agents[a], c, m) && m < |was|
    ensures var s' := Sift(s, a, c, s.agents[a].i);
      Underway(was, made, s', s'.agents[a], c, if Matches(was[m], c) then m else m + 1)
  {
    hide Left, Done, Matches;
    OneFurther(was, c, m);
    var kept, i := Left(was[..m], c), s.agents[a].i;
    assert was[m..] == [was[m]] + was[m + 1..];
    assert s.pending == kept + [was[m]] + was[m + 1..];
    assert s.pending[i] == was[m] && s.pending[..i] == kept && s.pending[i + 1..] == was[m + 1..];
  }

  lemma HandStep(was: seq<Request>, made: seq<Completion>, s: State, a: nat, c: Cause, m: nat)
    requires a < |s.agents| && s.agents[a].Handing? && Underway(was, made, s, s.agents[a], c, m)
    ensures var s' := DoGo(s, a); Underway(was, made, s', s'.agents[a], c, m + 1)
  {
    hide Left, Done, Matches;
    OneFurther(was, c, m);
    var kept := Left(was[..m], c);
    assert kept + [] == kept;
    var x := Completion(c, was[m]);
    assert s.popped + (s.ready + [x]) == s.popped + s.ready + [x];
    assert made + Done(was[..m], c) + [x] == made + (Done(was[..m], c) + [x]);
  }

  /** A step of the drainer itself. */
  lemma OwnStep(was: seq<Request>, made: seq<Completion>, s: State, a: nat, c: Cause, m: nat)
    requires a < |s.agents| && Underway(was, made, s, s.agents[a], c, m)
    ensures var s' := Next(s, Go(a));
      && |s'.agents| == |s.agents|
      && if s'.agents[a].Idle? then Drained(was, made, s', c)
         else Underway(was, made, s', s'.agents[a], c, m) || Underway(was, made, s', s'.agents[a], c, m + 1)
  {
    hide Left, Done, Matches;
    if s.agents[a].Handing? {
      HandStep(was, made, s, a, c, m);
    } else if m < |was| {
      LookStep(was, made, s, a, c, m);
    } else {
      assert was[..m] == was && Left(was, c) + was[m..] == Left(was, c);
    }
  }

  /** A step of anyone else: the lock keeps them off the pending requests. */
  lemma OtherStep(was: seq<Request>, made: seq<Completion>, s: State, a: nat, c: Cause, m: nat, move: Move)
    requires Inv(s) && a < |s.agents| && Underway(was, made, s, s.agents[a], c, m) && move != Go(a)
    ensures var s' := Next(s, move);
      |s'.agents| == |s.agents| && s'.agents[a] == s.agents[a] && Underway(was, made, s', s'.agents[a], c, m)
  {
    hide Left, Done, Matches;
    SoleHolder(s, a);
    var s' := Next(s, move);
    assert s'.pending == s.pending && Made(s') == Made(s);
  }

  /** Agent `a` does not finish before the last of the moves. */
  ghost predicate Busy(s: State, moves: seq<Move>, a: nat) {
    forall k :: 0 <= k < |moves| ==> var e := Run(s, moves[..k]); a < |e.agents| && !e.agents[a].Idle?
  }

  lemma {:induction false} DrainRun(s: State, a: nat, c: Cause, moves: seq<Move>) returns (m: nat)
    requires Inv(s) && a < |s.agents| && s.agents[a] == Draining(c, 0) && Busy(s, moves, a)
    ensures var e := Run(s, moves);
      && Inv(e) && a < |e.agents|
      && if e.agents[a].Idle? then Drained(s.pending, Made(s), e, c)
         else Underway(s.pending, Made(s), e, e.agents[a], c, m)
    decreases |moves|
  {
    hide Inv, Left, Done, Matches, Next;
    m := 0;
    if moves == [] {
      Nothing(s.pending, c);
    } else {
      var k := |moves| - 1;
      assert Busy(s, moves[..k], a) by {
        assert forall j :: 0 <= j < k ==> moves[..k][..j] == moves[..j];
      }
      m := DrainRun(s, a, c, moves[..k]);
      var e, move := Run(s, moves[..k]), moves[k];
      NextKeeps(e, move);
      hide Underway, Drained, Busy;
      if move == Go(a) {
        OwnStep(s.pending, Made(s), e, a, c, m);
        var e' := Next(e, move);
        if !e'.agents[a].Idle? && !Underway(s.pending, Made(s), e', e'.agents[a], c, m) { m := m + 1; }
      } else {
        OtherStep(s.pending, Made(s), e, a, c, m, move);
      }
    }
  }

  lemma Nothing(was: seq<Request>, c: Cause)
    ensures Left(was[..0], c) == [] && Done(was[..0], c) == [] && was[0..] == was
  {
  }

  /**
   In any run, from the moment an agent has the lock until it lets go, its drain does what it would do
   undisturbed: it completes the matches among the requests then pending, in order, and leaves the others,
   in order; so when it is done no request its cause meets is left pending.
   */
  lemma DrainIsAtomic(capacity: nat, agents: nat, before: seq<Move>, a: nat, c: Cause, moves: seq<Move>)
    requires var s := Run(Init(capacity, agents), before);
      a < |s.agents| && s.agents[a] == Draining(c, 0) && Busy(s, moves, a)
    ensures var s := Run(Init(capacity, agents), before); var e := Run(s, moves);
      && a < |e.agents|
      && (e.agents[a].Idle? ==>
            && e.pending == Left(s.pending, c) && Made(e) == Made(s) + Done(s.pending, c)
            && forall i :: 0 <= i < |e.pending| ==> !Meets(e.pending[i], c))
  {
    hide Run, Init, Inv, Left, Done, Matches, Meets;
    RunKeeps(capacity, agents, before);
    var s := Run(Init(capacity, agents), before);
    var _ := DrainRun(s, a, c, moves);
    DrainDecides(s.pending, c);
  }
}
