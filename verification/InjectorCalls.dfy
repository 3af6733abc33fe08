/** The pushes of a run of the injector: every one that began takes effect exactly once. */
module InjectorCalls {
  import opened Types
  import opened Injector
  import opened InjectorFates

  /** The task of the push of thread `t` that move `m` begins. */
  ghost function Begins<T>(s: State<T>, m: Move<T>, t: nat): seq<T> {
    if m.Push? && m.t == t < |s.pushers| && s.pushers[t].PRest? then [m.task] else []
  }

  /** The tasks of the pushes thread `t` began, in order. */
  ghost function Begun<T>(s: State<T>, moves: seq<Move<T>>, t: nat): seq<T>
    decreases |moves|
  {
    if moves == [] then [] else Begins(s, moves[0], t) + Begun(Step(s, moves[0]), moves[1..], t)
  }

  /** What a move appends to the queue. */
  ghost function Appends<T>(s: State<T>, m: Move<T>): seq<T> {
    var s' := Step(s, m);
    if |s.pushed| <= |s'.pushed| then s'.pushed[|s.pushed|..] else []
  }

  /** What a move of pusher `who`, or of anybody, appends. */
  ghost function AppendsOf<T>(s: State<T>, m: Move<T>, who: Option<nat>): seq<T> {
    if who.None? || (m.PushGo? && m.t == who.value) then Appends(s, m) else []
  }

  ghost function Appended<T>(s: State<T>, moves: seq<Move<T>>, who: Option<nat>): seq<T>
    decreases |moves|
  {
    if moves == [] then [] else AppendsOf(s, moves[0], who) + Appended(Step(s, moves[0]), moves[1..], who)
  }

  /** The task of a push that has not claimed its position yet. */
  ghost function Unclaimed<T>(pc: Pusher<T>): seq<T> {
    match pc
    case PLoadBlock(task, _) => [task]
    case PCas(task, _, _) => [task]
    case _ => []
  }

  lemma StepPushes<T>(s: State<T>, m: Move<T>, t: nat)
    requires t < |s.pushers|
    ensures var s' := Step(s, m);
      && |s'.pushers| == |s.pushers| && s'.pushed == s.pushed + Appends(s, m)
      && AppendsOf(s, m, Some(t)) + Unclaimed(s'.pushers[t]) == Unclaimed(s.pushers[t]) + Begins(s, m, t)
  {
    hide PushStep, StealStep;
    match m {
      case Push(_, _) =>
      case PushGo(u, weak) => if u < |s.pushers| { PushAppends(s, u, weak); }
      case StealGo(u, weak) => if u < |s.thieves| { StealAppends(s, u, weak); }
    }
  }

  lemma PushAppends<T>(s: State<T>, t: nat, weak: bool)
    requires t < |s.pushers|
    ensures var s' := PushStep(s, t, weak);
      && |s'.pushers| == |s.pushers| && s.pushed <= s'.pushed
      && s'.pushed[|s.pushed|..] + Unclaimed(s'.pushers[t]) == Unclaimed(s.pushers[t])
      && forall u :: 0 <= u < |s.pushers| && u != t ==> s'.pushers[u] == s.pushers[u]
  {
    if s.pushers[t].PCas? {
      CasAppends(s, t, weak, s.pushers[t].task, s.pushers[t].tail, s.pushers[t].block);
    } else {
      hide NewBlock, PushCas, SetSlot;
    }
  }

  lemma CasAppends<T>(s: State<T>, t: nat, weak: bool, task: T, tail: nat, block: nat)
    requires t < |s.pushers|
    ensures var s' := PushCas(s, t, weak, task, tail, block);
      && s'.pushers == s.pushers[t := s'.pushers[t]] && s.pushed <= s'.pushed
      && s'.pushed[|s.pushed|..] + Unclaimed(s'.pushers[t]) == [task]
  {
  }

  lemma StealAppends<T>(s: State<T>, t: nat, weak: bool)
    requires t < |s.thieves|
    ensures var s' := StealStep(s, t, weak); s'.pushers == s.pushers && s'.pushed == s.pushed
  {
  }

  lemma {:induction false} RunPushes<T>(s: State<T>, moves: seq<Move<T>>, t: nat)
    requires t < |s.pushers|
    ensures var e := Run(s, moves);
      && |e.pushers| == |s.pushers| && e.pushed == s.pushed + Appended(s, moves, None)
      && Appended(s, moves, Some(t)) + Unclaimed(e.pushers[t]) == Unclaimed(s.pushers[t]) + Begun(s, moves, t)
    decreases |moves|
  {
    hide Step, AppendsOf, Unclaimed, Begins;
    if moves == [] {
      assert Unclaimed(s.pushers[t]) + [] == [] + Unclaimed(s.pushers[t]);
    } else {
      var s' := Step(s, moves[0]);
      StepPushes(s, moves[0], t);
      assert AppendsOf(s, moves[0], None) == Appends(s, moves[0]) by { EverybodyAppends(s, moves[0]); }
      RunPushes(s', moves[1..], t);
      Regroup(AppendsOf(s, moves[0], Some(t)), Appended(s', moves[1..], Some(t)), Unclaimed(Run(s, moves).pushers[t]),
              Unclaimed(s'.pushers[t]), Unclaimed(s.pushers[t]), Begins(s, moves[0], t), Begun(s', moves[1..], t));
    }
  }

  lemma EverybodyAppends<T>(s: State<T>, m: Move<T>)
    ensures AppendsOf(s, m, None) == Appends(s, m)
  {
  }

  lemma Regroup<T>(a: seq<T>, x: seq<T>, w: seq<T>, v: seq<T>, u: seq<T>, b: seq<T>, y: seq<T>)
    requires a + v == u + b && x + w == v + y
    ensures (a + x) + w == u + (b + y)
  {
    assert (a + x) + w == a + (x + w) == a + (v + y) == (a + v) + y;
    assert (u + b) + y == u + (b + y);
  }

  /**
   No push is lost or doubled: over every interleaving the queue is what the pushers' steps appended, and
   what thread `t` appended are the tasks of its pushes, in order; only one it has not claimed a position
   for yet is missing.
   */
  lemma PushesTakeEffect<T>(pushers: nat, thieves: nat, moves: seq<Move<T>>, t: nat)
    requires t < pushers
    ensures var s0 := Init<T>(pushers, thieves); var s := Run(s0, moves);
      && |s.pushers| == pushers && s.pushed == Appended(s0, moves, None)
      && Appended(s0, moves, Some(t)) + Unclaimed(s.pushers[t]) == Begun(s0, moves, t)
      && (s.pushers[t].PRest? ==> Appended(s0, moves, Some(t)) == Begun(s0, moves, t))
  {
    RunPushes(Init<T>(pushers, thieves), moves, t);
  }
}
