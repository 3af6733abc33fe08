/** Calls on the dispatcher that are left alone: they finish, and do what their one-step forms do. */
module DispatcherCalls {
  import opened Types
  import opened Dispatcher
  import opened DispatcherDrains

  /** Agent `a` makes `k` steps in a row. */
  ghost function GoesOn(s: State, a: nat, k: nat): State
    decreases k
  {
    if k == 0 then s else GoesOn(Next(s, Go(a)), a, k - 1)
  }

  lemma Twice(s: State, a: nat, g: Agent, h: Agent)
    requires a < |s.agents|
    ensures Become(Become(s, a, g), a, h) == Become(s, a, h)
  {
    assert s.agents[a := g][a := h] == s.agents[a := h];
  }

  lemma ThreeSteps(s: State, a: nat)
    ensures GoesOn(s, a, 3) == Next(Next(Next(s, Go(a)), Go(a)), Go(a))
  {
    hide Next;
    var s1 := Next(s, Go(a));
    var s2 := Next(s1, Go(a));
    assert GoesOn(Next(s2, Go(a)), a, 0) == Next(s2, Go(a)) && GoesOn(s1, a, 2) == GoesOn(s2, a, 1);
  }

  lemma LockAlone(s: State, a: nat, r: Request)
    requires Free(s) && a < |s.agents|
    ensures Next(Become(s, a, Keyed(r)), Go(a)) == Become(s, a, Locked(r))
    ensures Next(Become(s, a, Locked(r)), Go(a)) == Become(s, a, Checked(r, |s.ready|))
  {
    Twice(s, a, Keyed(r), Locked(r));
    Twice(s, a, Locked(r), Checked(r, |s.ready|));
    assert Free(Become(s, a, Keyed(r)));
  }

  /**
   A push made while the lock is free and left alone: accepted, at the back of the pending requests, exactly
   when pending and ready ones together are fewer than the capacity, and refused otherwise.
   */
  lemma PushAlone(s: State, a: nat, event: nat, mask: Word, edge: bool)
    requires Inv(s) && Free(s) && a < |s.agents| && s.agents[a].Idle?
    ensures var e := GoesOn(Next(s, StartPush(a, event, mask, edge)), a, 3); var key := s.nextKey;
      && e.agents == s.agents && e.ready == s.ready && e.popped == s.popped && e.nextKey == key + 1 && !e.fault
      && if |s.pending| + |s.ready| < s.capacity
         then e.pending == s.pending + [Request(key, event, mask, edge)] && e.accepted == s.accepted + {key}
         else e.pending == s.pending && e.accepted == s.accepted && e.refused == s.refused + {key}
  {
    var r := Request(s.nextKey, event, mask, edge);
    assert |s.ready| <= s.capacity && !s.fault;
    hide Inv, Free;
    var s0 := s.(nextKey := s.nextKey + 1);
    var s1 := Next(s, StartPush(a, event, mask, edge));
    assert s1 == Become(s0, a, Keyed(r));
    assert Free(s0) by { SameAgents(s, s0); }
    LockAlone(s0, a, r);
    ThreeSteps(s1, a);
    Twice(s0, a, Checked(r, |s.ready|), Idle);
    assert s.agents[a := Idle] == s.agents;
  }

  lemma SameAgents(s: State, s': State)
    requires Free(s) && s'.agents == s.agents
    ensures Free(s')
  {
  }

  ghost function ToGo(g: Agent, n: nat, m: nat): int {
    if g.Draining? then 2 * (n - m) + 1 else 2 * (n - m)
  }

  lemma {:induction false} DrainEnds(was: seq<Request>, made: seq<Completion>, s: State, a: nat, c: Cause, m: nat)
    returns (k: nat)
    requires a < |s.agents| && Underway(was, made, s, s.agents[a], c, m)
    ensures var e := GoesOn(s, a, k); |e.agents| == |s.agents| && e.agents[a].Idle? && Drained(was, made, e, c)
    decreases ToGo(s.agents[a], |was|, m)
  {
    hide Left, Done, Matches;
    var s' := Next(s, Go(a));
    if s.agents[a].Handing? {
      HandStep(was, made, s, a, c, m);
      hide Underway, Drained;
      k := DrainEnds(was, made, s', a, c, m + 1);
      k := k + 1;
    } else if m < |was| {
      LookStep(was, made, s, a, c, m);
      var m' := if Matches(was[m], c) then m else m + 1;
      assert s'.agents[a].Handing? <==> m' == m;
      hide Underway, Drained;
      k := DrainEnds(was, made, s', a, c, m');
      k := k + 1;
    } else {
      OwnStep(was, made, s, a, c, m);
      assert GoesOn(s', a, 0) == s';
      k := 1;
    }
  }

  /**
   A cancellation, or a notification while the ready queue has room, left alone with the lock free: it
   completes the requests its cause meets, in order, and leaves the others pending, in order.
   */
  lemma DrainAlone(s: State, a: nat, event: nat, signal: Word, canceled: bool, onWait: bool) returns (k: nat)
    requires Inv(s) && Free(s) && a < |s.agents| && s.agents[a].Idle? && (canceled || |s.ready| < s.capacity)
    requires canceled ==> !onWait
    ensures var start := if canceled then StartCancel(a, event, signal) else StartNotify(a, event, signal, onWait);
      var c := Cause(event, signal, canceled, onWait); var e := GoesOn(Next(s, start), a, k);
      && |e.agents| == |s.agents| && e.agents[a].Idle? && Drained(s.pending, Made(s), e, c)
      && forall i :: 0 <= i < |e.pending| ==> !Meets(e.pending[i], c)
  {
    hide Left, Done, Matches, Meets;
    var start := if canceled then StartCancel(a, event, signal) else StartNotify(a, event, signal, onWait);
    var c := Cause(event, signal, canceled, onWait);
    var s1 := Next(s, start);
    assert Free(s1);
    var s2 := Next(s1, Go(a));
    Nothing(s.pending, c);
    assert Underway(s.pending, Made(s), s2, s2.agents[a], c, 0);
    k := DrainEnds(s.pending, Made(s), s2, a, c, 0);
    DrainDecides(s.pending, c);
    hide Underway;
    k := k + 1;
  }

  /** A consumer gets the oldest completion, and only it is taken. */
  lemma PopTakes(s: State)
    ensures Next(s, PopReady)
         == if |s.ready| == 0 then s else s.(ready := s.ready[1..], popped := s.popped + [s.ready[0]])
  {
  }

  /** A notification is turned away exactly when the ready queue is full, and then no request is pending. */
  lemma TurnedAway(capacity: nat, agents: nat, moves: seq<Move>, a: nat, event: nat, signal: Word, onWait: bool)
    requires var s := Run(Init(capacity, agents), moves); a < |s.agents| && s.agents[a].Idle?
    ensures var s := Run(Init(capacity, agents), moves);
      && (Next(s, StartNotify(a, event, signal, onWait)) == s <==> |s.ready| == capacity)
      && (|s.ready| == capacity ==> s.pending == [])
  {
    hide Run, Init;
    NeverOverfull(capacity, agents, moves);
    var s := Run(Init(capacity, agents), moves);
    assert s.agents[a := Wanting(Cause(event, signal, false, onWait))][a] != s.agents[a];
  }
}
