/**
 Waking in the interleaved machine, seen from the callers: waiters queue up in the order they block, a
 timer that is fired, a notifier and a requeuer that are left alone finish their work, and a woken task
 learns how it was woken.
 */
module TimerCalls {
  import opened Types
  import opened Timers
  import Waits

  // ----- first come, first served -----

  ghost predicate Rising(q: seq<nat>, n: nat) {
    && (forall i, j :: 0 <= i < j < |q| ==> q[i] < q[j])
    && (forall i :: 0 <= i < |q| ==> q[i] < n)
  }

  ghost predicate AllRising(s: State) {
    forall q :: 0 <= q < |s.queues| ==> Rising(s.queues[q], |s.timers|)
  }

  ghost predicate NoRequeue(s: State) {
    forall a :: 0 <= a < |s.agents| ==> !s.agents[a].Requeue? && !s.agents[a].Move?
  }

  lemma StepRises(s: State, m: Step)
    requires AllRising(s) && NoRequeue(s) && !m.StartRequeue?
    ensures AllRising(Next(s, m)) && NoRequeue(Next(s, m))
  {
    var s' := Next(s, m);
    if m.Block? {
      forall q | 0 <= q < |s'.queues|
        ensures Rising(s'.queues[q], |s'.timers|)
      {
        assert Rising(s.queues[q], |s.timers|);
      }
    } else if m.Go? && m.a < |s.agents| {
      GoRises(s, m.a);
    }
  }

  lemma GoRises(s: State, a: nat)
    requires AllRising(s) && NoRequeue(s) && a < |s.agents|
    ensures AllRising(DoGo(s, a)) && NoRequeue(DoGo(s, a))
  {
    var s' := DoGo(s, a);
    forall q | 0 <= q < |s'.queues|
      ensures Rising(s'.queues[q], |s'.timers|)
    {
      assert Rising(s.queues[q], |s.timers|);
    }
  }

  /**
   Timers are numbered as tasks block. As long as nobody requeues, every queue is in that order in every
   reachable state: whoever blocked first is woken first.
   */
  lemma {:induction false} QueuesInOrder(queues: nat, agents: nat, moves: seq<Step>)
    requires forall i :: 0 <= i < |moves| ==> !moves[i].StartRequeue?
    ensures var s := Run(Init(queues, agents), moves); AllRising(s) && NoRequeue(s)
    decreases |moves|
  {
    hide Next, AllRising, NoRequeue;
    if moves == [] {
      assert AllRising(Init(queues, agents)) && NoRequeue(Init(queues, agents)) by { StartRises(queues, agents); }
    } else {
      var k := |moves| - 1;
      QueuesInOrder(queues, agents, moves[..k]);
      StepRises(Run(Init(queues, agents), moves[..k]), moves[k]);
    }
  }

  lemma StartRises(queues: nat, agents: nat)
    ensures AllRising(Init(queues, agents)) && NoRequeue(Init(queues, agents))
  {
  }

  /**
   A task that blocks gets the next timer, at the back of its wait queue and in the clock's heap, as far as
   it has a queue and a deadline; a queue that is not there is refused.
   */
  lemma BlockPuts(s: State, task: nat, queue: Option<nat>, deadline: Option<nat>)
    ensures var s', t := Next(s, Block(task, queue, deadline)), |s.timers|;
      if queue.Some? && queue.value >= |s.queues| then s' == s
      else
        && s' == s.(timers := s'.timers, queues := s'.queues, heap := s'.heap)
        && s'.timers == s.timers + [Timer(task, queue.Some?, deadline, true, false)]
        && s'.heap == s.heap + (if deadline.Some? then {t} else {}) && |s'.queues| == |s.queues|
        && forall q :: 0 <= q < |s.queues| ==> s'.queues[q] == s.queues[q] + if queue == Some(q) then [t] else []
  {
  }

  /** The clock may drop a timer off its heap once its callback is gone, and not before. */
  lemma DiscardDrops(s: State, t: nat)
    requires t < |s.timers|
    ensures Next(s, Discard(t)) == if s.timers[t].live then s else s.(heap := s.heap - {t})
  {
  }

  // ----- calls left alone -----

  /** A live timer taken off the heap and fired alone wakes its task, as fired; a dead one is dropped. */
  lemma FireAlone(s: State, a: nat, t: nat)
    requires a < |s.agents| && s.agents[a].Idle? && t in s.heap && t < |s.timers|
    ensures var e := Waits.Alone(Next(s, StartFire(a, t)), a, 3);
      && e.agents == s.agents && e.heap == s.heap - {t} && e.queues == s.queues && e.results == s.results
      && if s.timers[t].live
         then
           && e.woken == s.woken + [Wakeup(t, false)]
           && e.timers == s.timers[t := s.timers[t].(live := false, fired := true)]
         else e.woken == s.woken && e.timers == s.timers
  {
    var s0 := Next(s, StartFire(a, t));
    ThreeSteps(s0, a);
    var base := s.(heap := s.heap - {t});
    assert s0 == At(base, a, Fire(t)) && s.agents[a := Idle] == s.agents;
    if s.timers[t].live {
      var won := base.(timers := s.timers[t := s.timers[t].(live := false)]);
      Twice(won, a, Fire(t), Mark(t));
      assert Next(s0, Go(a)) == At(won, a, Mark(t));
      FiredAlone(won, a, t);
    } else {
      Twice(base, a, Fire(t), Idle);
      assert Next(s0, Go(a)) == At(base, a, Idle) && Next(At(base, a, Idle), Go(a)) == At(base, a, Idle);
    }
  }

  ghost function At(s: State, a: nat, g: Agent): State
    requires a < |s.agents|
  {
    s.(agents := s.agents[a := g])
  }

  lemma Twice(s: State, a: nat, g: Agent, h: Agent)
    requires a < |s.agents|
    ensures At(At(s, a, g), a, h) == At(s, a, h)
  {
    assert s.agents[a := g][a := h] == s.agents[a := h];
  }

  lemma ThreeSteps(s: State, a: nat)
    ensures Waits.Alone(s, a, 3) == Next(Next(Next(s, Go(a)), Go(a)), Go(a))
  {
    hide Next;
    var s1 := Next(s, Go(a));
    var s2 := Next(s1, Go(a));
    assert Waits.Alone(Next(s2, Go(a)), a, 0) == Next(s2, Go(a)) && Waits.Alone(s1, a, 2) == Waits.Alone(s2, a, 1);
  }

  lemma FiredAlone(s: State, a: nat, t: nat)
    requires a < |s.agents| && t < |s.timers|
    ensures Next(Next(At(s, a, Mark(t)), Go(a)), Go(a))
         == At(s, a, Idle).(timers := s.timers[t := s.timers[t].(fired := true)], woken := s.woken + [Wakeup(t, false)])
  {
    var marked := s.(timers := s.timers[t := s.timers[t].(fired := true)]);
    Twice(marked, a, Mark(t), Ready(t));
    assert Next(At(s, a, Mark(t)), Go(a)) == At(marked, a, Ready(t));
    Twice(marked, a, Ready(t), Idle);
  }

  /** A notifier left alone wakes the first live waiters: as many as asked for, or as can be counted for 0. */
  lemma NotifyAlone(s: State, a: nat, q: nat, num: nat) returns (k: nat)
    requires a < |s.agents| && s.agents[a].Idle? && q < |s.queues|
    requires Waits.Distinct(s.queues[q]) && forall t :: t in s.queues[q] ==> t < |s.timers|
    ensures var s0 := Next(s, StartNotify(a, q, num)); var live := Waits.LiveOf(s.timers, s.queues[q]);
      && |s0.agents| == |s.agents| && s0.queues == s.queues && s0.timers == s.timers
      && Waits.Notified(s0, Waits.Alone(s0, a, k), a, q, Min(if num == 0 then 0xFFFF_FFFF_FFFF_FFFF else num, |live|))
  {
    var s0 := Next(s, StartNotify(a, q, num));
    assert s0.agents[a] == Notify(q, if num == 0 then 0xFFFF_FFFF_FFFF_FFFF else num);
    k := Waits.NotifierAlone(s0, a, q, s0.agents[a].left);
  }

  /** What a requeuer with `left` to go, left alone, does to the queues. */
  ghost predicate Requeued(s: State, e: State, a: nat, q: nat, dst: nat, n: nat)
    requires a < |s.agents| && q < |s.queues| && dst < |s.queues|
  {
    e == s.(queues := e.queues, agents := s.agents[a := Idle]) && Waits.Shifted(s.queues, e.queues, q, dst, n)
  }

  lemma {:induction false} RequeuerAlone(s: State, a: nat, q: nat, left: nat, dst: nat) returns (k: nat, n: nat)
    requires a < |s.agents| && s.agents[a] == Requeue(q, left, dst) && q < |s.queues| && dst < |s.queues|
    ensures n == if q == dst && s.queues[q] != [] then left else Min(left, |s.queues[q]|)
    ensures Requeued(s, Waits.Alone(s, a, k), a, q, dst, n)
    decreases left
  {
    hide Next, Waits.Shifted, Waits.Alone;
    if left == 0 || s.queues[q] == [] {
      k, n := 1, 0;
      RequeuerStops(s, a, q, left, dst);
    } else {
      var s2 := Waits.Alone(s, a, 2);
      RequeuerMoves(s, a, q, left, dst);
      k, n := RequeuerAlone(s2, a, q, left - 1, dst);
      Waits.AloneAdds(s, a, 2, k);
      var e := Waits.Alone(s2, a, k);
      assert s.agents[a := s2.agents[a]][a := Idle] == s.agents[a := Idle];
      ShiftFirst(s.queues, s2.queues, e.queues, q, dst, n);
      k, n := k + 2, n + 1;
    }
  }

  lemma RequeuerStops(s: State, a: nat, q: nat, left: nat, dst: nat)
    requires a < |s.agents| && s.agents[a] == Requeue(q, left, dst) && q < |s.queues| && dst < |s.queues|
    requires left == 0 || s.queues[q] == []
    ensures Requeued(s, Waits.Alone(s, a, 1), a, q, dst, 0)
  {
    assert Waits.Alone(Next(s, Go(a)), a, 0) == Next(s, Go(a));
    Waits.NoneShifted(s.queues, q, dst);
  }

  /** The queues after the front of `q` went to the back of `dst`. */
  function MovedOne(qs: seq<seq<nat>>, q: nat, dst: nat): (r: seq<seq<nat>>)
    requires q < |qs| && dst < |qs| && qs[q] != []
    ensures |r| == |qs|
  {
    var mid := qs[q := qs[q][1..]];
    mid[dst := mid[dst] + [qs[q][0]]]
  }

  lemma RequeuerMoves(s: State, a: nat, q: nat, left: nat, dst: nat)
    requires a < |s.agents| && s.agents[a] == Requeue(q, left, dst) && q < |s.queues| && dst < |s.queues|
    requires left > 0 && s.queues[q] != []
    ensures Waits.Alone(s, a, 2)
         == s.(queues := MovedOne(s.queues, q, dst), agents := s.agents[a := Requeue(q, left - 1, dst)])
  {
    var s1 := Next(s, Go(a));
    var s2 := Next(s1, Go(a));
    assert Waits.Alone(s2, a, 0) == s2 && Waits.Alone(s1, a, 1) == s2;
    assert s1.agents[a := Requeue(q, left - 1, dst)] == s.agents[a := Requeue(q, left - 1, dst)];
  }

  /** One move and then `n` more are `n + 1` moves. */
  lemma ShiftFirst(was: seq<seq<nat>>, mid: seq<seq<nat>>, now: seq<seq<nat>>, q: nat, dst: nat, n: nat)
    requires q < |was| && dst < |was| && was[q] != [] && mid == MovedOne(was, q, dst)
    requires Waits.Shifted(mid, now, q, dst, n)
    ensures Waits.Shifted(was, now, q, dst, n + 1)
  {
    if q != dst {
      assert mid[q] == was[q][1..] && mid[dst] == was[dst] + [was[q][0]];
      assert was[q][1..][n..] == was[q][n + 1..] && was[q][..n + 1] == [was[q][0]] + was[q][1..][..n];
    }
  }

  /**
   A requeuer left alone moves waiters front to back, as many as asked for or as there are; onto the same
   futex it goes round.
   */
  lemma RequeueAlone(s: State, a: nat, q: nat, dst: nat, num: nat) returns (k: nat, n: nat)
    requires a < |s.agents| && s.agents[a].Idle? && q < |s.queues| && dst < |s.queues|
    ensures n == if q == dst && s.queues[q] != [] then num else Min(num, |s.queues[q]|)
    ensures var e := Waits.Alone(Next(s, StartRequeue(a, q, dst, num)), a, k);
      e == s.(queues := e.queues) && Waits.Shifted(s.queues, e.queues, q, dst, n)
  {
    var s0 := Next(s, StartRequeue(a, q, dst, num));
    k, n := RequeuerAlone(s0, a, q, num, dst);
    assert s0.agents[a := Idle] == s.agents;
  }

  /** In every reachable state a woken task that resumes learns, once, whether its wakeup was a cancellation. */
  lemma ResumeTells(queues: nat, agents: nat, moves: seq<Step>, i: nat)
    requires i < |Run(Init(queues, agents), moves).woken|
    ensures var s := Run(Init(queues, agents), moves); var w := s.woken[i];
      var s' := Next(s, Resume(w.t)); w.t in s'.results && s'.results[w.t] == w.canceled
  {
    hide Run, Init;
    RunKeeps(queues, agents, moves);
    var s := Run(Init(queues, agents), moves);
    var w := s.woken[i];
    if w.t in s.results { WaitTells(queues, agents, moves, w.t); }
  }
}
