/**
 Where every move of the scheduling machine puts the tasks it touches, in every reachable state, told
 without the functions the machine is made of; and how much running time the ticks charge.
 */
module SchedMoves {
  import opened Types
  import opened SchedCpu
  import opened Scheduling

  /** The task at the front of the queue of CPU `c` runs from `now` on, and `behind` joins the back. */
  ghost predicate FrontRuns(p: Cpu, q: Cpu, c: nat, now: Instant, behind: seq<Task>) {
    && p.queue != [] && q.migration == p.migration
    && q.current == Some(p.queue[0].(cpu := c, running := Running(now))) && q.queue == p.queue[1..] + behind
  }

  /** Only CPU `c` changed. */
  ghost predicate OnlyCpu(s: State, s': State, c: nat) {
    c < |s.cpus| == |s'.cpus| && forall d :: 0 <= d < |s.cpus| && d != c ==> s'.cpus[d] == s.cpus[d]
  }

  ghost predicate Idles(p: Cpu, c: nat) { p.current.None? || p.current.value.id == c }

  lemma LeaveMoves(s: State, c: nat, now: Instant)
    requires Inv(s) && c < |s.cpus| && !Idles(s.cpus[c], c)
    ensures var p := s.cpus[c];
      && Leave(p, c, now).Some? && p.current.value.slice == SLICE
      && FrontRuns(p, Leave(p, c, now).value, c, now, []) && Leave(p, c, now).value.load == p.load - SLICE_US
  {
    var p := s.cpus[c];
    assert CpuOk(p, c);
    LeaveOk(p, c, now);
    assert p.queue[1..] + [] == p.queue[1..];
  }

  /**
   Blocking hands the running task to the timer's callback, suspending to the slot of the signal, exiting
   and being killed end it; either way the front of the queue runs next and one slice is discharged. The
   idle task, and a CPU without a task, do none of this.
   */
  lemma LeavingPuts(n: nat, moves: seq<Move>, c: nat, now: Instant)
    requires c < |Run(Boot(n), moves).cpus|
    ensures var s := Run(Boot(n), moves); var p := s.cpus[c];
      var b, u, e := Step(s, Block(c, now)), Step(s, Suspend(c, now)), Step(s, Exit(c, now));
      if Idles(p, c) then b == u == e == s
      else
        var task := p.current.value;
        && b.held == s.held[task.id := (task, Timer)] && u.held == s.held[task.id := (task, Slot)] && e.held == s.held
        && b.exited == u.exited == s.exited && e.exited == s.exited + {task.id}
        && b.known == u.known == e.known == s.known
        && Relieved(s, b, c, now) && Relieved(s, u, c, now) && Relieved(s, e, c, now)
  {
    hide Run, Boot;
    RunKeeps(n, moves);
    var s := Run(Boot(n), moves);
    if !Idles(s.cpus[c], c) {
      LeaveMoves(s, c, now);
      hide Leave, Inv;
    }
  }

  ghost predicate Relieved(s: State, s': State, c: nat, now: Instant) {
    && OnlyCpu(s, s', c) && FrontRuns(s.cpus[c], s'.cpus[c], c, now, [])
    && s'.cpus[c].load == s.cpus[c].load - SLICE_US && !s'.fault
  }

  /** The readied task: a fresh slice, its running time kept, and the CPU it goes to. */
  function Readied(t: Task, c: nat): Task { Task(t.id, t.affinity, c, t.runtime, SLICE, NotRunning) }

  /**
   A readied task preempts exactly when that is allowed and the running one has run over a millisecond
   longer; then the running one goes to the back of the queue, and otherwise the readied one does.
   */
  ghost predicate Taken(p: Cpu, q: Cpu, c: nat, now: Instant, t: Task, preempt: bool) {
    && q.load == p.load + SLICE_US && q.migration == p.migration
    && if preempt && p.current.Some? && p.current.value.runtime > t.runtime + 1_000_000
       then
         && q.current == Some(t.(cpu := c, running := Running(now)))
         && q.queue == p.queue + [p.current.value.(running := NotRunning)]
       else q.current == p.current && q.queue == p.queue + [t]
  }

  lemma EnqueueTakes(p: Cpu, c: nat, now: Instant, t: Task, preempt: bool)
    requires t.slice == SLICE
    ensures Taken(p, Enqueue(p, c, now, t, preempt), c, now, t, preempt)
  {
  }

  /** The caller may ready task `id` onto CPU `target`. */
  ghost predicate Allowed(s: State, id: nat, at: nat, target: nat) {
    id in s.held && at < |s.cpus| && target < |s.cpus| && target in s.held[id].0.affinity
  }

  /**
   Readying takes a task from its holder: onto the CPU that readies it, where it may preempt, or to the
   back of another CPU's migration queue. If it is not allowed, nothing happens.
   */
  lemma UnblockPuts(s: State, id: nat, at: nat, target: nat, preempt: bool, now: Instant)
    ensures var s' := Step(s, Unblock(id, at, target, preempt, now));
      if !Allowed(s, id, at, target) then s' == s
      else
        var t := Readied(s.held[id].0, target); var p, q := s.cpus[target], s'.cpus[target];
        && s'.held == s.held - {id} && s'.exited == s.exited && s'.known == s.known && s'.fault == s.fault
        && OnlyCpu(s, s', target)
        && if target == at then Taken(p, q, at, now, t, preempt) else q == p.(migration := p.migration + [t])
  {
    if Allowed(s, id, at, target) {
      var t := IntoReady(s.held[id].0, target);
      EnqueueTakes(s.cpus[target], target, now, t, preempt);
      hide Enqueue;
    }
  }

  /** The interrupt takes over the oldest task sent to this CPU, which may preempt. */
  lemma MigratePuts(n: nat, moves: seq<Move>, c: nat, now: Instant)
    requires c < |Run(Boot(n), moves).cpus|
    ensures var s := Run(Boot(n), moves); var s' := Step(s, Migrate(c, now)); var p := s.cpus[c];
      if p.migration == [] then s' == s
      else
        && OnlyCpu(s, s', c) && s'.held == s.held && s'.exited == s.exited && s'.known == s.known && s'.fault == s.fault
        && Taken(p.(migration := p.migration[1..]), s'.cpus[c], c, now, p.migration[0], true)
  {
    hide Run, Boot;
    RunKeeps(n, moves);
    var s := Run(Boot(n), moves);
    var p := s.cpus[c];
    assert CpuOk(p, c);
    if p.migration != [] {
      assert Waiting(p.migration[0], c);
      EnqueueTakes(p.(migration := p.migration[1..]), c, now, p.migration[0], true);
      hide Enqueue, Inv;
    }
  }

  /** A created task is held by its creator; a number in use and an empty or impossible affinity are refused. */
  lemma CreatePuts(s: State, id: nat, affinity: set<nat>)
    ensures var s' := Step(s, Create(id, affinity));
      if id in s.known || affinity == {} || exists c :: c in affinity && c >= |s.cpus| then s' == s
      else s' == s.(known := s.known + {id}, held := s'.held)
           && s'.held == s.held[id := (Task(id, affinity, 0, 0, 0, NotRunning), Creator)]
  {
  }

  // ----- running time -----

  /** How long before `now` the task was switched to; a clock that went back counts as no time. */
  function Elapsed(start: Instant, now: Instant): nat { if now < start then 0 else now - start }

  /** The current task of `p` is switched to at `start` and not asked to go. */
  ghost predicate RunsSince(p: Cpu, start: Instant) { p.current.Some? && p.current.value.running == Running(start) }

  /**
   What a tick does to a CPU in order: it charges the time since the task was switched to, and lets the
   front of the queue run when that is more than a slice or a switch was asked for.
   */
  ghost predicate Ticked(p: Cpu, q: Cpu, c: nat, now: Instant) {
    && q.load == p.load && q.migration == p.migration
    && if p.current.None? then if p.queue == [] then q == p else FrontRuns(p, q, c, now, [])
       else
         var cur := p.current.value;
         match cur.running
         case NotRunning => false
         case NeedResched => if p.queue == [] then q == p else FrontRuns(p, q, c, now, [cur.(running := NotRunning)])
         case Running(start) =>
           var run := cur.(runtime := cur.runtime + Elapsed(start, now));
           if Elapsed(start, now) > 30_000_000 && p.queue != []
           then FrontRuns(p, q, c, now, [run.(running := NotRunning)])
           else q.current == Some(run) && q.queue == p.queue
  }

  lemma TickOne(s: State, c: nat, now: Instant)
    requires Inv(s) && c < |s.cpus|
    ensures var s' := TickOn(s, c, now);
      OnlyCpu(s, s', c) && s' == s.(cpus := s'.cpus) && Ticked(s.cpus[c], s'.cpus[c], c, now)
  {
    var p := s.cpus[c];
    assert CpuOk(p, c);
    hide Inv;
    if p.queue != [] { assert p.queue[1..] + [] == p.queue[1..]; }
  }

  lemma TickPuts(n: nat, moves: seq<Move>, c: nat, now: Instant)
    requires c < |Run(Boot(n), moves).cpus|
    ensures var s := Run(Boot(n), moves); var s' := Step(s, Tick(c, now));
      OnlyCpu(s, s', c) && s' == s.(cpus := s'.cpus) && Ticked(s.cpus[c], s'.cpus[c], c, now)
  {
    hide Run, Boot, TickOn;
    RunKeeps(n, moves);
    TickOne(Run(Boot(n), moves), c, now);
  }

  /** A yield asks for a switch, and changes nothing else. */
  lemma YieldPuts(s: State, c: nat)
    requires c < |s.cpus|
    ensures var s' := Step(s, Yield(c)); var p := s.cpus[c];
      && OnlyCpu(s, s', c) && s' == s.(cpus := s'.cpus)
      && s'.cpus[c] == if p.current.None? then p
                       else p.(current := Some(p.current.value.(running := NeedResched)))
  {
  }

  ghost function TicksAt(c: nat, nows: seq<Instant>): seq<Move> {
    if nows == [] then [] else TicksAt(c, nows[..|nows| - 1]) + [Tick(c, nows[|nows| - 1])]
  }

  /** The time a series of ticks charges to a task switched to at `start`. */
  function Charge(start: Instant, nows: seq<Instant>): nat {
    if nows == [] then 0 else Charge(start, nows[..|nows| - 1]) + Elapsed(start, nows[|nows| - 1])
  }

  /** None of the ticks finds the slice used up while somebody waits. */
  ghost predicate WithinSlice(p: Cpu, start: Instant, nows: seq<Instant>) {
    p.queue == [] || forall i :: 0 <= i < |nows| ==> Elapsed(start, nows[i]) <= SLICE
  }

  /**
   Running time is charged from the same start by every tick: a task that keeps its CPU through a series of
   ticks is charged the sum of all the times since it was switched to.
   */
  lemma {:induction false} TicksCharge(s: State, c: nat, start: Instant, nows: seq<Instant>)
    requires Inv(s) && c < |s.cpus| && RunsSince(s.cpus[c], start) && WithinSlice(s.cpus[c], start, nows)
    ensures var e := Run(s, TicksAt(c, nows)); var cur := s.cpus[c].current.value;
      && Inv(e) && OnlyCpu(s, e, c) && e.cpus[c].queue == s.cpus[c].queue
      && e.cpus[c].current == Some(cur.(runtime := cur.runtime + Charge(start, nows)))
    decreases |nows|
  {
    hide Inv, TickOn;
    var moves := TicksAt(c, nows);
    if nows == [] {
    } else {
      var k := |nows| - 1;
      assert moves[..|moves| - 1] == TicksAt(c, nows[..k]) && moves[|moves| - 1] == Tick(c, nows[k]);
      TicksCharge(s, c, start, nows[..k]);
      var m := Run(s, TicksAt(c, nows[..k]));
      TickKeeps(m, c, nows[k]);
      TickOne(m, c, nows[k]);
      hide Run;
    }
  }

  /** That is the time it has been running exactly when no tick but the last came after its start. */
  lemma {:induction false} ChargeExactIff(start: Instant, nows: seq<Instant>)
    requires nows != []
    ensures Charge(start, nows) == Elapsed(start, nows[|nows| - 1])
      <==> forall i :: 0 <= i < |nows| - 1 ==> nows[i] <= start
  {
    var before := nows[..|nows| - 1];
    ChargeZeroIff(start, before);
    assert forall i :: 0 <= i < |before| ==> before[i] == nows[i];
  }

  lemma {:induction false} ChargeZeroIff(start: Instant, nows: seq<Instant>)
    ensures Charge(start, nows) == 0 <==> forall i :: 0 <= i < |nows| ==> nows[i] <= start
  {
    if nows == [] {
    } else {
      var k := |nows| - 1;
      ChargeZeroIff(start, nows[..k]);
      assert forall i :: 0 <= i < k ==> nows[..k][i] == nows[i];
    }
  }

  /** Switched to at 1 and ticked at 11 and 21: 30 nanoseconds are charged for 20. */
  lemma ChargedTwice()
    ensures Charge(1, [11, 21]) == 30 && Elapsed(1, 21) == 20
  {
    assert [11, 21][..1] == [11] && [11][..0] == [];
  }
}
