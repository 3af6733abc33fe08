/**
 Any number of CPUs sharing tasks: every operation is one atomic step of one CPU, and every
 interleaving is a run. Only the task a CPU idles with is barred from blocking and exiting.
 */
module Scheduling {
  import opened Types
  import opened SchedCpu

  /** Who keeps a task that no CPU has: its creator, a timer's callback, or a suspend slot. */
  datatype Holder = Creator | Timer | Slot

  datatype State = State(
    cpus: seq<Cpu>,
    held: map<nat, (Task, Holder)>,
    exited: set<nat>,
    known: set<nat>,
    fault: bool)

  datatype Move =
    | Create(id: nat, affinity: set<nat>)
    | Unblock(id: nat, at: nat, target: nat, preempt: bool, now: Instant)
    | Migrate(at: nat, now: Instant)
    | Block(at: nat, now: Instant)
    | Suspend(at: nat, now: Instant)
    | Exit(at: nat, now: Instant)
    | Tick(at: nat, now: Instant)
    | Yield(at: nat)

  /** CPU `c` right after its idle task, numbered `c`, was unblocked onto it. */
  function BootCpu(c: nat): Cpu {
    Cpu(None, [Task(c, {c}, c, 0, SLICE, NotRunning)], SLICE_US, [])
  }

  function Below(n: nat): set<nat> {
    if n == 0 then {} else Below(n - 1) + {n - 1}
  }

  function Boot(n: nat): State {
    State(seq(n, c requires 0 <= c < n => BootCpu(c)), map[], {}, Below(n), false)
  }

  predicate Affine(affinity: set<nat>, n: nat) {
    affinity != {} && forall c :: c in affinity ==> c < n
  }

  function OnCpu(s: State, c: nat, p: Cpu): State
    requires c < |s.cpus|
  {
    s.(cpus := s.cpus[c := p])
  }

  /** The CPU's task moves to `holder`; finding no successor is a fault. */
  function Hold(s: State, c: nat, now: Instant, holder: Holder): State
    requires c < |s.cpus|
  {
    var p := s.cpus[c];
    if p.current.None? || p.current.value.id == c then s
    else match Leave(p, c, now)
      case None => OnCpu(s, c, Unloaded(p)).(fault := true)
      case Some(q) => OnCpu(s, c, q).(held := s.held[p.current.value.id := (p.current.value, holder)])
  }

  function Finish(s: State, c: nat, now: Instant): State
    requires c < |s.cpus|
  {
    var p := s.cpus[c];
    if p.current.None? || p.current.value.id == c then s
    else match Leave(p, c, now)
      case None => OnCpu(s, c, Unloaded(p)).(fault := true)
      case Some(q) => OnCpu(s, c, q).(exited := s.exited + {p.current.value.id})
  }

  function TickOn(s: State, c: nat, now: Instant): State
    requires c < |s.cpus|
  {
    match Update(s.cpus[c], now)
    case None => s.(fault := true)
    case Some((p, resched)) =>
      if !resched then OnCpu(s, c, p)
      else if p.current.Some? && p.queue != [] && !p.current.value.running.NeedResched? then s.(fault := true)
      else OnCpu(s, c, Schedule(p, c, now))
  }

  function UnblockTo(s: State, id: nat, c: nat, target: nat, preempt: bool, now: Instant): State
    requires id in s.held && c < |s.cpus| && target < |s.cpus|
  {
    var t := IntoReady(s.held[id].0, target);
    var p := s.cpus[target];
    var q := if target == c then Enqueue(p, c, now, t, preempt) else p.(migration := p.migration + [t]);
    OnCpu(s, target, q).(held := s.held - {id})
  }

  function MigrateOn(s: State, c: nat, now: Instant): State
    requires c < |s.cpus|
  {
    var p := s.cpus[c];
    if p.migration == [] then s
    else OnCpu(s, c, Enqueue(p.(migration := p.migration[1..]), c, now, p.migration[0], true))
  }

  function YieldOn(s: State, c: nat): State
    requires c < |s.cpus|
  {
    var p := s.cpus[c];
    if p.current.None? then s else OnCpu(s, c, p.(current := Some(p.current.value.(running := NeedResched))))
  }

  /** One atomic step; a move that its caller could not make changes nothing. */
  function Step(s: State, m: Move): State {
    match m
    case Create(id, affinity) =>
      if id in s.known || !Affine(affinity, |s.cpus|) then s
      else s.(known := s.known + {id}, held := s.held[id := (Task(id, affinity, 0, 0, 0, NotRunning), Creator)])
    case Unblock(id, at, target, preempt, now) =>
      if id in s.held && at < |s.cpus| && target < |s.cpus| && target in s.held[id].0.affinity
      then UnblockTo(s, id, at, target, preempt, now) else s
    case Migrate(at, now) => if at < |s.cpus| then MigrateOn(s, at, now) else s
    case Block(at, now) => if at < |s.cpus| then Hold(s, at, now, Timer) else s
    case Suspend(at, now) => if at < |s.cpus| then Hold(s, at, now, Slot) else s
    case Exit(at, now) => if at < |s.cpus| then Finish(s, at, now) else s
    case Tick(at, now) => if at < |s.cpus| then TickOn(s, at, now) else s
    case Yield(at) => if at < |s.cpus| then YieldOn(s, at) else s
  }

  function Run(s: State, moves: seq<Move>): State
    decreases |moves|
  {
    if moves == [] then s else Step(Run(s, moves[..|moves| - 1]), moves[|moves| - 1])
  }

  // ----- where tasks are -----

  /** How often task `id` is in `ts`. */
  ghost function Count(ts: seq<Task>, id: nat): nat {
    if ts == [] then 0 else One(ts[0].id == id) + Count(ts[1..], id)
  }

  ghost function Runs(p: Cpu, id: nat): nat {
    One(p.current.Some? && p.current.value.id == id)
  }

  ghost function OnOne(p: Cpu, id: nat): nat {
    Runs(p, id) + Count(p.queue, id) + Count(p.migration, id)
  }

  ghost function OnAny(cpus: seq<Cpu>, id: nat): nat {
    if cpus == [] then 0 else OnOne(cpus[0], id) + OnAny(cpus[1..], id)
  }

  ghost function OffCpu(s: State, id: nat): nat {
    One(id in s.held) + One(id in s.exited)
  }

  /** How often task `id` is found, looking everywhere. */
  ghost function Census(s: State, id: nat): nat {
    OnAny(s.cpus, id) + OffCpu(s, id)
  }

  lemma {:induction false} CountPush(a: seq<Task>, t: Task, id: nat)
    ensures Count(a + [t], id) == Count(a, id) + One(t.id == id)
  {
    if a == [] {
      assert a + [t] == [t];
    } else {
      CountPush(a[1..], t, id);
      assert (a + [t])[1..] == a[1..] + [t];
    }
  }

  lemma {:induction false} OnAnyUpdate(cpus: seq<Cpu>, c: nat, p: Cpu, id: nat)
    requires c < |cpus|
    ensures OnAny(cpus[c := p], id) + OnOne(cpus[c], id) == OnAny(cpus, id) + OnOne(p, id)
  {
    if c == 0 {
      assert cpus[0 := p][1..] == cpus[1..];
    } else {
      OnAnyUpdate(cpus[1..], c - 1, p, id);
      assert cpus[c := p][1..] == cpus[1..][c - 1 := p];
    }
  }

  lemma {:induction false} OneBelowAny(cpus: seq<Cpu>, c: nat, id: nat)
    requires c < |cpus|
    ensures OnOne(cpus[c], id) <= OnAny(cpus, id)
  {
    if c == 0 {
    } else {
      OneBelowAny(cpus[1..], c - 1, id);
    }
  }

  // ----- the invariant -----

  ghost predicate Waiting(t: Task, c: nat) {
    t.running.NotRunning? && t.slice == SLICE && c in t.affinity
  }

  ghost predicate AllWaiting(ts: seq<Task>, c: nat) {
    forall i :: 0 <= i < |ts| ==> Waiting(ts[i], c)
  }

  ghost predicate Current(t: Task, c: nat) {
    !t.running.NotRunning? && t.slice == SLICE && c in t.affinity
  }

  /** Tasks that CPU `p` is charged for. */
  function Charged(p: Cpu): nat {
    |p.queue| + One(p.current.Some?)
  }

  ghost predicate CpuOk(p: Cpu, c: nat) {
    && (p.current.Some? ==> Current(p.current.value, c)) && AllWaiting(p.queue, c) && AllWaiting(p.migration, c)
    && p.load == SLICE_US * Charged(p)
    && Runs(p, c) + Count(p.queue, c) > 0
  }

  ghost predicate AllOk(cpus: seq<Cpu>) {
    forall c :: 0 <= c < |cpus| ==> CpuOk(cpus[c], c)
  }

  ghost predicate HasHome(affinity: set<nat>, n: nat) {
    exists c :: c in affinity && c < n
  }

  /** A task that no CPU has still has a CPU to go to, so unblocking it cannot panic. */
  ghost predicate HeldOk(s: State) {
    forall id :: id in s.held ==> s.held[id].0.id == id && HasHome(s.held[id].0.affinity, |s.cpus|)
  }

  ghost predicate Placed(s: State) {
    forall id: nat :: Census(s, id) == One(id in s.known)
  }

  ghost predicate Inv(s: State) {
    AllOk(s.cpus) && HeldOk(s) && !s.fault && Placed(s)
  }

  // ----- steps on one CPU -----

  /** `q` holds the tasks of `p` and `t`. */
  ghost predicate Gained(p: Cpu, q: Cpu, t: nat) {
    forall id: nat :: OnOne(q, id) == OnOne(p, id) + One(id == t)
  }

  ghost predicate SameTasks(p: Cpu, q: Cpu) {
    forall id: nat :: OnOne(q, id) == OnOne(p, id)
  }

  lemma RequeuedOk(p: Cpu, c: nat, t: Task)
    requires AllWaiting(p.queue, c) && t.slice == SLICE && c in t.affinity
    ensures AllWaiting(Requeued(p, t).queue, c)
    ensures forall id: nat :: Count(Requeued(p, t).queue, id) == Count(p.queue, id) + One(id == t.id)
  {
    forall id: nat
      ensures Count(Requeued(p, t).queue, id) == Count(p.queue, id) + One(id == t.id)
    {
      CountPush(p.queue, t.(running := NotRunning), id);
    }
  }

  lemma PreemptOk(p: Cpu, c: nat, now: Instant, t: Task)
    requires CpuOk(p, c) && Waiting(t, c) && Preempts(p, t, true)
    ensures CpuOk(Enqueue(p, c, now, t, true), c) && Gained(p, Enqueue(p, c, now, t, true), t.id)
  {
    hide Count;
    var q := Switch(p.(load := p.load + t.slice / 1000), c, now, Some(t));
    RequeuedOk(q, c, p.current.value);
  }

  lemma EnqueueOk(p: Cpu, c: nat, now: Instant, t: Task, preempt: bool)
    requires CpuOk(p, c) && Waiting(t, c)
    ensures CpuOk(Enqueue(p, c, now, t, preempt), c) && Gained(p, Enqueue(p, c, now, t, preempt), t.id)
  {
    hide Count;
    if Preempts(p, t, preempt) {
      PreemptOk(p, c, now, t);
    } else {
      RequeuedOk(p, c, t);
      assert t.(running := NotRunning) == t;
    }
  }

  lemma SwitchOk(p: Cpu, c: nat, now: Instant)
    requires AllWaiting(p.queue, c) && p.queue != []
    ensures var q := Switch(p, c, now, None);
      && q.current.Some? && Current(q.current.value, c) && AllWaiting(q.queue, c)
      && forall id: nat :: Runs(q, id) + Count(q.queue, id) == Count(p.queue, id)
  {
    assert Waiting(p.queue[0], c);
  }

  /** The idle task is still around, so a task that is not idle always finds a successor. */
  lemma LeaveOk(p: Cpu, c: nat, now: Instant)
    requires CpuOk(p, c) && p.current.Some? && p.current.value.id != c
    ensures Leave(p, c, now).Some?
    ensures CpuOk(Leave(p, c, now).value, c) && Gained(Leave(p, c, now).value, p, p.current.value.id)
  {
    assert p.queue != [];
    SwitchOk(Unloaded(p), c, now);
  }

  lemma ScheduleOk(p: Cpu, c: nat, now: Instant)
    requires CpuOk(p, c)
    ensures CpuOk(Schedule(p, c, now), c) && SameTasks(p, Schedule(p, c, now))
  {
    hide Count;
    if p.queue != [] {
      SwitchOk(p, c, now);
      if p.current.Some? {
        RequeuedOk(Switch(p, c, now, None), c, p.current.value);
      }
    }
  }

  lemma UpdateOk(p: Cpu, c: nat, now: Instant)
    requires CpuOk(p, c)
    ensures Update(p, now).Some?
    ensures CpuOk(Update(p, now).value.0, c) && SameTasks(p, Update(p, now).value.0)
    ensures var (q, resched) := Update(p, now).value;
      resched && q.current.Some? ==> q.current.value.running.NeedResched?
  {
    hide Count;
  }

  // ----- steps of the whole machine -----

  /** A step that changes one CPU and moves tasks between it and the holders keeps the invariant. */
  lemma CpuStep(s: State, c: nat, q: Cpu, s': State)
    requires Inv(s) && c < |s.cpus| && CpuOk(q, c)
    requires s' == OnCpu(s, c, q).(held := s'.held, exited := s'.exited) && HeldOk(s')
    requires forall id: nat :: OnOne(q, id) + OffCpu(s', id) == OnOne(s.cpus[c], id) + OffCpu(s, id)
    ensures Inv(s')
  {
    hide CpuOk, OnOne, OffCpu;
    forall id: nat
      ensures Census(s', id) == Census(s, id)
    {
      OnAnyUpdate(s.cpus, c, q, id);
    }
  }

  /** A task on a CPU is with no holder and has not exited. */
  lemma OnlyOnCpu(s: State, c: nat)
    requires Inv(s) && c < |s.cpus| && s.cpus[c].current.Some?
    ensures OffCpu(s, s.cpus[c].current.value.id) == 0
  {
    var id := s.cpus[c].current.value.id;
    OneBelowAny(s.cpus, c, id);
    assert Census(s, id) <= 1;
  }

  lemma HoldKeeps(s: State, c: nat, now: Instant, holder: Holder)
    requires Inv(s) && c < |s.cpus|
    ensures Inv(Hold(s, c, now, holder))
  {
    hide CpuOk, Leave, Census;
    var p := s.cpus[c];
    if p.current.Some? && p.current.value.id != c {
      LeaveOk(p, c, now);
      OnlyOnCpu(s, c);
      assert HasHome(p.current.value.affinity, |s.cpus|) by { HomeOf(p, c, |s.cpus|); }
      CpuStep(s, c, Leave(p, c, now).value, Hold(s, c, now, holder));
    }
  }

  lemma HomeOf(p: Cpu, c: nat, n: nat)
    requires CpuOk(p, c) && c < n && p.current.Some?
    ensures HasHome(p.current.value.affinity, n)
  {
  }

  lemma FinishKeeps(s: State, c: nat, now: Instant)
    requires Inv(s) && c < |s.cpus|
    ensures Inv(Finish(s, c, now))
  {
    hide CpuOk, Leave, Census;
    var p := s.cpus[c];
    if p.current.Some? && p.current.value.id != c {
      LeaveOk(p, c, now);
      OnlyOnCpu(s, c);
      CpuStep(s, c, Leave(p, c, now).value, Finish(s, c, now));
    }
  }

  lemma TickKeeps(s: State, c: nat, now: Instant)
    requires Inv(s) && c < |s.cpus|
    ensures Inv(TickOn(s, c, now))
  {
    hide CpuOk, Census, Update, Schedule, OnOne;
    UpdateOk(s.cpus[c], c, now);
    var (p, resched) := Update(s.cpus[c], now).value;
    ScheduleOk(p, c, now);
    CpuStep(s, c, if resched then Schedule(p, c, now) else p, TickOn(s, c, now));
  }

  lemma UnblockKeeps(s: State, id: nat, c: nat, target: nat, preempt: bool, now: Instant)
    requires Inv(s) && id in s.held && c < |s.cpus| && target < |s.cpus| && target in s.held[id].0.affinity
    ensures Inv(UnblockTo(s, id, c, target, preempt, now))
  {
    hide Census, Enqueue, Count, Placed;
    var t := IntoReady(s.held[id].0, target);
    var p := s.cpus[target];
    EnqueueOk(p, target, now, t, preempt);
    forall x: nat
      ensures Count(p.migration + [t], x) == Count(p.migration, x) + One(x == id)
    {
      CountPush(p.migration, t, x);
    }
    var s' := UnblockTo(s, id, c, target, preempt, now);
    CpuStep(s, target, s'.cpus[target], s');
  }

  lemma MigrateKeeps(s: State, c: nat, now: Instant)
    requires Inv(s) && c < |s.cpus|
    ensures Inv(MigrateOn(s, c, now))
  {
    hide Census, Enqueue;
    var p := s.cpus[c];
    if p.migration != [] {
      EnqueueOk(p.(migration := p.migration[1..]), c, now, p.migration[0], true);
      CpuStep(s, c, MigrateOn(s, c, now).cpus[c], MigrateOn(s, c, now));
    }
  }

  lemma YieldKeeps(s: State, c: nat)
    requires Inv(s) && c < |s.cpus|
    ensures Inv(YieldOn(s, c))
  {
    hide Census, Count;
    if s.cpus[c].current.Some? {
      CpuStep(s, c, YieldOn(s, c).cpus[c], YieldOn(s, c));
    }
  }

  lemma CreateKeeps(s: State, id: nat, affinity: set<nat>)
    requires Inv(s) && id !in s.known && Affine(affinity, |s.cpus|)
    ensures Inv(Step(s, Create(id, affinity)))
  {
    hide CpuOk, OnAny;
    assert Census(s, id) == 0;
    var c :| c in affinity;
    assert HasHome(affinity, |s.cpus|);
    var s' := Step(s, Create(id, affinity));
    forall x: nat
      ensures Census(s', x) == One(x in s'.known)
    {
      assert Census(s, x) == One(x in s.known);
    }
  }

  lemma StepKeeps(s: State, m: Move)
    requires Inv(s)
    ensures Inv(Step(s, m))
  {
    hide Inv, UnblockTo, MigrateOn, Hold, Finish, TickOn, YieldOn;
    match m {
      case Create(id, affinity) =>
        if id !in s.known && Affine(affinity, |s.cpus|) { CreateKeeps(s, id, affinity); }
      case Unblock(id, at, target, preempt, now) =>
        if id in s.held && at < |s.cpus| && target < |s.cpus| && target in s.held[id].0.affinity {
          UnblockKeeps(s, id, at, target, preempt, now);
        }
      case Migrate(at, now) => if at < |s.cpus| { MigrateKeeps(s, at, now); }
      case Block(at, now) => if at < |s.cpus| { HoldKeeps(s, at, now, Timer); }
      case Suspend(at, now) => if at < |s.cpus| { HoldKeeps(s, at, now, Slot); }
      case Exit(at, now) => if at < |s.cpus| { FinishKeeps(s, at, now); }
      case Tick(at, now) => if at < |s.cpus| { TickKeeps(s, at, now); }
      case Yield(at) => if at < |s.cpus| { YieldKeeps(s, at); }
    }
  }

  lemma {:induction false} BootCount(cpus: seq<Cpu>, first: nat, id: nat)
    requires forall c :: 0 <= c < |cpus| ==> cpus[c] == BootCpu(first + c)
    ensures OnAny(cpus, id) == One(first <= id < first + |cpus|)
  {
    if cpus == [] {
    } else {
      BootCount(cpus[1..], first + 1, id);
      assert Count(cpus[0].queue[1..], id) == 0;
    }
  }

  lemma {:induction false} BelowIs(n: nat, id: nat)
    ensures id in Below(n) <==> id < n
  {
    if n == 0 {
    } else {
      BelowIs(n - 1, id);
    }
  }

  lemma BootOk(n: nat)
    ensures Inv(Boot(n))
  {
    var s := Boot(n);
    forall id: nat
      ensures Census(s, id) == One(id in s.known)
    {
      BootCount(s.cpus, 0, id);
      BelowIs(n, id);
    }
    forall c: nat | c < n
      ensures CpuOk(s.cpus[c], c)
    {
      assert Waiting(BootCpu(c).queue[0], c);
    }
  }

  lemma {:induction false} RunKeeps(n: nat, moves: seq<Move>)
    ensures Inv(Run(Boot(n), moves))
    decreases |moves|
  {
    hide Inv, Step;
    if moves == [] {
      BootOk(n);
    } else {
      RunKeeps(n, moves[..|moves| - 1]);
      StepKeeps(Run(Boot(n), moves[..|moves| - 1]), moves[|moves| - 1]);
    }
  }

  // ----- what every run guarantees -----

  datatype Place = CurrentOf(cpu: nat) | Queued(cpu: nat, i: nat) | Migrating(cpu: nat, i: nat) | WithHolder | Gone

  ghost predicate At(s: State, id: nat, x: Place) {
    match x
    case CurrentOf(c) => c < |s.cpus| && s.cpus[c].current.Some? && s.cpus[c].current.value.id == id
    case Queued(c, i) => c < |s.cpus| && i < |s.cpus[c].queue| && s.cpus[c].queue[i].id == id
    case Migrating(c, i) => c < |s.cpus| && i < |s.cpus[c].migration| && s.cpus[c].migration[i].id == id
    case WithHolder => id in s.held
    case Gone => id in s.exited
  }

  lemma {:induction false} CountAt(ts: seq<Task>, id: nat, i: nat)
    requires i < |ts| && ts[i].id == id
    ensures Count(ts, id) > 0
  {
    if i == 0 {
    } else {
      CountAt(ts[1..], id, i - 1);
    }
  }

  lemma {:induction false} CountTwice(ts: seq<Task>, id: nat, i: nat, j: nat)
    requires i < j < |ts| && ts[i].id == ts[j].id == id
    ensures Count(ts, id) > 1
  {
    if i == 0 { CountAt(ts[1..], id, j - 1); } else { CountTwice(ts[1..], id, i - 1, j - 1); }
  }

  lemma {:induction false} FindCounted(ts: seq<Task>, id: nat) returns (i: nat)
    requires Count(ts, id) > 0
    ensures i < |ts| && ts[i].id == id
  {
    if ts[0].id == id {
      i := 0;
    } else {
      i := FindCounted(ts[1..], id);
      i := i + 1;
    }
  }

  lemma {:induction false} TwoCpus(cpus: seq<Cpu>, id: nat, c: nat, d: nat)
    requires c < d < |cpus|
    ensures OnOne(cpus[c], id) + OnOne(cpus[d], id) <= OnAny(cpus, id)
  {
    if c == 0 { OneBelowAny(cpus[1..], d - 1, id); } else { TwoCpus(cpus[1..], id, c - 1, d - 1); }
  }

  lemma {:induction false} FindCpu(cpus: seq<Cpu>, id: nat) returns (c: nat)
    requires OnAny(cpus, id) > 0
    ensures c < |cpus| && OnOne(cpus[c], id) > 0
  {
    if OnOne(cpus[0], id) > 0 {
      c := 0;
    } else {
      c := FindCpu(cpus[1..], id);
      c := c + 1;
    }
  }

  /** A place on a CPU accounts for one of that CPU's occurrences. */
  lemma Accounted(s: State, id: nat, x: Place)
    requires At(s, id, x) && !x.WithHolder? && !x.Gone?
    ensures OnOne(s.cpus[x.cpu], id) > 0
    ensures x.Queued? ==> Count(s.cpus[x.cpu].queue, id) > 0
    ensures x.Migrating? ==> Count(s.cpus[x.cpu].migration, id) > 0
  {
    match x {
      case CurrentOf(c) =>
      case Queued(c, i) => CountAt(s.cpus[c].queue, id, i);
      case Migrating(c, i) => CountAt(s.cpus[c].migration, id, i);
    }
  }

  lemma SomePlace(s: State, id: nat) returns (x: Place)
    requires Census(s, id) > 0
    ensures At(s, id, x)
  {
    if id in s.held { return WithHolder; }
    if id in s.exited { return Gone; }
    var c := FindCpu(s.cpus, id);
    var p := s.cpus[c];
    if Count(p.queue, id) > 0 {
      var i := FindCounted(p.queue, id);
      return Queued(c, i);
    }
    if Count(p.migration, id) > 0 {
      var i := FindCounted(p.migration, id);
      return Migrating(c, i);
    }
    return CurrentOf(c);
  }

  lemma SameCpuPlace(s: State, id: nat, x: Place, y: Place)
    requires At(s, id, x) && At(s, id, y) && !x.WithHolder? && !x.Gone? && !y.WithHolder? && !y.Gone?
    requires x.cpu == y.cpu && OnOne(s.cpus[x.cpu], id) <= 1
    ensures x == y
  {
    Accounted(s, id, x);
    Accounted(s, id, y);
    if x.Queued? && y.Queued? && x.i != y.i {
      CountTwice(s.cpus[x.cpu].queue, id, if x.i < y.i then x.i else y.i, if x.i < y.i then y.i else x.i);
    }
    if x.Migrating? && y.Migrating? && x.i != y.i {
      CountTwice(s.cpus[x.cpu].migration, id, if x.i < y.i then x.i else y.i, if x.i < y.i then y.i else x.i);
    }
  }

  lemma OnlyPlace(s: State, id: nat, x: Place, y: Place)
    requires Census(s, id) <= 1 && At(s, id, x) && At(s, id, y)
    ensures x == y
  {
    hide Count, OnOne, OnAny;
    if !x.WithHolder? && !x.Gone? {
      Accounted(s, id, x);
      OneBelowAny(s.cpus, x.cpu, id);
    }
    if !y.WithHolder? && !y.Gone? {
      Accounted(s, id, y);
      OneBelowAny(s.cpus, y.cpu, id);
    }
    if !x.WithHolder? && !x.Gone? && !y.WithHolder? && !y.Gone? {
      if x.cpu < y.cpu { TwoCpus(s.cpus, id, x.cpu, y.cpu); }
      if y.cpu < x.cpu { TwoCpus(s.cpus, id, y.cpu, x.cpu); }
      SameCpuPlace(s, id, x, y);
    }
  }

  /** Over every run every task, idle tasks included, is in exactly one place. */
  lemma ExactlyOnePlace(n: nat, moves: seq<Move>, id: nat)
    requires id in Run(Boot(n), moves).known
    ensures var s := Run(Boot(n), moves);
      exists x :: At(s, id, x) && forall y :: At(s, id, y) ==> y == x
  {
    hide Run, Boot;
    RunKeeps(n, moves);
    var s := Run(Boot(n), moves);
    assert Census(s, id) == 1;
    var x := SomePlace(s, id);
    forall y | At(s, id, y)
      ensures y == x
    {
      OnlyPlace(s, id, y, x);
    }
  }

  /** The load is one slice for each queued or running task; queued tasks are not running, the current one is. */
  lemma LoadIsCharge(n: nat, moves: seq<Move>, c: nat)
    requires c < |Run(Boot(n), moves).cpus|
    ensures var p := Run(Boot(n), moves).cpus[c];
      && p.load == SLICE_US * Charged(p)
      && (forall i :: 0 <= i < |p.queue| ==> p.queue[i].running.NotRunning? && c in p.queue[i].affinity)
      && (p.current.Some? ==> !p.current.value.running.NotRunning? && c in p.current.value.affinity)
  {
    hide Run, Boot;
    RunKeeps(n, moves);
    var p := Run(Boot(n), moves).cpus[c];
    assert CpuOk(p, c);
    forall i | 0 <= i < |p.queue|
      ensures p.queue[i].running.NotRunning? && c in p.queue[i].affinity
    {
      assert Waiting(p.queue[i], c);
    }
  }

  /**
   No block, suspend, exit or kill of a non-idle task finds an empty run queue, and no tick meets
   a current task that is not running or a task switched out without being due.
   */
  lemma AlwaysASuccessor(n: nat, moves: seq<Move>, c: nat, now: Instant)
    requires c < |Run(Boot(n), moves).cpus|
    ensures !Run(Boot(n), moves).fault
    ensures var p := Run(Boot(n), moves).cpus[c];
      && Update(p, now).Some?
      && (p.current.Some? && p.current.value.id != c ==> p.queue != [])
  {
    hide Run, Boot;
    RunKeeps(n, moves);
    var p := Run(Boot(n), moves).cpus[c];
    UpdateOk(p, c, now);
    if p.current.Some? && p.current.value.id != c { LeaveOk(p, c, now); }
  }

  /** Tasks never vanish, and an exited task stays exited. */
  lemma {:induction false} NothingComesBack(s: State, moves: seq<Move>)
    ensures s.known <= Run(s, moves).known && s.exited <= Run(s, moves).exited
    decreases |moves|
  {
    if moves == [] {
    } else {
      NothingComesBack(s, moves[..|moves| - 1]);
    }
  }

  /** At most one task joined the end of the queue and nothing else moved. */
  ghost predicate Joined(a: seq<Task>, b: seq<Task>) {
    b == a || exists t :: b == a + [t]
  }

  /** Queues are served first come, first served: whoever leaves the run queue was at its front and now runs. */
  ghost predicate Fifo(p: Cpu, q: Cpu) {
    && (Joined(p.queue, q.queue) || TookFront(p, q))
    && (Joined(p.migration, q.migration) || (p.migration != [] && q.migration == p.migration[1..]))
  }

  ghost predicate TookFront(p: Cpu, q: Cpu) {
    && p.queue != [] && Joined(p.queue[1..], q.queue)
    && q.current.Some? && q.current.value.id == p.queue[0].id && q.current.value.running.Running?
  }

  /** A running task loses its CPU only to the front of the queue, or to one that has run over a millisecond less. */
  ghost predicate Earned(p: Cpu, q: Cpu) {
    p.current.Some? && q.current.Some? && q.current.value.id != p.current.value.id ==>
      TookFront(p, q) || p.current.value.runtime > q.current.value.runtime + WAKE
  }

  lemma EnqueueFifo(p: Cpu, c: nat, now: Instant, t: Task, preempt: bool)
    ensures Joined(p.queue, Enqueue(p, c, now, t, preempt).queue)
    ensures Enqueue(p, c, now, t, preempt).migration == p.migration && Earned(p, Enqueue(p, c, now, t, preempt))
  {
  }

  lemma TickFifo(s: State, c: nat, now: Instant)
    requires c < |s.cpus|
    ensures Fifo(s.cpus[c], TickOn(s, c, now).cpus[c]) && Earned(s.cpus[c], TickOn(s, c, now).cpus[c])
  {
  }

  lemma LeaveFifo(s: State, c: nat, now: Instant, holder: Holder)
    requires c < |s.cpus|
    ensures var q := Hold(s, c, now, holder).cpus[c]; Fifo(s.cpus[c], q) && Earned(s.cpus[c], q)
    ensures var q := Finish(s, c, now).cpus[c]; Fifo(s.cpus[c], q) && Earned(s.cpus[c], q)
  {
  }

  /** Only the CPU that makes the step, or the one a task is sent to, changes. */
  lemma OtherCpus(s: State, m: Move, c: nat)
    requires c < |s.cpus| && !m.Create? && (if m.Unblock? then m.target != c else m.at != c)
    ensures |Step(s, m).cpus| == |s.cpus| && Step(s, m).cpus[c] == s.cpus[c]
  {
  }

  lemma QueuesAreFifo(s: State, m: Move, c: nat)
    requires c < |s.cpus|
    ensures |Step(s, m).cpus| == |s.cpus| && Fifo(s.cpus[c], Step(s, m).cpus[c])
    ensures Earned(s.cpus[c], Step(s, m).cpus[c])
  {
    if !m.Create? && (if m.Unblock? then m.target != c else m.at != c) {
      OtherCpus(s, m, c);
      return;
    }
    hide Enqueue, Leave;
    match m {
      case Create(id, affinity) =>
      case Unblock(id, at, target, preempt, now) =>
        if id in s.held { EnqueueFifo(s.cpus[c], c, now, IntoReady(s.held[id].0, target), preempt); }
      case Migrate(at, now) =>
        if s.cpus[c].migration != [] {
          var p := s.cpus[c];
          EnqueueFifo(p.(migration := p.migration[1..]), c, now, p.migration[0], true);
        }
      case Block(at, now) => LeaveFifo(s, c, now, Timer);
      case Suspend(at, now) => LeaveFifo(s, c, now, Slot);
      case Exit(at, now) => LeaveFifo(s, c, now, Slot);
      case Tick(at, now) => TickFifo(s, c, now);
      case Yield(at) =>
    }
  }

  predicate Due(t: Task, now: Instant) {
    match t.running
    case NotRunning => false
    case NeedResched => true
    case Running(start) => now - start > SLICE
  }

  /** A tick takes the CPU away exactly when the slice is used up or a switch was asked for, and somebody waits. */
  lemma TickSwitches(n: nat, moves: seq<Move>, c: nat, now: Instant)
    requires c < |Run(Boot(n), moves).cpus| && Run(Boot(n), moves).cpus[c].current.Some?
    ensures var s := Run(Boot(n), moves); var p := s.cpus[c]; var q := TickOn(s, c, now).cpus[c];
      && q.current.Some?
      && q.current.value.id == (if Due(p.current.value, now) && p.queue != [] then p.queue[0] else p.current.value).id
  {
    hide Run, Boot;
    RunKeeps(n, moves);
    assert CpuOk(Run(Boot(n), moves).cpus[c], c);
  }
}
