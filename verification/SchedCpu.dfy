/** One CPU's scheduler: what each operation does to its current task, run queue and load. */
module SchedCpu {
  import opened Types

  /** Nanoseconds: the slice every task gets, and the lead a running task must have to be preempted. */
  const SLICE: nat := 30_000_000
  const WAKE: nat := 1_000_000
  /** The slice in microseconds, the unit of the load counter. */
  const SLICE_US: nat := 30_000

  /** A clock reading. Reading 0 is excluded: the running-state union encodes it as "not running". */
  type Instant = t: int | 0 < t witness 1

  datatype Running = NotRunning | NeedResched | Running(start: Instant)

  datatype Task = Task(id: nat, affinity: set<nat>, cpu: nat, runtime: nat, slice: nat, running: Running)

  /** A CPU's scheduler together with its published load and its migration queue. */
  datatype Cpu = Cpu(current: Option<Task>, queue: seq<Task>, load: int, migration: seq<Task>)

  function IntoReady(t: Task, c: nat): Task {
    t.(cpu := c, slice := SLICE, running := NotRunning)
  }

  function Started(t: Task, c: nat, now: Instant): Task {
    t.(cpu := c, running := Running(now))
  }

  /** The task to switch to: the given one, or else the front of the run queue. */
  function Next(p: Cpu, next: Option<Task>): Option<Task> {
    if next.Some? then next else if p.queue == [] then None else Some(p.queue[0])
  }

  /** The CPU after switching to `Next(p, next)`; its previous task is in nobody's hands yet. */
  function Switch(p: Cpu, c: nat, now: Instant, next: Option<Task>): (q: Cpu)
    requires Next(p, next).Some?
  {
    p.(current := Some(Started(Next(p, next).value, c, now)), queue := if next.Some? then p.queue else p.queue[1..])
  }

  predicate ShouldPreempt(cur: Task, t: Task) {
    cur.runtime > t.runtime + WAKE
  }

  predicate Preempts(p: Cpu, t: Task, preempt: bool) {
    p.current.Some? && preempt && ShouldPreempt(p.current.value, t)
  }

  function Requeued(p: Cpu, t: Task): Cpu {
    p.(queue := p.queue + [t.(running := NotRunning)])
  }

  function Enqueue(p: Cpu, c: nat, now: Instant, t: Task, preempt: bool): Cpu {
    var q := p.(load := p.load + t.slice / 1000);
    if Preempts(p, t, preempt) then Requeued(Switch(q, c, now, Some(t)), p.current.value)
    else q.(queue := q.queue + [t])
  }

  /** The load is lowered before the queue is looked at. */
  function Unloaded(p: Cpu): Cpu
    requires p.current.Some?
  {
    p.(load := p.load - p.current.value.slice / 1000)
  }

  /** The CPU after its current task leaves it; `None` when there is no task to switch to. */
  function Leave(p: Cpu, c: nat, now: Instant): Option<Cpu>
    requires p.current.Some?
  {
    if p.queue == [] then None else Some(Switch(Unloaded(p), c, now, None))
  }

  /** Accounts for the running time; `None` is the "Not running" panic. */
  function Update(p: Cpu, now: Instant): Option<(Cpu, bool)> {
    if p.current.None? then Some((p, p.queue != []))
    else
      var cur := p.current.value;
      match cur.running
      case NotRunning => None
      case NeedResched => Some((p, true))
      case Running(start) =>
        var delta := if now < start then 0 else now - start;
        var due := cur.slice < delta && p.queue != [];
        var run := cur.(runtime := cur.runtime + delta);
        Some((p.(current := Some(if due then run.(running := NeedResched) else run)), due))
  }

  /** Puts the current task back and switches to the front of the queue, if there is one. */
  function Schedule(p: Cpu, c: nat, now: Instant): Cpu {
    if p.queue == [] then p
    else if p.current.None? then Switch(p, c, now, None)
    else Requeued(Switch(p, c, now, None), p.current.value)
  }
}
