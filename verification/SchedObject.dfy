/** One CPU's scheduler as the object it is: every operation keeps it in order and loses no task. */
module SchedObject {
  import opened Types
  import opened SchedCpu
  import opened Scheduling
  import opened SchedMoves

  class Scheduler {
    const cpu: nat
    var current: Option<Task>
    var queue: seq<Task>
    var load: int
    var migration: seq<Task>

    ghost function Abs(): Cpu
      reads this
    {
      Cpu(current, queue, load, migration)
    }

    ghost predicate Valid()
      reads this
    {
      CpuOk(Abs(), cpu)
    }

    /** A CPU starts with its idle task queued and charged. */
    constructor (c: nat)
      ensures Valid() && cpu == c && Abs() == BootCpu(c)
    {
      cpu, current, migration := c, None, [];
      queue, load := [Task(c, {c}, c, 0, SLICE, NotRunning)], SLICE / 1000;
      new;
      assert Waiting(queue[0], c);
    }

    /** Switches to `next` or the front of the queue and hands back what was running. */
    method ScheduleImpl(now: Instant, next: Option<Task>) returns (ok: bool, prev: Option<Task>)
      modifies this`current, this`queue
      ensures ok == Next(old(Abs()), next).Some?
      ensures !ok ==> Abs() == old(Abs()) && prev == None
      ensures ok ==> Abs() == Switch(old(Abs()), cpu, now, next) && prev == old(current)
    {
      ok, prev := true, None;
      var chosen := next;
      if next.None? {
        if queue == [] { return false, None; }
        chosen := Some(queue[0]);
        queue := queue[1..];
      }
      prev := current;
      current := Some(chosen.value.(running := Running(now), cpu := cpu));
    }

    /**
     Takes a readied task over: it alone is gained and charged for, at most one task joins the back
     of the queue, and the running one is displaced only by a task that has run over a millisecond less.
     */
    method EnqueueTask(now: Instant, t: Task, preempt: bool)
      requires Valid() && Waiting(t, cpu)
      modifies this`current, this`queue, this`load
      ensures Valid() && Gained(old(Abs()), Abs(), t.id) && load == old(load) + SLICE_US
      ensures Joined(old(queue), queue) && Earned(old(Abs()), Abs())
      ensures Taken(old(Abs()), Abs(), cpu, now, t, preempt)
    {
      EnqueueTakes(Abs(), cpu, now, t, preempt);
      EnqueueOk(Abs(), cpu, now, t, preempt);
      EnqueueFifo(Abs(), cpu, now, t, preempt);
      load := load + t.slice / 1000;
      if current.Some? && preempt && ShouldPreempt(current.value, t) {
        var ok, prev := ScheduleImpl(now, Some(t));
        queue := queue + [prev.value.(running := NotRunning)];
      } else {
        queue := queue + [t];
      }
    }

    /**
     What blocking, suspending, exiting and being killed share. A task that is not the CPU's idle one
     always finds a successor, the front of the queue, and only that task is lost; without a successor
     the load has been lowered all the same.
     */
    method LeaveCurrent(now: Instant) returns (gone: Option<Task>)
      requires Valid() && current.Some?
      modifies this`current, this`queue, this`load
      ensures old(current).value.id != cpu ==> gone.Some? && Valid() && Gained(Abs(), old(Abs()), gone.value.id)
      ensures gone.Some? ==> gone == old(current) && FrontRuns(old(Abs()), Abs(), cpu, now, [])
      ensures gone.None? ==> old(queue) == [] && current == old(current) && queue == []
      ensures load == old(load) - SLICE_US
    {
      if current.value.id != cpu { LeaveOk(Abs(), cpu, now); }
      load := load - current.value.slice / 1000;
      var ok, prev := ScheduleImpl(now, None);
      gone := prev;
    }

    /** Accounts for the time since the current task was switched to; `true` asks for a switch. */
    method UpdateCurrent(now: Instant) returns (resched: bool)
      requires Valid()
      modifies this`current
      ensures Valid() && SameTasks(old(Abs()), Abs()) && Update(old(Abs()), now) == Some((Abs(), resched))
      ensures current.Some? == old(current.Some?) && (current.None? ==> resched == (queue != []))
      ensures current.Some? && old(current).value.running.Running? ==>
        current.value.runtime == old(current).value.runtime + Elapsed(old(current).value.running.start, now)
      ensures current.Some? && resched ==> current.value.running.NeedResched?
    {
      UpdateOk(Abs(), cpu, now);
      var sole := queue == [];
      if current.None? { return !sole; }
      var cur := current.value;
      match cur.running {
        case NeedResched => return true;
        case Running(start) =>
          var delta := if now < start then 0 else now - start;
          cur := cur.(runtime := cur.runtime + delta);
          resched := cur.slice < delta && !sole;
          if resched { cur := cur.(running := NeedResched); }
          current := Some(cur);
      }
    }

    /**
     A tick keeps every task, charges the running one, and gives the CPU to the front of the queue exactly
     when the slice is used up, a switch was asked for, or nothing runs, and somebody waits.
     */
    method Tick(now: Instant)
      requires Valid()
      modifies this`current, this`queue
      ensures Valid() && SameTasks(old(Abs()), Abs()) && Ticked(old(Abs()), Abs(), cpu, now)
    {
      var resched := UpdateCurrent(now);
      ghost var updated := Abs();
      ScheduleOk(updated, cpu, now);
      if resched {
        var ok, prev := ScheduleImpl(now, None);
        if ok && prev.Some? {
          queue := queue + [prev.value.(running := NotRunning)];
        }
        assert Abs() == Schedule(updated, cpu, now);
      }
    }

    /** Takes over the oldest task sent to this CPU, if there is one. */
    method MigrateOne(now: Instant) returns (some: bool)
      requires Valid()
      modifies this
      ensures Valid() && SameTasks(old(Abs()), Abs()) && some == (old(migration) != [])
      ensures migration == if some then old(migration)[1..] else []
      ensures Joined(old(queue), queue) && Earned(old(Abs()), Abs())
      ensures if some then Taken(old(Abs()).(migration := migration), Abs(), cpu, now, old(migration)[0], true)
              else Abs() == old(Abs())
    {
      if migration == [] { return false; }
      var t := migration[0];
      assert Waiting(t, cpu);
      migration := migration[1..];
      EnqueueTask(now, t, true);
      some := true;
    }
  }
}
