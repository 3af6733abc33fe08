/** Notifying a wait queue, moving waiters between futexes, and the clock tick, each as its loop runs. */
module Waits {
  import opened Types
  import Timers

  type Timer = Timers.Timer

  predicate Live(timers: seq<Timer>, t: nat) {
    t < |timers| && timers[t].live
  }

  /** When a timer is due; timers without a deadline never enter the heap. */
  function Deadline(timers: seq<Timer>, t: nat): nat {
    if t < |timers| && timers[t].deadline.Some? then timers[t].deadline.value else 0
  }

  /** The live timers of a queue, first first. A queue never holds a timer twice. */
  ghost function LiveOf(timers: seq<Timer>, q: seq<nat>): seq<nat> {
    if q == [] then []
    else if Live(timers, q[0]) then [q[0]] + LiveOf(timers, q[1..])
    else LiveOf(timers, q[1..])
  }

  ghost predicate Distinct(q: seq<nat>) {
    forall i, j :: 0 <= i < j < |q| ==> q[i] != q[j]
  }

  /** Emptying the slots of `ts` changes nothing else. */
  ghost predicate Emptied(before: seq<Timer>, after: seq<Timer>, ts: seq<nat>) {
    && |after| == |before|
    && forall t :: 0 <= t < |before| ==> after[t] == if t in ts then before[t].(live := false) else before[t]
  }

  lemma {:induction false} LiveConcat(timers: seq<Timer>, a: seq<nat>, b: seq<nat>)
    ensures LiveOf(timers, a + b) == LiveOf(timers, a) + LiveOf(timers, b)
  {
    if a == [] {
      assert a + b == b;
    } else {
      LiveConcat(timers, a[1..], b);
      assert (a + b)[1..] == a[1..] + b;
    }
  }

  lemma {:induction false} LiveInQueue(timers: seq<Timer>, q: seq<nat>, t: nat)
    ensures t in LiveOf(timers, q) <==> t in q && Live(timers, t)
  {
    if q == [] {
    } else {
      LiveInQueue(timers, q[1..], t);
      assert q == [q[0]] + q[1..];
    }
  }

  /** Timers outside the queue do not matter to it. */
  lemma {:induction false} LiveSame(before: seq<Timer>, after: seq<Timer>, q: seq<nat>)
    requires |before| == |after| && forall t :: t in q && t < |before| ==> before[t] == after[t]
    ensures LiveOf(before, q) == LiveOf(after, q)
  {
    if q == [] {
    } else {
      LiveSame(before, after, q[1..]);
    }
  }

  /** The task in a live timer's slot. */
  function TaskOf(timers: seq<Timer>, t: nat): nat {
    if Live(timers, t) then timers[t].task else 0
  }

  /** The tasks in the slots of `ts`, in order. */
  ghost function Tasks(timers: seq<Timer>, ts: seq<nat>): (r: seq<nat>)
    ensures |r| == |ts| && forall i :: 0 <= i < |ts| ==> r[i] == TaskOf(timers, ts[i])
  {
    if ts == [] then [] else Tasks(timers, ts[..|ts| - 1]) + [TaskOf(timers, ts[|ts| - 1])]
  }

  /** A queue turned round `n` times, front to back. */
  function Rotate(q: seq<nat>, n: nat): seq<nat>
    requires q != []
    decreases n
  {
    if n == 0 then q else Rotate(q[1..] + [q[0]], n - 1)
  }

  lemma {:induction false} RotateOnce(q: seq<nat>, n: nat)
    requires q != []
    ensures Rotate(q, n) != [] && Rotate(q, n + 1) == Rotate(q, n)[1..] + [Rotate(q, n)[0]]
    decreases n
  {
    if n == 0 {
    } else {
      RotateOnce(q[1..] + [q[0]], n - 1);
    }
  }

  lemma {:induction false} RotateSame(q: seq<nat>, n: nat, t: nat)
    requires q != []
    ensures t in Rotate(q, n) <==> t in q
    decreases n
  {
    assert q == [q[0]] + q[1..];
    if n == 0 {
    } else {
      RotateSame(q[1..] + [q[0]], n - 1, t);
    }
  }

  /** Moving the first `n` waiters of a queue behind the others, one by one, is cutting it there. */
  lemma {:induction false} RotateBelow(q: seq<nat>, n: nat)
    requires q != [] && n <= |q|
    ensures Rotate(q, n) == q[n..] + q[..n]
  {
    if n == 0 {
      assert q[0..] + q[..0] == q;
    } else {
      RotateBelow(q, n - 1);
      RotateOnce(q, n - 1);
      assert q[n - 1..] == [q[n - 1]] + q[n..];
      assert q[..n] == q[..n - 1] + [q[n - 1]];
    }
  }

  /** Waiters keep their places when a batch moves: those there first, then the batch, in order. */
  lemma RequeueKeepsOrder(timers: seq<Timer>, a: seq<nat>, b: seq<nat>, k: nat)
    requires k <= |a|
    ensures LiveOf(timers, b + a[..k]) == LiveOf(timers, b) + LiveOf(timers, a[..k])
    ensures LiveOf(timers, a) == LiveOf(timers, a[..k]) + LiveOf(timers, a[k..])
  {
    LiveConcat(timers, b, a[..k]);
    LiveConcat(timers, a[..k], a[k..]);
    assert a == a[..k] + a[k..];
  }

  /** A timer waits at most once, in at most one queue. */
  ghost predicate QueuesOk(queues: seq<seq<nat>>) {
    && (forall q :: 0 <= q < |queues| ==> Distinct(queues[q]))
    && (forall a, b, t :: 0 <= a < b < |queues| && t in queues[a] ==> t !in queues[b])
  }

  ghost predicate Absent(queues: seq<seq<nat>>, t: nat) {
    forall a :: 0 <= a < |queues| ==> t !in queues[a]
  }

  lemma PopOk(queues: seq<seq<nat>>, q: nat)
    requires QueuesOk(queues) && q < |queues| && queues[q] != []
    ensures QueuesOk(queues[q := queues[q][1..]])
    ensures Absent(queues[q := queues[q][1..]], queues[q][0])
  {
    assert queues[q] == [queues[q][0]] + queues[q][1..];
  }

  lemma PushOk(queues: seq<seq<nat>>, q: nat, t: nat)
    requires QueuesOk(queues) && q < |queues| && Absent(queues, t)
    ensures QueuesOk(queues[q := queues[q] + [t]])
  {
  }

  class WaitSystem {
    var timers: seq<Timer>
    var queues: seq<seq<nat>>
    /** Timers the clock may still fire. */
    var heap: set<nat>
    /** Tasks made ready, oldest first. */
    var ready: seq<nat>

    ghost predicate Valid()
      reads this
    {
      && QueuesOk(queues)
      && (forall t :: t in heap ==> t < |timers| && timers[t].deadline.Some?)
    }

    /** Takes the callback and readies its task; `true` exactly when it was still there. */
    method Cancel(t: nat) returns (ok: bool)
      requires Valid()
      modifies this`timers, this`ready
      ensures Valid() && ok == Live(old(timers), t) && |timers| == |old(timers)|
      ensures Emptied(old(timers), timers, if ok then [t] else [])
      ensures ready == old(ready) + if ok then [TaskOf(old(timers), t)] else []
    {
      ok := false;
      if t < |timers| && timers[t].live {
        ready := ready + [timers[t].task];
        timers := timers[t := timers[t].(live := false)];
        ok := true;
      }
    }

    /**
     Readies the tasks of the first live waiters, as many as asked for or as there are, in queue
     order, and leaves the rest waiting; 0 asks for as many as can be counted.
     */
    method Notify(q: nat, num: nat) returns (cnt: nat)
      requires Valid() && q < |queues|
      modifies this`timers, this`ready, this`queues
      ensures Valid() && |queues| == |old(queues)| && queues == old(queues)[q := queues[q]]
      ensures cnt == Min(if num == 0 then 0xFFFF_FFFF_FFFF_FFFF else num, |LiveOf(old(timers), old(queues[q]))|)
      ensures Emptied(old(timers), timers, LiveOf(old(timers), old(queues[q]))[..cnt])
      ensures ready == old(ready) + Tasks(old(timers), LiveOf(old(timers), old(queues[q]))[..cnt])
      ensures LiveOf(timers, queues[q]) == LiveOf(old(timers), old(queues[q]))[cnt..]
      ensures |queues[q]| <= |old(queues[q])| && queues[q] == old(queues[q])[|old(queues[q])| - |queues[q]|..]
    {
      hide LiveOf, Emptied, Tasks, Live, QueuesOk;
      assert Distinct(queues[q]) by { DistinctAt(queues, q); }
      var num := Timers.Limit(num);
      cnt := 0;
      ghost var was, all, done := timers, queues[q], ready;
      ghost var popped: seq<nat> := [];
      NothingPopped(was, done);
      while cnt < num
        invariant Valid() && |queues| == |old(queues)| && queues == old(queues)[q := queues[q]]
        invariant all == popped + queues[q] && Distinct(all)
        invariant cnt <= num && Woken(was, timers, done, ready, popped, cnt)
        decreases |queues[q]|
      {
        if queues[q] == [] { break; }
        var t := queues[q][0];
        ghost var rest := queues[q][1..];
        assert all == popped + [t] + rest;
        PopOk(queues, q);
        queues := queues[q := queues[q][1..]];
        ghost var mid, soFar := timers, ready;
        var ok := Cancel(t);
        PopOne(was, mid, timers, done, soFar, ready, popped, t, rest, cnt, ok);
        popped := popped + [t];
        if ok { cnt := cnt + 1; }
      }
      LiveConcat(was, popped, queues[q]);
      RestSame(was, timers, popped, queues[q]);
      NoMoreThan(was, popped, queues[q], cnt, num);
    }

    /**
     Moves waiters, woken ones included, from the front of `q` to the back of `dst`, in order. A
     queue requeued onto itself goes round instead, and the call reports every turn.
     */
    method Requeue(q: nat, dst: nat, num: nat) returns (moved: nat)
      requires Valid() && q < |queues| && dst < |queues|
      modifies this`queues
      ensures Valid() && moved == if q == dst && old(queues[q]) != [] then num else Min(num, |old(queues[q])|)
      ensures Shifted(old(queues), queues, q, dst, moved)
    {
      hide Shifted, Rotate, QueuesOk;
      ghost var was := queues;
      var rem := num;
      NoneShifted(was, q, dst);
      while rem > 0 && queues[q] != []
        invariant Valid() && 0 <= rem <= num && |queues| == |was|
        invariant (q == dst && was[q] != []) || num - rem <= |was[q]|
        invariant Shifted(was, queues, q, dst, num - rem)
        decreases rem
      {
        var t := queues[q][0];
        ShiftOne(was, queues, q, dst, num - rem);
        PopOk(queues, q);
        queues := queues[q := queues[q][1..]];
        PushOk(queues, dst, t);
        queues := queues[dst := queues[dst] + [t]];
        rem := rem - 1;
      }
      moved := num - rem;
      AllShifted(was, queues, q, dst, moved, num);
    }

    /**
     Wakes some waiters and moves some of the others to another futex: the live waiters, in the order
     they came, split into those woken, those moved behind `dst`'s own, and those that stay; fewer are
     moved than asked for only when none is left. `left` is the queue after waking.
     */
    method WakeAndRequeue(q: nat, wake: nat, dst: nat, num: nat)
      returns (woke: nat, moved: nat, ghost left: seq<nat>, ghost k: nat)
      requires Valid() && q < |queues| && dst < |queues|
      modifies this`timers, this`ready, this`queues
      ensures Valid() && |queues| == |old(queues)|
      ensures moved <= num
      ensures woke == Min(if wake == 0 then 0xFFFF_FFFF_FFFF_FFFF else wake, |LiveOf(old(timers), old(queues[q]))|)
      ensures Emptied(old(timers), timers, LiveOf(old(timers), old(queues[q]))[..woke])
      ensures ready == old(ready) + Tasks(old(timers), LiveOf(old(timers), old(queues[q]))[..woke])
      ensures LiveOf(timers, left) == LiveOf(old(timers), old(queues[q]))[woke..]
      ensures Shifted(old(queues)[q := left], queues, q, dst, moved)
      ensures woke + k <= |LiveOf(old(timers), old(queues[q]))| && k <= moved
      ensures q != dst ==>
        LiveOf(timers, queues[dst])
        == LiveOf(old(timers), old(queues[dst])) + LiveOf(old(timers), old(queues[q]))[woke..woke + k]
      ensures q != dst ==> LiveOf(timers, queues[q]) == LiveOf(old(timers), old(queues[q]))[woke + k..]
      ensures q != dst ==> moved == num || (queues[q] == [] && woke + k == |LiveOf(old(timers), old(queues[q]))|)
      ensures q == dst ==> moved == if queues[q] == [] then 0 else num
      ensures q == dst ==>
        forall t :: t in LiveOf(timers, queues[q]) <==> t in LiveOf(old(timers), old(queues[q]))[woke..]
    {
      hide QueuesOk, Tasks, Distinct, LiveOf, Emptied;
      ghost var was, live, others := timers, LiveOf(timers, queues[q]), queues[dst];
      ghost var first := queues;
      woke := Notify(q, wake);
      left := queues[q];
      moved := Requeue(q, dst, num);
      k := 0;
      if q != dst {
        OthersSame(was, timers, first, q, dst, woke);
        RequeueKeepsOrder(timers, left, others, moved);
        LiveShorter(timers, left[..moved]);
        k := |LiveOf(timers, left[..moved])|;
        SplitThree(live, woke, LiveOf(timers, left[..moved]), LiveOf(timers, left[moved..]));
        LiveShorter(timers, left[moved..]);
      } else if left != [] {
        RotateOnce(left, moved);
        forall t: nat
          ensures t in LiveOf(timers, Rotate(left, moved)) <==> t in LiveOf(timers, left)
        {
          RotateSame(left, moved, t);
          LiveInQueue(timers, left, t);
          LiveInQueue(timers, Rotate(left, moved), t);
        }
      }
    }

    /** The earliest timer of the heap, after dropping dead ones from its top; `None` once it is not due. */
    method NextDue(now: nat) returns (due: Option<nat>)
      requires Valid()
      modifies this`heap
      ensures Valid() && heap <= old(heap)
      ensures forall t :: t in old(heap) && t !in heap && due != Some(t) ==> !Live(timers, t)
      ensures due.None? ==> forall t :: t in heap && Live(timers, t) ==> now < Deadline(timers, t)
      ensures due.Some? ==> due.value in old(heap) && due.value !in heap && Live(timers, due.value)
      ensures due.Some? ==> Deadline(timers, due.value) <= now
      ensures due.Some? ==> forall t :: t in heap ==> Deadline(timers, due.value) <= Deadline(timers, t)
    {
      while heap != {}
        invariant Valid() && heap <= old(heap)
        invariant forall t :: t in old(heap) && t !in heap ==> !Live(timers, t)
        decreases heap
      {
        ghost var least := Earliest(timers, heap);
        var t :| t in heap && forall u :: u in heap ==> Deadline(timers, t) <= Deadline(timers, u);
        if !timers[t].live {
          heap := heap - {t};
        } else if Deadline(timers, t) <= now {
          heap := heap - {t};
          return Some(t);
        } else {
          return None;
        }
      }
      due := None;
    }

    /**
     Fires what is due, earliest first, reading the clock again before each. Afterwards no live timer
     was due at the last reading, nothing fired early, and only fired timers changed.
     */
    method Tick(clock: nat -> nat) returns (last: nat, count: nat, ghost fired: seq<nat>)
      requires Valid()
      modifies this`timers, this`ready, this`heap
      ensures Valid() && count == |fired| + 1 && last == clock(|fired|)
      ensures forall t :: t in heap && Live(timers, t) ==> last < Deadline(timers, t)
      ensures heap <= old(heap) && forall t :: t in old(heap) && t !in heap ==> !Live(timers, t)
      ensures Fired(old(timers), timers, fired) && forall i :: 0 <= i < |fired| ==> fired[i] in old(heap)
      ensures forall i :: 0 <= i < |fired| ==> Passed(old(timers), fired[i], clock(i))
      ensures ready == old(ready) + Tasks(old(timers), fired)
    {
      hide Fired, Tasks, Live;
      count, fired := 0, [];
      ghost var was, before, done := timers, heap, ready;
      TickStart(was, before, done);
      while true
        invariant Valid() && Ticking(was, timers, before, heap, done, ready, fired)
        invariant count == |fired| && forall i :: 0 <= i < |fired| ==> DueAt(was, fired[i], clock(i))
        decreases heap
      {
        last := clock(count);
        count := count + 1;
        ghost var full := heap;
        var due := NextDue(last);
        Dropped(was, timers, before, full, heap, done, ready, fired, due);
        if due.None? { break; }
        var t := due.value;
        FireOne(was, timers, before, full, heap, done, ready, fired, t);
        assert DueAt(was, t, last);
        var task := timers[t].task;
        timers := timers[t := timers[t].(live := false, fired := true)];
        ready := ready + [task];
        fired := fired + [t];
      }
    }
  }

  /** Exactly the timers of `ts` fired: all were live, none twice, and in order of their deadlines. */
  ghost predicate Fired(before: seq<Timer>, after: seq<Timer>, ts: seq<nat>) {
    && |after| == |before| && Distinct(ts)
    && (forall i :: 0 <= i < |ts| ==> Live(before, ts[i]))
    && (forall i, j :: 0 <= i < j < |ts| ==> Deadline(before, ts[i]) <= Deadline(before, ts[j]))
    && (forall t :: 0 <= t < |before| ==>
          after[t] == if t in ts then before[t].(live := false, fired := true) else before[t])
  }

  ghost predicate DueAt(timers: seq<Timer>, t: nat, now: nat) {
    t < |timers| && Deadline(timers, t) <= now
  }

  /** The timer has a deadline, and it is not after `now`. */
  ghost predicate Passed(timers: seq<Timer>, t: nat, now: nat) {
    t < |timers| && timers[t].deadline.Some? && timers[t].deadline.value <= now
  }

  /** How far a tick has come: `fired` fired, and nothing left in the heap is earlier than they were. */
  ghost predicate Ticking(was: seq<Timer>, now: seq<Timer>, before: set<nat>, heap: set<nat>,
                          done: seq<nat>, ready: seq<nat>, fired: seq<nat>) {
    && Fired(was, now, fired) && heap <= before && ready == done + Tasks(was, fired)
    && (forall t :: t in before ==> t < |was|)
    && (forall t :: t in before && t !in heap ==> !Live(now, t))
    && (forall i :: 0 <= i < |fired| ==> fired[i] in before && fired[i] !in heap)
    && (forall i, t :: 0 <= i < |fired| && t in heap ==> Deadline(was, fired[i]) <= Deadline(was, t))
  }

  lemma TickStart(was: seq<Timer>, before: set<nat>, done: seq<nat>)
    requires forall t :: t in before ==> t < |was|
    ensures Ticking(was, was, before, before, done, done, [])
  {
  }

  /** Dropping dead timers from the heap changes nothing that matters. */
  lemma Dropped(was: seq<Timer>, now: seq<Timer>, before: set<nat>, full: set<nat>, heap: set<nat>,
                done: seq<nat>, ready: seq<nat>, fired: seq<nat>, due: Option<nat>)
    requires Ticking(was, now, before, full, done, ready, fired) && heap <= full
    requires forall t :: t in full && t !in heap && due != Some(t) ==> !Live(now, t)
    ensures due.None? ==> Ticking(was, now, before, heap, done, ready, fired)
  {
  }

  lemma FireOne(was: seq<Timer>, now: seq<Timer>, before: set<nat>, full: set<nat>, heap: set<nat>,
                done: seq<nat>, ready: seq<nat>, fired: seq<nat>, t: nat)
    requires Ticking(was, now, before, full, done, ready, fired) && heap <= full
    requires forall u :: u in full && u !in heap && u != t ==> !Live(now, u)
    requires Live(now, t) && t in full && t !in heap
    requires forall u :: u in heap && u < |now| ==> Deadline(now, t) <= Deadline(now, u)
    ensures t < |now| && now[t].live && Deadline(was, t) == Deadline(now, t)
    ensures Ticking(was, now[t := now[t].(live := false, fired := true)], before, heap, done,
                    ready + [now[t].task], fired + [t])
  {
    hide Tasks;
    assert t !in fired && now[t] == was[t];
    assert Tasks(was, fired + [t]) == Tasks(was, fired) + [now[t].task];
  }

  lemma {:induction false} Earliest(timers: seq<Timer>, heap: set<nat>) returns (t: nat)
    requires heap != {}
    ensures t in heap && forall u :: u in heap ==> Deadline(timers, t) <= Deadline(timers, u)
    decreases |heap|
  {
    t :| t in heap;
    if heap != {t} {
      var m := Earliest(timers, heap - {t});
      if Deadline(timers, m) < Deadline(timers, t) { t := m; }
    }
  }

  lemma DistinctAt(queues: seq<seq<nat>>, q: nat)
    requires QueuesOk(queues) && q < |queues|
    ensures Distinct(queues[q])
  {
  }

  /** Waking waiters of `q` leaves those of `dst` as they were. */
  lemma OthersSame(was: seq<Timer>, now: seq<Timer>, queues: seq<seq<nat>>, q: nat, dst: nat, n: nat)
    requires QueuesOk(queues) && q < |queues| && dst < |queues| && q != dst
    requires n <= |LiveOf(was, queues[q])| && Emptied(was, now, LiveOf(was, queues[q])[..n])
    ensures LiveOf(now, queues[dst]) == LiveOf(was, queues[dst])
  {
    forall t | t in queues[dst] && t < |was|
      ensures was[t] == now[t]
    {
      LiveInQueue(was, queues[q], t);
    }
    LiveSame(was, now, queues[dst]);
  }

  lemma {:induction false} LiveShorter(timers: seq<Timer>, q: seq<nat>)
    ensures |LiveOf(timers, q)| <= |q|
  {
    if q == [] {
    } else {
      LiveShorter(timers, q[1..]);
    }
  }

  lemma SplitThree(live: seq<nat>, n: nat, a: seq<nat>, b: seq<nat>)
    requires n <= |live| && live[n..] == a + b
    ensures n + |a| <= |live| && live[n..n + |a|] == a && live[n + |a|..] == b
  {
    assert |live| - n == |a| + |b|;
    assert live[n..n + |a|] == live[n..][..|a|];
    assert live[n + |a|..] == live[n..][|a|..];
  }

  /** The first `n` of queue `q` went to the end of `dst`; nothing else changed. */
  ghost predicate Shifted(was: seq<seq<nat>>, now: seq<seq<nat>>, q: nat, dst: nat, n: nat)
    requires q < |was| && dst < |was|
  {
    && |now| == |was| && (forall x :: 0 <= x < |was| && x != q && x != dst ==> now[x] == was[x])
    && (q != dst ==> n <= |was[q]| && now[q] == was[q][n..] && now[dst] == was[dst] + was[q][..n])
    && (q == dst ==> now[q] == if was[q] == [] then [] else Rotate(was[q], n))
  }

  lemma NoneShifted(was: seq<seq<nat>>, q: nat, dst: nat)
    requires q < |was| && dst < |was|
    ensures Shifted(was, was, q, dst, 0)
  {
    assert was[q][0..] == was[q] && was[dst] + was[q][..0] == was[dst];
  }

  lemma ShiftOne(was: seq<seq<nat>>, now: seq<seq<nat>>, q: nat, dst: nat, n: nat)
    requires q < |was| && dst < |was| && Shifted(was, now, q, dst, n) && now[q] != []
    ensures var mid := now[q := now[q][1..]];
      Shifted(was, mid[dst := mid[dst] + [now[q][0]]], q, dst, n + 1)
    ensures (q == dst && was[q] != []) || n < |was[q]|
  {
    if q == dst {
      RotateOnce(was[q], n);
    } else {
      assert was[q][..n + 1] == was[q][..n] + [was[q][n]];
      assert was[q][n..][1..] == was[q][n + 1..];
    }
  }

  lemma AllShifted(was: seq<seq<nat>>, now: seq<seq<nat>>, q: nat, dst: nat, n: nat, num: nat)
    requires q < |was| && dst < |was| && Shifted(was, now, q, dst, n) && n <= num && (n == num || now[q] == [])
    requires (q == dst && was[q] != []) || n <= |was[q]|
    ensures n == if q == dst && was[q] != [] then num else Min(num, |was[q]|)
  {
    if q == dst && was[q] != [] {
      RotateOnce(was[q], n);
    } else if n < num {
      assert |now[q]| == |was[q]| - n;
    }
  }

  /** `cnt` tasks were woken, those of the live timers of `popped`. */
  ghost predicate Woken(was: seq<Timer>, now: seq<Timer>, done: seq<nat>, ready: seq<nat>, popped: seq<nat>, cnt: nat) {
    && cnt == |LiveOf(was, popped)| && Emptied(was, now, LiveOf(was, popped))
    && ready == done + Tasks(was, LiveOf(was, popped))
  }

  lemma NothingPopped(was: seq<Timer>, done: seq<nat>)
    ensures Woken(was, was, done, done, [], 0)
  {
  }

  lemma NoMoreThan(was: seq<Timer>, popped: seq<nat>, rest: seq<nat>, cnt: nat, num: nat)
    requires cnt == |LiveOf(was, popped)| <= num && (cnt == num || rest == [])
    ensures cnt == Min(num, |LiveOf(was, popped + rest)|)
    ensures LiveOf(was, popped + rest)[..cnt] == LiveOf(was, popped)
    ensures LiveOf(was, popped + rest)[cnt..] == LiveOf(was, rest)
  {
    LiveConcat(was, popped, rest);
  }

  /** Popping one more waiter wakes its task, if it is live. */
  lemma PopOne(was: seq<Timer>, mid: seq<Timer>, now: seq<Timer>, done: seq<nat>, soFar: seq<nat>, ready: seq<nat>,
               popped: seq<nat>, t: nat, rest: seq<nat>, cnt: nat, ok: bool)
    requires Distinct(popped + [t] + rest) && Woken(was, mid, done, soFar, popped, cnt)
    requires ok == Live(mid, t) && Emptied(mid, now, if ok then [t] else [])
    requires ready == soFar + if ok then [TaskOf(mid, t)] else []
    ensures Woken(was, now, done, ready, popped + [t], if ok then cnt + 1 else cnt)
  {
    hide LiveOf, Tasks;
    LiveLast(was, popped, t);
    var ts := LiveOf(was, popped);
    assert t !in ts by {
      LiveInQueue(was, popped, t);
      assert forall i :: 0 <= i < |popped| ==> (popped + [t] + rest)[i] == popped[i];
      assert (popped + [t] + rest)[|popped|] == t;
    }
    assert Live(mid, t) == Live(was, t) && TaskOf(mid, t) == TaskOf(was, t);
    if ok { assert Tasks(was, ts + [t]) == Tasks(was, ts) + [TaskOf(was, t)]; }
  }

  lemma LiveLast(was: seq<Timer>, popped: seq<nat>, t: nat)
    ensures LiveOf(was, popped + [t]) == if Live(was, t) then LiveOf(was, popped) + [t] else LiveOf(was, popped)
  {
    LiveConcat(was, popped, [t]);
    assert LiveOf(was, [t]) == if Live(was, t) then [t] else [];
  }

  /** Waking those in front does not touch those behind. */
  lemma RestSame(was: seq<Timer>, now: seq<Timer>, front: seq<nat>, back: seq<nat>)
    requires Distinct(front + back) && Emptied(was, now, LiveOf(was, front))
    ensures LiveOf(now, back) == LiveOf(was, back)
  {
    forall t | t in back && t < |was|
      ensures was[t] == now[t]
    {
      LiveInQueue(was, front, t);
      forall i, j | 0 <= i < |front| && 0 <= j < |back|
        ensures front[i] != back[j]
      {
        assert (front + back)[i] == front[i] && (front + back)[|front| + j] == back[j];
      }
    }
    LiveSame(was, now, back);
  }

  // ----- the loop and the machine -----

  /** Agent `a` of the interleaved machine makes `k` steps in a row. */
  ghost function Alone(s: Timers.State, a: nat, k: nat): Timers.State
    decreases k
  {
    if k == 0 then s else Alone(Timers.Next(s, Timers.Go(a)), a, k - 1)
  }

  /** The wakeups of a notifier that readies the tasks of `ts`. */
  ghost function Cancels(ts: seq<nat>): (ws: seq<Timers.Wakeup>)
    ensures |ws| == |ts|
  {
    if ts == [] then [] else [Timers.Wakeup(ts[0], true)] + Cancels(ts[1..])
  }

  /** The machine went from `s` to `s'` by waking the first `n` live waiters of `q` and nothing else. */
  ghost predicate Notified(s: Timers.State, s': Timers.State, a: nat, q: nat, n: nat)
    requires q < |s.queues| && n <= |LiveOf(s.timers, s.queues[q])| && a < |s.agents|
  {
    var live := LiveOf(s.timers, s.queues[q]);
    && s'.agents == s.agents[a := Timers.Idle] && s'.heap == s.heap && s'.results == s.results
    && |s'.queues| == |s.queues| && s'.queues == s.queues[q := s'.queues[q]]
    && s'.woken == s.woken + Cancels(live[..n]) && Emptied(s.timers, s'.timers, live[..n])
    && LiveOf(s'.timers, s'.queues[q]) == live[n..]
  }

  /** One round of the machine's notifier: pop a waiter and, if it is live, wake its task. */
  ghost function Round(s: Timers.State, a: nat): Timers.State {
    var s2 := Alone(s, a, 2);
    if a < |s2.agents| && s2.agents[a].Wake? then Alone(s, a, 3) else s2
  }

  lemma RoundDoes(s: Timers.State, a: nat, q: nat, left: nat)
    requires a < |s.agents| && s.agents[a] == Timers.Notify(q, left) && left > 0
    requires q < |s.queues| && s.queues[q] != [] && s.queues[q][0] < |s.timers|
    ensures var t := s.queues[q][0]; var live := s.timers[t].live;
      Round(s, a) == s.(queues := s.queues[q := s.queues[q][1..]],
                        timers := if live then s.timers[t := s.timers[t].(live := false)] else s.timers,
                        woken := if live then s.woken + [Timers.Wakeup(t, true)] else s.woken,
                        agents := s.agents[a := Timers.Notify(q, if live then left - 1 else left)])
  {
    var s1 := Timers.Next(s, Timers.Go(a));
    var s2 := Timers.Next(s1, Timers.Go(a));
    assert Alone(s2, a, 1) == Timers.Next(s2, Timers.Go(a)) && Alone(s1, a, 2) == Alone(s2, a, 1);
    assert Alone(s, a, 2) == s2 && Alone(s, a, 3) == Timers.Next(s2, Timers.Go(a));
    assert s1.agents[a] == Timers.Cancel(q, left, s.queues[q][0]);
    assert s1.agents[a := s2.agents[a]] == s.agents[a := s2.agents[a]];
  }

  lemma {:induction false} AloneAdds(s: Timers.State, a: nat, j: nat, k: nat)
    ensures Alone(s, a, j + k) == Alone(Alone(s, a, j), a, k)
    decreases j
  {
    if j == 0 {
    } else {
      AloneAdds(Timers.Next(s, Timers.Go(a)), a, j - 1, k);
    }
  }

  /**
   A notifier of the interleaved machine that is left alone wakes exactly those whom the loop of
   `Notify` wakes: as many of the first live waiters as it may, in queue order.
   */
  lemma {:induction false} NotifierAlone(s: Timers.State, a: nat, q: nat, left: nat) returns (k: nat)
    requires a < |s.agents| && s.agents[a] == Timers.Notify(q, left) && q < |s.queues|
    requires Distinct(s.queues[q]) && forall t :: t in s.queues[q] ==> t < |s.timers|
    ensures Notified(s, Alone(s, a, k), a, q, Min(left, |LiveOf(s.timers, s.queues[q])|))
    decreases |s.queues[q]|
  {
    hide Timers.Next, Timers.DoGo, Emptied, Notified, Alone;
    var waiting := s.queues[q];
    if left == 0 || waiting == [] {
      k := 1;
      NotifierStops(s, a, q, left);
    } else {
      var t := waiting[0];
      assert t in waiting && waiting == [t] + waiting[1..];
      RoundDoes(s, a, q, left);
      var s1 := Round(s, a);
      var left1 := if s.timers[t].live then left - 1 else left;
      assert forall u :: u in waiting[1..] ==> u in waiting && u != t;
      LiveSame(s.timers, s1.timers, waiting[1..]);
      k := NotifierAlone(s1, a, q, left1);
      var j := if Alone(s, a, 2).agents[a].Wake? then 3 else 2;
      AloneAdds(s, a, j, k);
      if s.timers[t].live {
        LiveThenRest(s, s1, Alone(s1, a, k), a, q, left);
      } else {
        DeadThenRest(s, s1, Alone(s1, a, k), a, q, left);
      }
      k := j + k;
    }
  }

  lemma NotifierStops(s: Timers.State, a: nat, q: nat, left: nat)
    requires a < |s.agents| && s.agents[a] == Timers.Notify(q, left) && q < |s.queues|
    requires left == 0 || s.queues[q] == []
    ensures Notified(s, Alone(s, a, 1), a, q, Min(left, |LiveOf(s.timers, s.queues[q])|))
  {
    assert Alone(s, a, 1) == Timers.Next(s, Timers.Go(a));
    assert s.queues[q := s.queues[q]] == s.queues;
  }

  /** `s1` is `s` with the first waiter of `q` taken out, and nothing else but timers and wakeups changed. */
  ghost predicate PoppedFirst(s: Timers.State, s1: Timers.State, a: nat, q: nat)
    requires a < |s.agents| && q < |s.queues| && s.queues[q] != []
  {
    && s1.queues == s.queues[q := s.queues[q][1..]] && s1.heap == s.heap && s1.results == s.results
    && |s1.agents| == |s.agents| && s1.agents[a := Timers.Idle] == s.agents[a := Timers.Idle]
  }

  lemma DeadThenRest(s: Timers.State, s1: Timers.State, s': Timers.State, a: nat, q: nat, left: nat)
    requires a < |s.agents| && q < |s.queues| && s.queues[q] != [] && s.queues[q][0] < |s.timers|
    requires PoppedFirst(s, s1, a, q) && !s.timers[s.queues[q][0]].live
    requires s1.timers == s.timers && s1.woken == s.woken
    requires Notified(s1, s', a, q, Min(left, |LiveOf(s1.timers, s1.queues[q])|))
    ensures Notified(s, s', a, q, Min(left, |LiveOf(s.timers, s.queues[q])|))
  {
    assert LiveOf(s.timers, s.queues[q]) == LiveOf(s1.timers, s1.queues[q]);
    hide LiveOf, Emptied, Cancels;
    assert s1.queues[q := s'.queues[q]] == s.queues[q := s'.queues[q]];
  }

  lemma LiveThenRest(s: Timers.State, s1: Timers.State, s': Timers.State, a: nat, q: nat, left: nat)
    requires a < |s.agents| && q < |s.queues| && s.queues[q] != [] && s.queues[q][0] < |s.timers| && left > 0
    requires PoppedFirst(s, s1, a, q) && s.timers[s.queues[q][0]].live
    requires var t := s.queues[q][0];
      s1.timers == s.timers[t := s.timers[t].(live := false)] && s1.woken == s.woken + [Timers.Wakeup(t, true)]
    requires LiveOf(s1.timers, s.queues[q][1..]) == LiveOf(s.timers, s.queues[q][1..])
    requires Notified(s1, s', a, q, Min(left - 1, |LiveOf(s1.timers, s1.queues[q])|))
    ensures Notified(s, s', a, q, Min(left, |LiveOf(s.timers, s.queues[q])|))
  {
    var t, rest := s.queues[q][0], LiveOf(s1.timers, s1.queues[q]);
    var live := LiveOf(s.timers, s.queues[q]);
    assert live == [t] + rest;
    hide LiveOf, Emptied, Cancels;
    var n := Min(left - 1, |rest|);
    assert Min(left, |live|) == n + 1;
    assert live[..n + 1] == [t] + rest[..n] && live[n + 1..] == rest[n..];
    FirstEmptied(s.timers, s1.timers, s'.timers, t, rest[..n]);
    FirstCancels(t, rest[..n]);
    assert s'.woken == s.woken + ([Timers.Wakeup(t, true)] + Cancels(rest[..n]));
    assert s1.queues[q := s'.queues[q]] == s.queues[q := s'.queues[q]];
  }

  lemma FirstCancels(t: nat, ts: seq<nat>)
    ensures Cancels([t] + ts) == [Timers.Wakeup(t, true)] + Cancels(ts)
  {
    assert ([t] + ts)[1..] == ts;
  }

  lemma FirstEmptied(was: seq<Timer>, mid: seq<Timer>, now: seq<Timer>, t: nat, ts: seq<nat>)
    requires t < |was| && mid == was[t := was[t].(live := false)] && Emptied(mid, now, ts)
    ensures Emptied(was, now, [t] + ts)
  {
  }
}
