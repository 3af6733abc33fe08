/**
 Waking blocked tasks: timers fire, notifiers cancel them, futexes move them between queues, all at
 once. Every shared access is one atomic step and every interleaving is a run.
 */
module Timers {
  import opened Types

  /**
   One blocking of one task: whether it joined a wait queue, its deadline if it has one, and
   whether the callback is still in its slot.
   */
  datatype Timer = Timer(task: nat, queued: bool, deadline: Option<nat>, live: bool, fired: bool)

  /** What a CPU is in the middle of; `t` is the timer in its hands. */
  datatype Agent =
    | Idle
    | Notify(q: nat, left: nat)
    | Cancel(q: nat, left: nat, t: nat)
    | Wake(q: nat, left: nat, t: nat)
    | Requeue(q: nat, left: nat, dst: nat)
    | Move(q: nat, left: nat, dst: nat, t: nat)
    | Fire(t: nat)
    | Mark(t: nat)
    | Ready(t: nat)

  datatype Wakeup = Wakeup(t: nat, canceled: bool)

  datatype State = State(
    timers: seq<Timer>,
    queues: seq<seq<nat>>,
    heap: set<nat>,
    agents: seq<Agent>,
    woken: seq<Wakeup>,
    results: map<nat, bool>)

  datatype Step =
    | Block(task: nat, queue: Option<nat>, deadline: Option<nat>)
    | StartNotify(a: nat, q: nat, num: nat)
    | StartRequeue(a: nat, q: nat, dst: nat, num: nat)
    | StartFire(a: nat, t: nat)
    | Discard(t: nat)
    | Go(a: nat)
    | Resume(t: nat)

  const USIZE_MAX: nat := 0xFFFF_FFFF_FFFF_FFFF

  function Init(queues: nat, agents: nat): State {
    State([], seq(queues, _ => []), {}, seq(agents, _ => Idle), [], map[])
  }

  function Limit(num: nat): nat {
    if num == 0 then USIZE_MAX else num
  }

  function Become(s: State, a: nat, g: Agent): State
    requires a < |s.agents|
  {
    s.(agents := s.agents[a := g])
  }

  /** A task blocks: its timer joins the clock's heap unless it has no deadline, then the wait queue. */
  function DoBlock(s: State, task: nat, queue: Option<nat>, deadline: Option<nat>): State
    requires queue.Some? ==> queue.value < |s.queues|
  {
    var t := |s.timers|;
    s.(timers := s.timers + [Timer(task, queue.Some?, deadline, true, false)],
       heap := if deadline.Some? then s.heap + {t} else s.heap,
       queues := if queue.Some? then s.queues[queue.value := s.queues[queue.value] + [t]] else s.queues)
  }

  /** Removes the front of queue `q` and goes on as `g` with it in hand. */
  function Pop(s: State, a: nat, q: nat, g: Agent): State
    requires a < |s.agents| && q < |s.queues| && s.queues[q] != []
  {
    Become(s, a, g).(queues := s.queues[q := s.queues[q][1..]])
  }

  /** Takes the callback out of its slot; a second taker finds the slot empty. */
  function Take(s: State, a: nat, t: nat, won: Agent, lost: Agent): State
    requires a < |s.agents| && t < |s.timers|
  {
    if s.timers[t].live then Become(s, a, won).(timers := s.timers[t := s.timers[t].(live := false)])
    else Become(s, a, lost)
  }

  function Woke(s: State, a: nat, w: Wakeup, g: Agent): State
    requires a < |s.agents|
  {
    Become(s, a, g).(woken := s.woken + [w])
  }

  /** The agent's next atomic step. */
  function DoGo(s: State, a: nat): State
    requires a < |s.agents|
  {
    match s.agents[a]
    case Idle => s
    case Notify(q, left) =>
      if left == 0 || q >= |s.queues| || s.queues[q] == [] then Become(s, a, Idle)
      else Pop(s, a, q, Cancel(q, left, s.queues[q][0]))
    case Cancel(q, left, t) =>
      if t < |s.timers| then Take(s, a, t, Wake(q, left, t), Notify(q, left)) else s
    case Wake(q, left, t) => Woke(s, a, Wakeup(t, true), Notify(q, if left > 0 then left - 1 else 0))
    case Requeue(q, left, dst) =>
      if left == 0 || q >= |s.queues| || s.queues[q] == [] then Become(s, a, Idle)
      else Pop(s, a, q, Move(q, left, dst, s.queues[q][0]))
    case Move(q, left, dst, t) =>
      if dst < |s.queues| then
        Become(s, a, Requeue(q, if left > 0 then left - 1 else 0, dst)).(queues := s.queues[dst := s.queues[dst] + [t]])
      else s
    case Fire(t) => if t < |s.timers| then Take(s, a, t, Mark(t), Idle) else s
    case Mark(t) =>
      if t < |s.timers| then Become(s, a, Ready(t)).(timers := s.timers[t := s.timers[t].(fired := true)]) else s
    case Ready(t) => Woke(s, a, Wakeup(t, false), Idle)
  }

  /** The woken task reads whether its timer fired; success means it had not. */
  function DoResume(s: State, t: nat): State {
    if t < |s.timers| && t !in s.results && (exists i :: 0 <= i < |s.woken| && s.woken[i].t == t)
    then s.(results := s.results[t := !s.timers[t].fired]) else s
  }

  function Next(s: State, m: Step): State {
    match m
    case Block(task, queue, deadline) =>
      if queue.Some? && queue.value >= |s.queues| then s else DoBlock(s, task, queue, deadline)
    case StartNotify(a, q, num) =>
      if a < |s.agents| && s.agents[a].Idle? then Become(s, a, Notify(q, Limit(num))) else s
    case StartRequeue(a, q, dst, num) =>
      if a < |s.agents| && s.agents[a].Idle? && dst < |s.queues| then Become(s, a, Requeue(q, num, dst)) else s
    case StartFire(a, t) =>
      if a < |s.agents| && s.agents[a].Idle? && t in s.heap then Become(s, a, Fire(t)).(heap := s.heap - {t}) else s
    case Discard(t) => if t < |s.timers| && !s.timers[t].live then s.(heap := s.heap - {t}) else s
    case Go(a) => if a < |s.agents| then DoGo(s, a) else s
    case Resume(t) => DoResume(s, t)
  }

  function Run(s: State, moves: seq<Step>): State
    decreases |moves|
  {
    if moves == [] then s else Next(Run(s, moves[..|moves| - 1]), moves[|moves| - 1])
  }

  // ----- counting -----

  ghost function InQueue(q: seq<nat>, t: nat): nat {
    if q == [] then 0 else One(q[0] == t) + InQueue(q[1..], t)
  }

  ghost function InQueues(qs: seq<seq<nat>>, t: nat): nat {
    if qs == [] then 0 else InQueue(qs[0], t) + InQueues(qs[1..], t)
  }

  /** The agent has taken the callback of `t` and not yet readied its task. */
  predicate Owns(g: Agent, t: nat) {
    (g.Wake? || g.Mark? || g.Ready?) && g.t == t
  }

  /** The agent has taken `t` off a queue and not yet tried its callback or put it back. */
  predicate Carries(g: Agent, t: nat) {
    (g.Cancel? || g.Move?) && g.t == t
  }

  ghost function Owners(gs: seq<Agent>, t: nat): nat {
    if gs == [] then 0 else One(Owns(gs[0], t)) + Owners(gs[1..], t)
  }

  ghost function Carriers(gs: seq<Agent>, t: nat): nat {
    if gs == [] then 0 else One(Carries(gs[0], t)) + Carriers(gs[1..], t)
  }

  ghost function WokenTimes(ws: seq<Wakeup>, t: nat): nat {
    if ws == [] then 0 else One(ws[0].t == t) + WokenTimes(ws[1..], t)
  }

  lemma {:induction false} AgentUpdate(gs: seq<Agent>, a: nat, g: Agent, t: nat)
    requires a < |gs|
    ensures Owners(gs[a := g], t) + One(Owns(gs[a], t)) == Owners(gs, t) + One(Owns(g, t))
    ensures Carriers(gs[a := g], t) + One(Carries(gs[a], t)) == Carriers(gs, t) + One(Carries(g, t))
  {
    if a == 0 {
      assert gs[0 := g][1..] == gs[1..];
    } else {
      AgentUpdate(gs[1..], a - 1, g, t);
      assert gs[a := g][1..] == gs[1..][a - 1 := g];
    }
  }

  lemma {:induction false} QueueUpdate(qs: seq<seq<nat>>, q: nat, x: seq<nat>, t: nat)
    requires q < |qs|
    ensures InQueues(qs[q := x], t) + InQueue(qs[q], t) == InQueues(qs, t) + InQueue(x, t)
  {
    if q == 0 {
      assert qs[0 := x][1..] == qs[1..];
    } else {
      QueueUpdate(qs[1..], q - 1, x, t);
      assert qs[q := x][1..] == qs[1..][q - 1 := x];
    }
  }

  lemma {:induction false} QueuePush(q: seq<nat>, x: nat, t: nat)
    ensures InQueue(q + [x], t) == InQueue(q, t) + One(x == t)
  {
    if q == [] {
      assert q + [x] == [x];
    } else {
      QueuePush(q[1..], x, t);
      assert (q + [x])[1..] == q[1..] + [x];
    }
  }

  lemma {:induction false} WokenPush(ws: seq<Wakeup>, w: Wakeup, t: nat)
    ensures WokenTimes(ws + [w], t) == WokenTimes(ws, t) + One(w.t == t)
  {
    if ws == [] {
      assert ws + [w] == [w];
    } else {
      WokenPush(ws[1..], w, t);
      assert (ws + [w])[1..] == ws[1..] + [w];
    }
  }

  // ----- the invariant -----

  /** The callback of `t` is in its slot, in one agent's hands, or has readied its task once. */
  ghost predicate OneCallback(s: State, t: nat) {
    (if t < |s.timers| then One(s.timers[t].live) else 1) + Owners(s.agents, t) + WokenTimes(s.woken, t) == 1
  }

  /** `t` waits in at most one queue or hand, and in exactly one as long as a notifier could still wake it. */
  ghost predicate OneQueue(s: State, t: nat) {
    && InQueues(s.queues, t) + Carriers(s.agents, t) <= 1
    && (t < |s.timers| && s.timers[t].queued && s.timers[t].live ==> InQueues(s.queues, t) + Carriers(s.agents, t) == 1)
    && (t >= |s.timers| ==> InQueues(s.queues, t) + Carriers(s.agents, t) == 0)
  }

  /** The fired flag agrees with how far an agent has come. */
  ghost predicate AgentOk(s: State, g: Agent) {
    && (g.Cancel? || g.Wake? || g.Move? || g.Fire? || g.Mark? || g.Ready? ==> g.t < |s.timers|)
    && (g.Wake? || g.Mark? ==> !s.timers[g.t].fired)
    && (g.Ready? ==> s.timers[g.t].fired)
    && (g.Requeue? || g.Move? ==> g.dst < |s.queues|)
    && (g.Cancel? || g.Wake? || g.Move? ==> g.left > 0)
  }

  /** A live timer with a deadline is in the heap, or about to be fired. */
  ghost predicate Clocked(s: State, t: nat) {
    t < |s.timers| && s.timers[t].live && s.timers[t].deadline.Some? ==> t in s.heap || Firing(s.agents, t)
  }

  ghost predicate Firing(gs: seq<Agent>, t: nat) {
    exists a :: 0 <= a < |gs| && gs[a] == Fire(t)
  }

  lemma FiringKept(gs: seq<Agent>, a: nat, g: Agent, t: nat)
    requires a < |gs| && Firing(gs, t) && gs[a] != Fire(t)
    ensures Firing(gs[a := g], t)
  {
    var b :| 0 <= b < |gs| && gs[b] == Fire(t);
    assert gs[a := g][b] == Fire(t);
  }

  ghost predicate FlagsOk(s: State) {
    && (forall t :: 0 <= t < |s.timers| && s.timers[t].live ==> !s.timers[t].fired)
    && (forall t :: t in s.heap ==> t < |s.timers|)
    && (forall i :: 0 <= i < |s.woken| ==>
          s.woken[i].t < |s.timers| && s.timers[s.woken[i].t].fired == !s.woken[i].canceled)
    && (forall t :: t in s.results ==> t < |s.timers| && s.results[t] == !s.timers[t].fired)
    && (forall t :: t in s.results ==> exists i :: 0 <= i < |s.woken| && s.woken[i].t == t)
  }

  ghost predicate Inv(s: State) {
    && FlagsOk(s)
    && (forall a :: 0 <= a < |s.agents| ==> AgentOk(s, s.agents[a]))
    && (forall t: nat :: OneCallback(s, t))
    && (forall t: nat :: OneQueue(s, t))
    && (forall t: nat :: Clocked(s, t))
  }

  /** A step of agent `a` that leaves the heap alone; if it was firing, that callback is gone. */
  lemma ClockKept(s: State, s': State, a: nat)
    requires (forall t: nat :: Clocked(s, t)) && a < |s.agents| == |s'.agents| && s'.heap == s.heap
    requires s'.agents == s.agents[a := s'.agents[a]] && |s'.timers| == |s.timers|
    requires forall t :: 0 <= t < |s.timers| && s'.timers[t].live ==>
      s.timers[t].live && s'.timers[t].deadline == s.timers[t].deadline
    requires s.agents[a].Fire? && s.agents[a].t < |s.timers| ==> !s'.timers[s.agents[a].t].live
    ensures forall t: nat :: Clocked(s', t)
  {
    forall t: nat
      ensures Clocked(s', t)
    {
      assert Clocked(s, t);
      if Firing(s.agents, t) && s.agents[a] != Fire(t) { FiringKept(s.agents, a, s'.agents[a], t); }
    }
  }

  lemma {:induction false} OwnersAt(gs: seq<Agent>, a: nat, t: nat)
    requires a < |gs| && Owns(gs[a], t)
    ensures Owners(gs, t) > 0
  {
    if a == 0 {
    } else {
      OwnersAt(gs[1..], a - 1, t);
    }
  }

  lemma {:induction false} TwoOwners(gs: seq<Agent>, a: nat, b: nat, t: nat)
    requires a < b < |gs| && Owns(gs[a], t) && Owns(gs[b], t)
    ensures Owners(gs, t) > 1
  {
    if a == 0 { OwnersAt(gs[1..], b - 1, t); } else { TwoOwners(gs[1..], a - 1, b - 1, t); }
  }

  lemma {:induction false} WokenAt(ws: seq<Wakeup>, i: nat, t: nat)
    requires i < |ws| && ws[i].t == t
    ensures WokenTimes(ws, t) > 0
  {
    if i == 0 {
    } else {
      WokenAt(ws[1..], i - 1, t);
    }
  }

  // ----- every step keeps the invariant -----

  /** An agent that has nothing in hand before and after may change freely. */
  lemma BecomeKeeps(s: State, a: nat, g: Agent)
    requires Inv(s) && a < |s.agents| && AgentOk(s, g) && !s.agents[a].Fire?
    requires forall t: nat :: Owns(g, t) == Owns(s.agents[a], t) && Carries(g, t) == Carries(s.agents[a], t)
    ensures Inv(Become(s, a, g))
  {
    ClockKept(s, Become(s, a, g), a);
    hide Owns, Carries, Owners, Carriers, InQueues, WokenTimes, Clocked;
    forall t: nat
      ensures OneCallback(Become(s, a, g), t) && OneQueue(Become(s, a, g), t)
    {
      assert OneCallback(s, t) && OneQueue(s, t);
      AgentUpdate(s.agents, a, g, t);
    }
  }

  lemma PopKeeps(s: State, a: nat, q: nat, g: Agent)
    requires Inv(s) && a < |s.agents| && q < |s.queues| && s.queues[q] != []
    requires (s.agents[a].Notify? && g == Cancel(q, s.agents[a].left, s.queues[q][0]))
          || (s.agents[a].Requeue? && g == Move(q, s.agents[a].left, s.agents[a].dst, s.queues[q][0]))
    requires s.agents[a].left > 0
    ensures Inv(Pop(s, a, q, g))
  {
    var s' := Pop(s, a, q, g);
    ClockKept(s, s', a);
    hide Clocked;
    forall t: nat
      ensures OneCallback(s', t) && OneQueue(s', t)
    {
      PopCounts(s, a, q, g, t);
    }
    assert g.t < |s.timers| by {
      PopCounts(s, a, q, g, g.t);
    }
    assert forall b :: 0 <= b < |s.agents| && b != a ==> s'.agents[b] == s.agents[b];
  }

  lemma PopCounts(s: State, a: nat, q: nat, g: Agent, t: nat)
    requires OneCallback(s, t) && OneQueue(s, t) && a < |s.agents| && q < |s.queues| && s.queues[q] != []
    requires (s.agents[a].Notify? && g == Cancel(q, s.agents[a].left, s.queues[q][0]))
          || (s.agents[a].Requeue? && g == Move(q, s.agents[a].left, s.agents[a].dst, s.queues[q][0]))
    ensures OneCallback(Pop(s, a, q, g), t) && OneQueue(Pop(s, a, q, g), t)
    ensures t == g.t ==> t < |s.timers|
  {
    AgentUpdate(s.agents, a, g, t);
    QueueUpdate(s.queues, q, s.queues[q][1..], t);
  }

  lemma TakeKeeps(s: State, a: nat, t: nat, won: Agent, lost: Agent)
    requires Inv(s) && a < |s.agents| && t < |s.timers|
    requires (s.agents[a].Cancel? && s.agents[a].t == t
              && won == Wake(s.agents[a].q, s.agents[a].left, t) && lost == Notify(s.agents[a].q, s.agents[a].left))
          || (s.agents[a] == Fire(t) && won == Mark(t) && lost == Idle)
    ensures Inv(Take(s, a, t, won, lost))
  {
    var s' := Take(s, a, t, won, lost);
    ClockKept(s, s', a);
    hide Clocked;
    forall x: nat
      ensures OneCallback(s', x) && OneQueue(s', x)
    {
      assert OneCallback(s, x) && OneQueue(s, x);
      TakeCounts(s, a, t, won, lost, x);
    }
    forall b | 0 <= b < |s'.agents|
      ensures AgentOk(s', s'.agents[b])
    {
      assert AgentOk(s, s.agents[b]);
      assert AgentOk(s, s.agents[a]);
    }
  }

  lemma TakeCounts(s: State, a: nat, t: nat, won: Agent, lost: Agent, x: nat)
    requires OneCallback(s, x) && OneQueue(s, x) && a < |s.agents| && t < |s.timers|
    requires (s.agents[a].Cancel? && s.agents[a].t == t
              && won == Wake(s.agents[a].q, s.agents[a].left, t) && lost == Notify(s.agents[a].q, s.agents[a].left))
          || (s.agents[a] == Fire(t) && won == Mark(t) && lost == Idle)
    ensures OneCallback(Take(s, a, t, won, lost), x) && OneQueue(Take(s, a, t, won, lost), x)
  {
    AgentUpdate(s.agents, a, won, x);
    AgentUpdate(s.agents, a, lost, x);
  }

  lemma WokeFlags(s: State, a: nat, w: Wakeup, g: Agent)
    requires FlagsOk(s) && a < |s.agents| && w.t < |s.timers| && s.timers[w.t].fired == !w.canceled
    ensures FlagsOk(Woke(s, a, w, g))
  {
    var s' := Woke(s, a, w, g);
    forall t | t in s'.results
      ensures exists i :: 0 <= i < |s'.woken| && s'.woken[i].t == t
    {
      var i :| 0 <= i < |s.woken| && s.woken[i].t == t;
      assert s'.woken[i].t == t;
    }
  }

  lemma WokeKeeps(s: State, a: nat, w: Wakeup, g: Agent)
    requires Inv(s) && a < |s.agents|
    requires (s.agents[a].Wake? && w == Wakeup(s.agents[a].t, true) && g == Notify(s.agents[a].q, s.agents[a].left - 1))
          || (s.agents[a].Ready? && w == Wakeup(s.agents[a].t, false) && g == Idle)
    ensures Inv(Woke(s, a, w, g))
  {
    var s' := Woke(s, a, w, g);
    assert AgentOk(s, s.agents[a]);
    WokeFlags(s, a, w, g);
    ClockKept(s, s', a);
    hide FlagsOk, Clocked, Owners, Carriers, InQueues, WokenTimes;
    forall x: nat
      ensures OneCallback(s', x) && OneQueue(s', x)
    {
      assert OneCallback(s, x) && OneQueue(s, x);
      AgentUpdate(s.agents, a, g, x);
      WokenPush(s.woken, w, x);
    }
    assert forall b :: 0 <= b < |s.agents| && b != a ==> AgentOk(s', s.agents[b]);
  }

  lemma MoveKeeps(s: State, a: nat)
    requires Inv(s) && a < |s.agents| && s.agents[a].Move?
    ensures Inv(DoGo(s, a))
  {
    var s' := DoGo(s, a);
    var g := s.agents[a];
    assert AgentOk(s, g);
    ClockKept(s, s', a);
    hide Clocked;
    forall x: nat
      ensures OneCallback(s', x) && OneQueue(s', x)
    {
      assert OneCallback(s, x) && OneQueue(s, x);
      AgentUpdate(s.agents, a, s'.agents[a], x);
      QueueUpdate(s.queues, g.dst, s.queues[g.dst] + [g.t], x);
      QueuePush(s.queues[g.dst], g.t, x);
    }
    assert forall b :: 0 <= b < |s.agents| && b != a ==> AgentOk(s', s.agents[b]);
  }

  /** Whoever holds the callback of `t` is alone with it, and its task has not been woken. */
  lemma SoleOwner(s: State, a: nat, t: nat)
    requires Inv(s) && a < |s.agents| && Owns(s.agents[a], t)
    ensures forall b :: 0 <= b < |s.agents| && b != a ==> !Owns(s.agents[b], t)
    ensures forall i :: 0 <= i < |s.woken| ==> s.woken[i].t != t
    ensures t !in s.results && t < |s.timers| && !s.timers[t].live
  {
    assert OneCallback(s, t);
    OwnersAt(s.agents, a, t);
    forall b | 0 <= b < |s.agents| && b != a
      ensures !Owns(s.agents[b], t)
    {
      if Owns(s.agents[b], t) { TwoOwners(s.agents, if a < b then a else b, if a < b then b else a, t); }
    }
    forall i | 0 <= i < |s.woken|
      ensures s.woken[i].t != t
    {
      if s.woken[i].t == t { WokenAt(s.woken, i, t); }
    }
  }

  lemma MarkKeeps(s: State, a: nat)
    requires Inv(s) && a < |s.agents| && s.agents[a].Mark?
    ensures Inv(DoGo(s, a))
  {
    var t := s.agents[a].t;
    assert AgentOk(s, s.agents[a]);
    SoleOwner(s, a, t);
    var s' := DoGo(s, a);
    ClockKept(s, s', a);
    hide Clocked;
    forall x: nat
      ensures OneCallback(s', x) && OneQueue(s', x)
    {
      assert OneCallback(s, x) && OneQueue(s, x);
      AgentUpdate(s.agents, a, Ready(t), x);
    }
    forall b | 0 <= b < |s'.agents|
      ensures AgentOk(s', s'.agents[b])
    {
      assert AgentOk(s, s.agents[b]);
    }
  }

  lemma GoKeeps(s: State, a: nat)
    requires Inv(s) && a < |s.agents|
    ensures Inv(DoGo(s, a))
  {
    hide FlagsOk, OneCallback, OneQueue;
    assert AgentOk(s, s.agents[a]);
    match s.agents[a] {
      case Idle =>
      case Notify(q, left) =>
        if left == 0 || q >= |s.queues| || s.queues[q] == [] { BecomeKeeps(s, a, Idle); }
        else { PopKeeps(s, a, q, Cancel(q, left, s.queues[q][0])); }
      case Cancel(q, left, t) => TakeKeeps(s, a, t, Wake(q, left, t), Notify(q, left));
      case Wake(q, left, t) => WokeKeeps(s, a, Wakeup(t, true), Notify(q, left - 1));
      case Requeue(q, left, dst) =>
        if left == 0 || q >= |s.queues| || s.queues[q] == [] { BecomeKeeps(s, a, Idle); }
        else { PopKeeps(s, a, q, Move(q, left, dst, s.queues[q][0])); }
      case Move(q, left, dst, t) => MoveKeeps(s, a);
      case Fire(t) => TakeKeeps(s, a, t, Mark(t), Idle);
      case Mark(t) => MarkKeeps(s, a);
      case Ready(t) => WokeKeeps(s, a, Wakeup(t, false), Idle);
    }
  }

  lemma BlockKeeps(s: State, task: nat, queue: Option<nat>, deadline: Option<nat>)
    requires Inv(s) && (queue.Some? ==> queue.value < |s.queues|)
    ensures Inv(DoBlock(s, task, queue, deadline))
  {
    var t := |s.timers|;
    var s' := DoBlock(s, task, queue, deadline);
    forall x: nat
      ensures OneCallback(s', x) && OneQueue(s', x) && Clocked(s', x)
    {
      assert OneCallback(s, x) && OneQueue(s, x) && Clocked(s, x);
      if queue.Some? {
        var q := queue.value;
        QueueUpdate(s.queues, q, s.queues[q] + [t], x);
        QueuePush(s.queues[q], t, x);
      }
    }
    forall b | 0 <= b < |s'.agents|
      ensures AgentOk(s', s'.agents[b])
    {
      assert AgentOk(s, s.agents[b]);
    }
  }

  lemma ResumeKeeps(s: State, t: nat)
    requires Inv(s)
    ensures Inv(DoResume(s, t))
  {
    var s' := DoResume(s, t);
    forall x: nat
      ensures OneCallback(s', x) && OneQueue(s', x) && Clocked(s', x)
    {
      assert OneCallback(s, x) && OneQueue(s, x) && Clocked(s, x);
    }
    assert forall b :: 0 <= b < |s.agents| ==> AgentOk(s, s.agents[b]) ==> AgentOk(s', s.agents[b]);
  }

  lemma StartFireKeeps(s: State, a: nat, t: nat)
    requires Inv(s) && a < |s.agents| && s.agents[a].Idle? && t in s.heap
    ensures Inv(Become(s, a, Fire(t)).(heap := s.heap - {t}))
  {
    BecomeKeeps(s, a, Fire(t));
    var s1 := Become(s, a, Fire(t));
    var s' := s1.(heap := s.heap - {t});
    assert s1.agents[a] == Fire(t);
    HeapKeeps(s1, s');
  }

  /** Taking out of the heap what is being fired or dead. */
  lemma HeapKeeps(s: State, s': State)
    requires Inv(s) && s' == s.(heap := s'.heap) && s'.heap <= s.heap
    requires forall t :: t in s.heap && t !in s'.heap ==> Firing(s.agents, t) || !s.timers[t].live
    ensures Inv(s')
  {
    forall x: nat
      ensures OneCallback(s', x) && OneQueue(s', x) && Clocked(s', x)
    {
      assert OneCallback(s, x) && OneQueue(s, x) && Clocked(s, x);
    }
    assert forall b :: 0 <= b < |s.agents| ==> AgentOk(s, s.agents[b]) ==> AgentOk(s', s.agents[b]);
  }

  lemma NextKeeps(s: State, m: Step)
    requires Inv(s)
    ensures Inv(Next(s, m))
  {
    match m {
      case Block(task, queue, deadline) =>
        if queue.None? || queue.value < |s.queues| { BlockKeeps(s, task, queue, deadline); }
      case StartNotify(a, q, num) =>
        if a < |s.agents| && s.agents[a].Idle? { BecomeKeeps(s, a, Notify(q, Limit(num))); }
      case StartRequeue(a, q, dst, num) =>
        if a < |s.agents| && s.agents[a].Idle? && dst < |s.queues| { BecomeKeeps(s, a, Requeue(q, num, dst)); }
      case StartFire(a, t) =>
        if a < |s.agents| && s.agents[a].Idle? && t in s.heap { StartFireKeeps(s, a, t); }
      case Discard(t) => if t < |s.timers| && !s.timers[t].live { HeapKeeps(s, s.(heap := s.heap - {t})); }
      case Go(a) => if a < |s.agents| { GoKeeps(s, a); }
      case Resume(t) => ResumeKeeps(s, t);
    }
  }

  lemma {:induction false} NoneIn(qs: seq<seq<nat>>, gs: seq<Agent>, t: nat)
    requires (forall q :: 0 <= q < |qs| ==> qs[q] == []) && (forall a :: 0 <= a < |gs| ==> gs[a].Idle?)
    ensures InQueues(qs, t) == 0 && Carriers(gs, t) == 0 && Owners(gs, t) == 0
    decreases |qs| + |gs|
  {
    if qs == [] {
    } else {
      NoneIn(qs[1..], gs, t);
    }
    if gs == [] {
    } else {
      NoneIn(qs, gs[1..], t);
    }
  }

  lemma {:induction false} RunKeeps(queues: nat, agents: nat, moves: seq<Step>)
    ensures Inv(Run(Init(queues, agents), moves))
    decreases |moves|
  {
    hide Next;
    var s := Init(queues, agents);
    if moves == [] {
      forall t: nat
        ensures OneCallback(s, t) && OneQueue(s, t)
      {
        NoneIn(s.queues, s.agents, t);
      }
    } else {
      RunKeeps(queues, agents, moves[..|moves| - 1]);
      NextKeeps(Run(s, moves[..|moves| - 1]), moves[|moves| - 1]);
    }
  }

  // ----- what every run guarantees -----

  lemma {:induction false} WokenTwice(ws: seq<Wakeup>, i: nat, j: nat)
    requires i < j < |ws| && ws[i].t == ws[j].t
    ensures WokenTimes(ws, ws[i].t) > 1
  {
    if i == 0 { WokenAt(ws[1..], j - 1, ws[j].t); } else { WokenTwice(ws[1..], i - 1, j - 1); }
  }

  lemma {:induction false} FindWakeup(ws: seq<Wakeup>, t: nat) returns (i: nat)
    requires WokenTimes(ws, t) > 0
    ensures i < |ws| && ws[i].t == t
  {
    if ws[0].t == t {
      i := 0;
    } else {
      i := FindWakeup(ws[1..], t);
      i := i + 1;
    }
  }

  /** No blocking of a task is ended twice, however firing and cancelling interleave. */
  lemma WokenAtMostOnce(queues: nat, agents: nat, moves: seq<Step>, i: nat, j: nat)
    requires i < j < |Run(Init(queues, agents), moves).woken|
    ensures Run(Init(queues, agents), moves).woken[i].t != Run(Init(queues, agents), moves).woken[j].t
  {
    hide Run, Init;
    RunKeeps(queues, agents, moves);
    var s := Run(Init(queues, agents), moves);
    assert OneCallback(s, s.woken[i].t);
    if s.woken[i].t == s.woken[j].t { WokenTwice(s.woken, i, j); }
  }

  /** A wait reports success exactly when its one wakeup was a cancellation. */
  lemma WaitTells(queues: nat, agents: nat, moves: seq<Step>, t: nat)
    requires t in Run(Init(queues, agents), moves).results
    ensures var s := Run(Init(queues, agents), moves);
      && Wakeup(t, s.results[t]) in s.woken && Wakeup(t, !s.results[t]) !in s.woken
  {
    hide Run, Init;
    RunKeeps(queues, agents, moves);
    var s := Run(Init(queues, agents), moves);
    var i :| 0 <= i < |s.woken| && s.woken[i].t == t;
    assert s.woken[i] == Wakeup(t, s.results[t]);
  }

  /**
   Once every agent is done, each blocked task either still waits, in exactly one queue if it waits
   in any and in the clock's heap if it has a deadline, or has been woken. Nobody is lost: neither by
   moving between futexes nor by sleeping on a timeout alone.
   */
  lemma NobodyLost(queues: nat, agents: nat, moves: seq<Step>, t: nat)
    requires var s := Run(Init(queues, agents), moves);
      t < |s.timers| && forall a :: 0 <= a < |s.agents| ==> s.agents[a].Idle?
    ensures var s := Run(Init(queues, agents), moves);
      if s.timers[t].live
      then (s.timers[t].queued ==> InQueues(s.queues, t) == 1) && (s.timers[t].deadline.Some? ==> t in s.heap)
      else exists i :: 0 <= i < |s.woken| && s.woken[i].t == t
  {
    hide Run, Init;
    RunKeeps(queues, agents, moves);
    var s := Run(Init(queues, agents), moves);
    NoneIn([], s.agents, t);
    assert OneCallback(s, t) && OneQueue(s, t) && Clocked(s, t);
    if !s.timers[t].live {
      var i := FindWakeup(s.woken, t);
    }
  }

  /** What a wait has reported stays reported. */
  lemma {:induction false} ResultsStay(s: State, moves: seq<Step>, t: nat)
    requires t in s.results
    ensures t in Run(s, moves).results && Run(s, moves).results[t] == s.results[t]
    decreases |moves|
  {
    if moves == [] {
    } else {
      ResultsStay(s, moves[..|moves| - 1], t);
      ResultStays(Run(s, moves[..|moves| - 1]), moves[|moves| - 1], t);
    }
  }

  lemma ResultStays(s: State, m: Step, t: nat)
    requires t in s.results
    ensures t in Next(s, m).results && Next(s, m).results[t] == s.results[t]
  {
  }
}
