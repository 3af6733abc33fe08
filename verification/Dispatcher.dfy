/**
 The bounded completion queue behind asynchronous waits. Pushers and drainers take the pending lock,
 consumers pop the ready queue without it; every shared access is one atomic step.
 */
module Dispatcher {
  import opened Types

  type Word = bv64

  datatype Request = Request(key: nat, event: nat, mask: Word, edge: bool)

  /** Why requests are drained: `event` was cancelled or showed `signal`, perhaps right when waited for. */
  datatype Cause = Cause(event: nat, signal: Word, canceled: bool, onWait: bool)

  datatype Completion = Completion(cause: Cause, request: Request)

  /** What a CPU is in the middle of; the four of `Locked`, `Checked`, `Draining` and `Handing` hold the lock. */
  datatype Agent =
    | Idle
    | Keyed(req: Request)
    | Locked(req: Request)
    | Checked(req: Request, len: nat)
    | Wanting(cause: Cause)
    | Draining(cause: Cause, i: nat)
    | Handing(cause: Cause, i: nat, req: Request)

  datatype State = State(
    nextKey: nat,
    capacity: nat,
    pending: seq<Request>,
    ready: seq<Completion>,
    popped: seq<Completion>,
    accepted: set<nat>,
    refused: set<nat>,
    agents: seq<Agent>,
    fault: bool)

  datatype Move =
    | StartPush(a: nat, event: nat, mask: Word, edge: bool)
    | StartCancel(a: nat, event: nat, signal: Word)
    | StartNotify(a: nat, event: nat, signal: Word, onWait: bool)
    | Go(a: nat)
    | PopReady

  function Init(capacity: nat, agents: nat): State {
    State(1, capacity, [], [], [], {}, {}, seq(agents, _ => Idle), false)
  }

  /** The bits of the mask that the signal lacks. */
  function Lacking(mask: Word, signal: Word): Word { mask & !signal }

  predicate CanSignal(r: Request, signal: Word, onWait: bool) {
    if onWait && r.edge then false else Lacking(r.mask, signal) == 0
  }

  /** A cancellation ignores how the request is triggered. */
  predicate Matches(r: Request, c: Cause) {
    r.event == c.event && CanSignal(r, c.signal, !c.canceled && c.onWait)
  }

  /** Every bit of the mask is set in the signal. */
  predicate Covers(signal: Word, mask: Word) {
    Common(mask, signal) == mask
  }

  function Common(x: Word, y: Word): Word { x & y }

  function Either(x: Word, y: Word): Word { x | y }

  /** The cause is what the request waits for: its event, all its bits, and not just that it is being waited for. */
  predicate Meets(r: Request, c: Cause) {
    r.event == c.event && Covers(c.signal, r.mask) && !(r.edge && c.onWait && !c.canceled)
  }

  /** The test on the bits that are missing accepts exactly the requests whose bits are all there. */
  lemma MatchesIff(r: Request, c: Cause)
    ensures Matches(r, c) <==> Meets(r, c)
  {
    MissingBits(r.mask, c.signal);
    hide Lacking, Common, Either;
  }

  lemma MissingBits(mask: Word, signal: Word)
    ensures Lacking(mask, signal) == 0 <==> Common(mask, signal) == mask
  {
    hide Lacking, Common, Either;
    SplitWord(mask, signal);
    NoneBoth(mask, signal);
    OrZero(mask, signal);
  }

  lemma SplitWord(mask: Word, signal: Word)
    ensures Either(Common(mask, signal), Lacking(mask, signal)) == mask
  {
  }

  lemma NoneBoth(mask: Word, signal: Word)
    ensures Lacking(Common(mask, signal), signal) == 0
  {
  }

  lemma OrZero(mask: Word, signal: Word)
    ensures Either(Common(mask, signal), 0) == Common(mask, signal)
  {
  }

  predicate Locks(g: Agent) {
    g.Locked? || g.Checked? || g.Draining? || g.Handing?
  }

  predicate Free(s: State) {
    forall a :: 0 <= a < |s.agents| ==> !Locks(s.agents[a])
  }

  function Become(s: State, a: nat, g: Agent): State
    requires a < |s.agents|
  {
    s.(agents := s.agents[a := g])
  }

  /** Accepts or refuses, from the ready length read a moment ago; the subtraction must not underflow. */
  function Admit(s: State, a: nat, r: Request, len: nat): State
    requires a < |s.agents|
  {
    if len > s.capacity then s.(fault := true)
    else if |s.pending| >= s.capacity - len then Become(s, a, Idle).(refused := s.refused + {r.key})
    else Become(s, a, Idle).(pending := s.pending + [r], accepted := s.accepted + {r.key})
  }

  /** Looks at the next pending request: takes it out if it matches, else leaves it. */
  function Sift(s: State, a: nat, c: Cause, i: nat): State
    requires a < |s.agents|
  {
    if i >= |s.pending| then Become(s, a, Idle)
    else if Matches(s.pending[i], c) then
      Become(s, a, Handing(c, i, s.pending[i])).(pending := s.pending[..i] + s.pending[i + 1..])
    else Become(s, a, Draining(c, i + 1))
  }

  function DoGo(s: State, a: nat): State
    requires a < |s.agents|
  {
    match s.agents[a]
    case Idle => s
    case Keyed(r) => if Free(s) then Become(s, a, Locked(r)) else s
    case Locked(r) => Become(s, a, Checked(r, |s.ready|))
    case Checked(r, len) => Admit(s, a, r, len)
    case Wanting(c) => if Free(s) then Become(s, a, Draining(c, 0)) else s
    case Draining(c, i) => Sift(s, a, c, i)
    case Handing(c, i, r) => Become(s, a, Draining(c, i)).(ready := s.ready + [Completion(c, r)])
  }

  function Next(s: State, m: Move): State {
    match m
    case StartPush(a, event, mask, edge) =>
      if a < |s.agents| && s.agents[a].Idle? then
        Become(s, a, Keyed(Request(s.nextKey, event, mask, edge))).(nextKey := s.nextKey + 1)
      else s
    case StartCancel(a, event, signal) =>
      if a < |s.agents| && s.agents[a].Idle? then Become(s, a, Wanting(Cause(event, signal, true, false))) else s
    case StartNotify(a, event, signal, onWait) =>
      if a < |s.agents| && s.agents[a].Idle? && |s.ready| < s.capacity then
        Become(s, a, Wanting(Cause(event, signal, false, onWait)))
      else s
    case Go(a) => if a < |s.agents| then DoGo(s, a) else s
    case PopReady =>
      if s.ready == [] then s else s.(ready := s.ready[1..], popped := s.popped + [s.ready[0]])
  }

  function Run(s: State, moves: seq<Move>): State
    decreases |moves|
  {
    if moves == [] then s else Next(Run(s, moves[..|moves| - 1]), moves[|moves| - 1])
  }

  // ----- counting -----

  ghost function Requests(rs: seq<Request>, k: nat): nat {
    if rs == [] then 0 else One(rs[0].key == k) + Requests(rs[1..], k)
  }

  ghost function Completions(cs: seq<Completion>, k: nat): nat {
    if cs == [] then 0 else One(cs[0].request.key == k) + Completions(cs[1..], k)
  }

  /** The agent is moving request `k` from pending to ready. */
  predicate Hands(g: Agent, k: nat) {
    g.Handing? && g.req.key == k
  }

  /** The agent drew key `k` and does not know yet whether it is accepted. */
  predicate Offers(g: Agent, k: nat) {
    (g.Keyed? || g.Locked? || g.Checked?) && g.req.key == k
  }

  ghost function Handers(gs: seq<Agent>, k: nat): nat {
    if gs == [] then 0 else One(Hands(gs[0], k)) + Handers(gs[1..], k)
  }

  ghost function Offerers(gs: seq<Agent>, k: nat): nat {
    if gs == [] then 0 else One(Offers(gs[0], k)) + Offerers(gs[1..], k)
  }

  ghost function LockHolders(gs: seq<Agent>): nat {
    if gs == [] then 0 else One(Locks(gs[0])) + LockHolders(gs[1..])
  }

  ghost function InHand(gs: seq<Agent>): nat {
    if gs == [] then 0 else One(gs[0].Handing?) + InHand(gs[1..])
  }

  lemma {:induction false} AgentUpdate(gs: seq<Agent>, a: nat, g: Agent, k: nat)
    requires a < |gs|
    ensures Handers(gs[a := g], k) + One(Hands(gs[a], k)) == Handers(gs, k) + One(Hands(g, k))
    ensures Offerers(gs[a := g], k) + One(Offers(gs[a], k)) == Offerers(gs, k) + One(Offers(g, k))
  {
    if a == 0 {
      assert gs[0 := g][1..] == gs[1..];
    } else {
      AgentUpdate(gs[1..], a - 1, g, k);
      assert gs[a := g][1..] == gs[1..][a - 1 := g];
    }
  }

  lemma {:induction false} LockUpdate(gs: seq<Agent>, a: nat, g: Agent)
    requires a < |gs|
    ensures LockHolders(gs[a := g]) + One(Locks(gs[a])) == LockHolders(gs) + One(Locks(g))
    ensures InHand(gs[a := g]) + One(gs[a].Handing?) == InHand(gs) + One(g.Handing?)
  {
    if a == 0 {
      assert gs[0 := g][1..] == gs[1..];
    } else {
      LockUpdate(gs[1..], a - 1, g);
      assert gs[a := g][1..] == gs[1..][a - 1 := g];
    }
  }

  lemma {:induction false} LocksAt(gs: seq<Agent>, a: nat)
    requires a < |gs| && Locks(gs[a])
    ensures LockHolders(gs) > 0
  {
    if a == 0 {
    } else {
      LocksAt(gs[1..], a - 1);
    }
  }

  lemma {:induction false} TwoLocks(gs: seq<Agent>, a: nat, b: nat)
    requires a < b < |gs| && Locks(gs[a]) && Locks(gs[b])
    ensures LockHolders(gs) > 1
  {
    if a == 0 { LocksAt(gs[1..], b - 1); } else { TwoLocks(gs[1..], a - 1, b - 1); }
  }

  lemma {:induction false} NoLocks(gs: seq<Agent>)
    requires forall a :: 0 <= a < |gs| ==> !Locks(gs[a])
    ensures LockHolders(gs) == 0
  {
    if gs == [] {
    } else {
      NoLocks(gs[1..]);
    }
  }

  lemma {:induction false} RequestsConcat(a: seq<Request>, b: seq<Request>, k: nat)
    ensures Requests(a + b, k) == Requests(a, k) + Requests(b, k)
  {
    if a == [] {
      assert a + b == b;
    } else {
      RequestsConcat(a[1..], b, k);
      assert (a + b)[1..] == a[1..] + b;
    }
  }

  lemma {:induction false} CompletionsPush(a: seq<Completion>, c: Completion, k: nat)
    ensures Completions(a + [c], k) == Completions(a, k) + One(c.request.key == k)
  {
    if a == [] {
      assert a + [c] == [c];
    } else {
      CompletionsPush(a[1..], c, k);
      assert (a + [c])[1..] == a[1..] + [c];
    }
  }

  lemma RequestsRemove(rs: seq<Request>, i: nat, k: nat)
    requires i < |rs|
    ensures Requests(rs[..i] + rs[i + 1..], k) + One(rs[i].key == k) == Requests(rs, k)
  {
    RequestsConcat(rs[..i], rs[i + 1..], k);
    RequestsConcat(rs[..i], rs[i..], k);
    assert rs == rs[..i] + rs[i..];
    assert rs[i..][1..] == rs[i + 1..];
  }

  // ----- the invariant -----

  /** Every accepted key is pending, being moved, ready or popped: exactly one of them, once. */
  ghost predicate OnePlace(s: State, k: nat) {
    Requests(s.pending, k) + Handers(s.agents, k) + Completions(s.ready, k) + Completions(s.popped, k)
    == One(k in s.accepted)
  }

  /** Every key drawn so far is undecided, accepted or refused: exactly one of them. */
  ghost predicate OneFate(s: State, k: nat) {
    Offerers(s.agents, k) + One(k in s.accepted) + One(k in s.refused) == One(1 <= k < s.nextKey)
  }

  /** A completion answers a request whose event and mask its cause matches. */
  ghost predicate Answers(c: Completion) {
    Matches(c.request, c.cause)
  }

  ghost predicate AllAnswer(cs: seq<Completion>) {
    forall i :: 0 <= i < |cs| ==> Answers(cs[i])
  }

  /** While a pusher holds the lock, only consumers touch the ready queue, so it can only have shrunk. */
  ghost predicate AgentOk(s: State, g: Agent) {
    && (g.Checked? ==> |s.ready| <= g.len <= s.capacity)
    && (g.Handing? ==> Matches(g.req, g.cause))
  }

  ghost predicate Bounded(s: State) {
    |s.pending| + InHand(s.agents) + |s.ready| <= s.capacity
  }

  ghost predicate Inv(s: State) {
    && !s.fault && s.nextKey >= 1 && LockHolders(s.agents) <= 1 && Bounded(s)
    && (forall a :: 0 <= a < |s.agents| ==> AgentOk(s, s.agents[a]))
    && AllAnswer(s.ready) && AllAnswer(s.popped)
    && (forall k: nat :: OnePlace(s, k)) && (forall k: nat :: OneFate(s, k))
  }

  lemma {:induction false} HandsNeedLock(gs: seq<Agent>, a: nat)
    requires a < |gs|
    ensures InHand(gs) + One(Locks(gs[a]) && !gs[a].Handing?) <= LockHolders(gs)
  {
    if a > 0 {
      HandsNeedLock(gs[1..], a - 1);
    } else if |gs| > 1 {
      HandsNeedLock(gs[1..], 0);
    }
  }

  /** While `a` holds the lock nobody else does. */
  lemma SoleHolder(s: State, a: nat)
    requires Inv(s) && a < |s.agents| && Locks(s.agents[a])
    ensures forall b :: 0 <= b < |s.agents| && b != a ==> !Locks(s.agents[b])
    ensures !s.agents[a].Handing? ==> InHand(s.agents) == 0
  {
    forall b | 0 <= b < |s.agents| && b != a
      ensures !Locks(s.agents[b])
    {
      if Locks(s.agents[b]) { TwoLocks(s.agents, if a < b then a else b, if a < b then b else a); }
    }
    HandsNeedLock(s.agents, a);
  }

  // ----- every step keeps the invariant -----

  ghost predicate SameHands(g: Agent, h: Agent) {
    g.Handing? == h.Handing? && forall k: nat :: Hands(g, k) == Hands(h, k) && Offers(g, k) == Offers(h, k)
  }

  /** A change of mind that moves no request and respects the lock. */
  lemma BecomeKeeps(s: State, a: nat, g: Agent)
    requires Inv(s) && a < |s.agents| && AgentOk(s, g) && SameHands(s.agents[a], g)
    requires Locks(g) && !Locks(s.agents[a]) ==> Free(s)
    ensures Inv(Become(s, a, g))
  {
    hide Hands, Offers, Requests, Completions, Handers, Offerers, LockHolders, InHand, Locks;
    var s' := Become(s, a, g);
    LockUpdate(s.agents, a, g);
    if Free(s) { NoLocks(s.agents); }
    forall k: nat
      ensures OnePlace(s', k) && OneFate(s', k)
    {
      assert OnePlace(s, k) && OneFate(s, k);
      AgentUpdate(s.agents, a, g, k);
    }
  }

  lemma PushKeeps(s: State, a: nat, event: nat, mask: Word, edge: bool)
    requires Inv(s) && a < |s.agents| && s.agents[a].Idle?
    ensures Inv(Next(s, StartPush(a, event, mask, edge)))
  {
    hide Requests, Completions, Handers, Offerers, LockHolders, InHand;
    var s' := Next(s, StartPush(a, event, mask, edge));
    LockUpdate(s.agents, a, s'.agents[a]);
    forall k: nat
      ensures OnePlace(s', k) && OneFate(s', k)
    {
      assert OnePlace(s, k) && OneFate(s, k);
      AgentUpdate(s.agents, a, s'.agents[a], k);
    }
    assert forall b :: 0 <= b < |s.agents| ==> AgentOk(s, s.agents[b]) ==> AgentOk(s', s.agents[b]);
  }

  lemma AdmitCounts(s: State, a: nat, k: nat)
    requires a < |s.agents| && s.agents[a].Checked? && s.agents[a].len <= s.capacity && OnePlace(s, k) && OneFate(s, k)
    ensures var s' := Admit(s, a, s.agents[a].req, s.agents[a].len); OnePlace(s', k) && OneFate(s', k)
  {
    hide Requests, Completions, Handers, Offerers;
    var r := s.agents[a].req;
    AgentUpdate(s.agents, a, Idle, k);
    RequestsPush(s.pending, r, k);
    if r.key == k { OfferersAt(s.agents, a, k); }
  }

  lemma RequestsPush(rs: seq<Request>, r: Request, k: nat)
    ensures Requests(rs + [r], k) == Requests(rs, k) + One(r.key == k)
  {
    RequestsConcat(rs, [r], k);
    assert [r][1..] == [];
  }

  lemma {:induction false} OfferersAt(gs: seq<Agent>, a: nat, k: nat)
    requires a < |gs| && Offers(gs[a], k)
    ensures Offerers(gs, k) > 0
  {
    if a == 0 {
    } else {
      OfferersAt(gs[1..], a - 1, k);
    }
  }

  lemma AdmitKeeps(s: State, a: nat)
    requires Inv(s) && a < |s.agents| && s.agents[a].Checked?
    ensures Inv(Admit(s, a, s.agents[a].req, s.agents[a].len))
  {
    hide Requests, Completions, Handers, Offerers, LockHolders, InHand;
    var g := s.agents[a];
    var s' := Admit(s, a, g.req, g.len);
    assert AgentOk(s, g);
    SoleHolder(s, a);
    LockUpdate(s.agents, a, Idle);
    forall k: nat
      ensures OnePlace(s', k) && OneFate(s', k)
    {
      assert OnePlace(s, k) && OneFate(s, k);
      AdmitCounts(s, a, k);
    }
    assert forall b :: 0 <= b < |s.agents| ==> AgentOk(s, s.agents[b]) ==> AgentOk(s', s.agents[b]);
  }

  lemma TakeOutKeeps(s: State, a: nat)
    requires Inv(s) && a < |s.agents| && s.agents[a].Draining? && s.agents[a].i < |s.pending|
    requires Matches(s.pending[s.agents[a].i], s.agents[a].cause)
    ensures Inv(Sift(s, a, s.agents[a].cause, s.agents[a].i))
  {
    hide Requests, Completions, Handers, Offerers, LockHolders, InHand;
    var g := s.agents[a];
    var s' := Sift(s, a, g.cause, g.i);
    LockUpdate(s.agents, a, s'.agents[a]);
    forall k: nat
      ensures OnePlace(s', k) && OneFate(s', k)
    {
      assert OnePlace(s, k) && OneFate(s, k);
      AgentUpdate(s.agents, a, s'.agents[a], k);
      RequestsRemove(s.pending, g.i, k);
    }
    assert forall b :: 0 <= b < |s.agents| ==> AgentOk(s, s.agents[b]) ==> AgentOk(s', s.agents[b]);
  }

  lemma HandKeeps(s: State, a: nat)
    requires Inv(s) && a < |s.agents| && s.agents[a].Handing?
    ensures Inv(DoGo(s, a))
  {
    hide Requests, Completions, Handers, Offerers, LockHolders, InHand;
    var g := s.agents[a];
    var s' := DoGo(s, a);
    assert AgentOk(s, g);
    SoleHolder(s, a);
    LockUpdate(s.agents, a, s'.agents[a]);
    forall k: nat
      ensures OnePlace(s', k) && OneFate(s', k)
    {
      assert OnePlace(s, k) && OneFate(s, k);
      AgentUpdate(s.agents, a, s'.agents[a], k);
      CompletionsPush(s.ready, Completion(g.cause, g.req), k);
    }
    forall b | 0 <= b < |s'.agents|
      ensures AgentOk(s', s'.agents[b])
    {
      if b != a { assert AgentOk(s, s.agents[b]) && !Locks(s.agents[b]); }
    }
  }

  lemma PopKeeps(s: State)
    requires Inv(s) && s.ready != []
    ensures Inv(Next(s, PopReady))
  {
    hide Requests, Handers, Offerers, LockHolders, InHand;
    var s' := Next(s, PopReady);
    forall k: nat
      ensures OnePlace(s', k) && OneFate(s', k)
    {
      assert OnePlace(s, k) && OneFate(s, k);
      CompletionsPush(s.popped, s.ready[0], k);
    }
    assert forall b :: 0 <= b < |s.agents| ==> AgentOk(s, s.agents[b]) ==> AgentOk(s', s.agents[b]);
    assert Answers(s.ready[0]);
  }

  lemma GoKeeps(s: State, a: nat)
    requires Inv(s) && a < |s.agents|
    ensures Inv(DoGo(s, a))
  {
    assert AgentOk(s, s.agents[a]);
    match s.agents[a] {
      case Idle =>
      case Keyed(r) => if Free(s) { BecomeKeeps(s, a, Locked(r)); }
      case Locked(r) => BecomeKeeps(s, a, Checked(r, |s.ready|));
      case Checked(r, len) => AdmitKeeps(s, a);
      case Wanting(c) => if Free(s) { BecomeKeeps(s, a, Draining(c, 0)); }
      case Draining(c, i) =>
        if i >= |s.pending| { BecomeKeeps(s, a, Idle); }
        else if Matches(s.pending[i], c) { TakeOutKeeps(s, a); }
        else { BecomeKeeps(s, a, Draining(c, i + 1)); }
      case Handing(c, i, r) => HandKeeps(s, a);
    }
  }

  lemma NextKeeps(s: State, m: Move)
    requires Inv(s)
    ensures Inv(Next(s, m))
  {
    hide Inv, DoGo;
    match m {
      case StartPush(a, event, mask, edge) =>
        if a < |s.agents| && s.agents[a].Idle? { PushKeeps(s, a, event, mask, edge); }
      case StartCancel(a, event, signal) =>
        if a < |s.agents| && s.agents[a].Idle? { BecomeKeeps(s, a, Wanting(Cause(event, signal, true, false))); }
      case StartNotify(a, event, signal, onWait) =>
        if a < |s.agents| && s.agents[a].Idle? { BecomeKeeps(s, a, Wanting(Cause(event, signal, false, onWait))); }
      case Go(a) => if a < |s.agents| { GoKeeps(s, a); }
      case PopReady => if s.ready != [] { PopKeeps(s); }
    }
  }

  lemma {:induction false} AllIdle(gs: seq<Agent>, k: nat)
    requires forall a :: 0 <= a < |gs| ==> gs[a].Idle?
    ensures Handers(gs, k) == Offerers(gs, k) == LockHolders(gs) == InHand(gs) == 0
  {
    if gs == [] {
    } else {
      AllIdle(gs[1..], k);
    }
  }

  lemma {:induction false} RunKeeps(capacity: nat, agents: nat, moves: seq<Move>)
    ensures Inv(Run(Init(capacity, agents), moves))
    decreases |moves|
  {
    hide Next;
    var s := Init(capacity, agents);
    if moves == [] {
      AllIdle(s.agents, 0);
      forall k: nat
        ensures OnePlace(s, k) && OneFate(s, k)
      {
        AllIdle(s.agents, k);
      }
    } else {
      RunKeeps(capacity, agents, moves[..|moves| - 1]);
      NextKeeps(Run(s, moves[..|moves| - 1]), moves[|moves| - 1]);
    }
  }

  // ----- what every run guarantees -----

  /** Pending and ready requests never exceed the capacity, and the free room is never negative when computed. */
  lemma NeverOverfull(capacity: nat, agents: nat, moves: seq<Move>)
    ensures var s := Run(Init(capacity, agents), moves);
      && !s.fault && s.capacity == capacity && |s.pending| + |s.ready| <= capacity
      && forall a :: 0 <= a < |s.agents| && s.agents[a].Checked? ==> s.agents[a].len <= capacity
  {
    RunKeeps(capacity, agents, moves);
    CapacityStays(Init(capacity, agents), moves);
    hide Run;
    var s := Run(Init(capacity, agents), moves);
    forall a | 0 <= a < |s.agents| && s.agents[a].Checked?
      ensures s.agents[a].len <= s.capacity
    {
      assert AgentOk(s, s.agents[a]);
    }
  }

  lemma {:induction false} CapacityStays(s: State, moves: seq<Move>)
    ensures Run(s, moves).capacity == s.capacity && Run(s, moves).accepted >= s.accepted
    decreases |moves|
  {
    hide Next;
    if moves == [] {
    } else {
      CapacityStays(s, moves[..|moves| - 1]);
      StepStays(Run(s, moves[..|moves| - 1]), moves[|moves| - 1]);
    }
  }

  lemma StepStays(s: State, m: Move)
    ensures Next(s, m).capacity == s.capacity && Next(s, m).accepted >= s.accepted
  {
  }

  lemma {:induction false} CompletedTwice(cs: seq<Completion>, i: nat, j: nat)
    requires i < j < |cs| && cs[i].request.key == cs[j].request.key
    ensures Completions(cs, cs[i].request.key) > 1
  {
    if i == 0 { CompletedAt(cs[1..], j - 1); } else { CompletedTwice(cs[1..], i - 1, j - 1); }
  }

  lemma {:induction false} CompletedAt(cs: seq<Completion>, i: nat)
    requires i < |cs|
    ensures Completions(cs, cs[i].request.key) > 0
  {
    if i == 0 {
    } else {
      CompletedAt(cs[1..], i - 1);
    }
  }

  /** No key is handed to a consumer twice, and every key handed out had been accepted. */
  lemma PoppedOnce(capacity: nat, agents: nat, moves: seq<Move>, i: nat, j: nat)
    requires i < j < |Run(Init(capacity, agents), moves).popped|
    ensures var s := Run(Init(capacity, agents), moves);
      && s.popped[i].request.key != s.popped[j].request.key
      && s.popped[i].request.key in s.accepted && s.popped[j].request.key in s.accepted
  {
    hide Run, Init;
    RunKeeps(capacity, agents, moves);
    var s := Run(Init(capacity, agents), moves);
    assert OnePlace(s, s.popped[i].request.key) && OnePlace(s, s.popped[j].request.key);
    CompletedAt(s.popped, i);
    CompletedAt(s.popped, j);
    if s.popped[i].request.key == s.popped[j].request.key { CompletedTwice(s.popped, i, j); }
  }

  /** Between drains every accepted key is in exactly one of pending, ready and popped, exactly once. */
  lemma OneOfThree(capacity: nat, agents: nat, moves: seq<Move>, k: nat)
    requires var s := Run(Init(capacity, agents), moves);
      k in s.accepted && forall a :: 0 <= a < |s.agents| ==> !s.agents[a].Handing?
    ensures var s := Run(Init(capacity, agents), moves);
      Requests(s.pending, k) + Completions(s.ready, k) + Completions(s.popped, k) == 1
  {
    hide Run, Init;
    RunKeeps(capacity, agents, moves);
    var s := Run(Init(capacity, agents), moves);
    assert OnePlace(s, k);
    NoHands(s.agents, k);
  }

  lemma {:induction false} NoHands(gs: seq<Agent>, k: nat)
    requires forall a :: 0 <= a < |gs| ==> !gs[a].Handing?
    ensures Handers(gs, k) == 0
  {
    if gs == [] {
    } else {
      NoHands(gs[1..], k);
    }
  }

  /**
   What a consumer is told: the event is the one asked about, its recorded signal has every bit of the
   requested mask, and an edge-triggered request never completes just because it was waited for.
   */
  lemma SignalCovers(capacity: nat, agents: nat, moves: seq<Move>, i: nat)
    requires i < |Run(Init(capacity, agents), moves).popped|
    ensures var c := Run(Init(capacity, agents), moves).popped[i];
      && c.cause.event == c.request.event && Covers(c.cause.signal, c.request.mask)
      && (c.request.edge && !c.cause.canceled ==> !c.cause.onWait) && Meets(c.request, c.cause)
  {
    hide Run, Init, Covers;
    RunKeeps(capacity, agents, moves);
    var c := Run(Init(capacity, agents), moves).popped[i];
    assert Answers(c) by { hide Matches; }
    MatchesIff(c.request, c.cause);
  }

  /** Consumers see completions in the order they were made, whatever else goes on. */
  ghost function Made(s: State): seq<Completion> {
    s.popped + s.ready
  }

  lemma {:induction false} PopsFollowCompletions(s: State, moves: seq<Move>)
    ensures Made(s) <= Made(Run(s, moves))
    decreases |moves|
  {
    if moves == [] {
    } else {
      PopsFollowCompletions(s, moves[..|moves| - 1]);
      MadeGrows(Run(s, moves[..|moves| - 1]), moves[|moves| - 1]);
    }
  }

  lemma MadeGrows(s: State, m: Move)
    ensures Made(s) <= Made(Next(s, m))
  {
  }

  // ----- the operations as they run undisturbed -----

  datatype Refusal = NoSpace

  /** The requests a drain leaves, in order. */
  ghost function Left(rs: seq<Request>, c: Cause): seq<Request> {
    if rs == [] then []
    else if Matches(rs[|rs| - 1], c) then Left(rs[..|rs| - 1], c)
    else Left(rs[..|rs| - 1], c) + [rs[|rs| - 1]]
  }

  /** What a drain completes, in order. */
  ghost function Done(rs: seq<Request>, c: Cause): seq<Completion> {
    if rs == [] then []
    else if Matches(rs[|rs| - 1], c) then Done(rs[..|rs| - 1], c) + [Completion(c, rs[|rs| - 1])]
    else Done(rs[..|rs| - 1], c)
  }

  /** A drain splits the pending requests: none is dropped or doubled. */
  lemma {:induction false} DrainSplits(rs: seq<Request>, c: Cause, k: nat)
    ensures Requests(Left(rs, c), k) + Completions(Done(rs, c), k) == Requests(rs, k)
    ensures |Left(rs, c)| + |Done(rs, c)| == |rs|
  {
    if rs == [] {
    } else {
      var n := |rs| - 1;
      DrainSplits(rs[..n], c, k);
      assert rs == rs[..n] + [rs[n]];
      RequestsPush(rs[..n], rs[n], k);
      RequestsPush(Left(rs[..n], c), rs[n], k);
      CompletionsPush(Done(rs[..n], c), Completion(c, rs[n]), k);
    }
  }

  class Queue {
    const capacity: nat
    var nextKey: nat
    var pending: seq<Request>
    var ready: seq<Completion>

    ghost predicate Valid()
      reads this
    {
      |pending| + |ready| <= capacity
    }

    constructor (capacity: nat)
      ensures Valid() && this.capacity == capacity && pending == [] && ready == [] && nextKey == 1
    {
      this.capacity := capacity;
      nextKey, pending, ready := 1, [], [];
    }

    /** Accepts exactly when there is room, under a fresh key either way. */
    method Push(event: nat, mask: Word, edge: bool) returns (r: Result<nat, Refusal>)
      requires Valid()
      modifies this`nextKey, this`pending
      ensures Valid() && nextKey == old(nextKey) + 1
      ensures r == if old(|pending|) + |ready| < capacity then Ok(old(nextKey)) else Err(NoSpace)
      ensures pending == if r.Ok? then old(pending) + [Request(r.value, event, mask, edge)] else old(pending)
    {
      var key := nextKey;
      nextKey := nextKey + 1;
      if |pending| >= capacity - |ready| { return Err(NoSpace); }
      pending := pending + [Request(key, event, mask, edge)];
      r := Ok(key);
    }

    method Pop() returns (r: Option<Completion>)
      requires Valid()
      modifies this`ready
      ensures Valid() && (r.None? <==> old(ready) == [])
      ensures old(ready) == (if r.Some? then [r.value] else []) + ready
    {
      if ready == [] { return None; }
      r := Some(ready[0]);
      ready := ready[1..];
    }

    /**
     Completes the requests whose event and bits are there, in order, and keeps the others, in order;
     reports whether it completed any and whether any are left.
     */
    method Drain(c: Cause) returns (some: bool, empty: bool)
      requires Valid()
      modifies this`pending, this`ready
      ensures Valid() && pending == Left(old(pending), c) && ready == old(ready) + Done(old(pending), c)
      ensures (some <==> Done(old(pending), c) != []) && (empty <==> pending == [])
      ensures forall i :: 0 <= i < |pending| ==> !Meets(pending[i], c)
      ensures forall i :: |old(ready)| <= i < |ready| ==> ready[i].cause == c && Meets(ready[i].request, c)
    {
      hide Matches, Meets;
      some := false;
      ghost var done := ready;
      var was := pending;
      var kept: seq<Request> := [];
      for i := 0 to |was|
        invariant kept == Left(was[..i], c) && ready == done + Done(was[..i], c)
        invariant some <==> Done(was[..i], c) != []
      {
        assert was[..i + 1][..i] == was[..i];
        if Matches(was[i], c) {
          ready := ready + [Completion(c, was[i])];
          some := true;
        } else {
          kept := kept + [was[i]];
        }
      }
      assert was[..|was|] == was;
      DrainSplits(was, c, 0);
      DrainDecides(was, c);
      pending := kept;
      empty := pending == [];
    }
  }

  /** A drain leaves no request its cause meets, and completes only such. */
  lemma {:induction false} DrainDecides(rs: seq<Request>, c: Cause)
    ensures forall i :: 0 <= i < |Left(rs, c)| ==> !Meets(Left(rs, c)[i], c)
    ensures forall i :: 0 <= i < |Done(rs, c)| ==> Done(rs, c)[i].cause == c && Meets(Done(rs, c)[i].request, c)
  {
    hide Matches, Meets;
    if rs == [] {
    } else {
      DrainDecides(rs[..|rs| - 1], c);
      MatchesIff(rs[|rs| - 1], c);
    }
  }
}
