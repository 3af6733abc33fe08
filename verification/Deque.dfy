/**
 The FIFO work-stealing queue: one owner that pushes, pops and resizes, and any
 number of stealers, interleaved at the granularity of single loads, stores and
 read-modify-writes of the shared `front`, `back`, `buffer` and buffer cells.

 `Step` advances one thread by one shared access.  `pushed` and `claims` are
 history: the tasks in the order their push took effect, and the hand-outs in the
 order `front` was advanced, each with the task value its taker actually read.
 */
module Deque {
  import opened Types
  import opened Bits

  const MIN_CAP: nat := 64

  /** Cells that were never written hold `None`. */
  type Buffer<T> = cells: seq<Option<T>> | |cells| > 0 witness [None]

  function Slot(i: nat, cap: nat): (s: nat)
    requires cap > 0
    ensures s < cap
  {
    And(i, cap - 1)
  }

  function Read<T>(buf: Buffer<T>, i: nat): Option<T> {
    buf[Slot(i, |buf|)]
  }

  function Write<T>(buf: Buffer<T>, i: nat, x: Option<T>): (r: Buffer<T>)
    ensures |r| == |buf|
  {
    buf[Slot(i, |buf|) := x]
  }

  function Alloc<T>(cap: nat): (buf: Buffer<T>)
    requires cap > 0
    ensures |buf| == cap
  {
    seq(cap, _ => None)
  }

  /** What the owner does once a resize is over. */
  datatype Then<T> = ThenPush(task: T, b: nat) | ThenPop(n: nat, got: Option<T>)

  datatype Owner<T> =
    | Ready                                       // last call was a push, or none yet
    | Popped(n: nat, got: Option<T>)              // last call was a pop, the n-th hand-out
    | PoppedNone(wasEmpty: bool)                  // last call was a pop that found nothing
    | PushLoadFront(task: T, b: nat)
    | PushWrite(task: T, b: nat)
    | PushStore(task: T, b: nat)
    | PopLoadFront(b: nat)
    | PopFetchAdd(b: nat, len: int)
    | PopRestore(f: nat)
    | PopRead(f: nat, len: int)
    | ResizeLoadBack(cap: nat, cont: Then<T>)
    | ResizeLoadFront(cap: nat, b: nat, cont: Then<T>)
    | ResizeCopy(i: nat, b: nat, copy: Buffer<T>, cont: Then<T>)

  datatype Stealer<T> =
    | Rest
    | Stole(n: nat, task: Option<T>)              // the n-th hand-out
    | StoleNone(wasEmpty: bool)
    | Retry
    | LoadBack(f: nat, wasEmpty: bool)            // `wasEmpty`: history, recorded as `front` is loaded
    | LoadBuffer(f: nat)
    | ReadCell(f: nat, id: nat)
    | Recheck(f: nat, id: nat, task: Option<T>)
    | Cas(f: nat, task: Option<T>)

  /** `buffer` is the live buffer; the one with identity `i` is `retired[i]` once replaced. */
  datatype State<T> = State(
    front: nat,
    back: nat,
    buffer: Buffer<T>,
    retired: seq<Buffer<T>>,
    owner: Owner<T>,
    stealers: seq<Stealer<T>>,
    pushed: seq<T>,
    claims: seq<Option<T>>)

  datatype Move<T> = Push(task: T) | Pop | Go | Steal(thief: nat)

  function Init<T>(thieves: nat): State<T> {
    State(0, 0, Alloc(MIN_CAP), [], Ready, seq(thieves, _ => Rest), [], [])
  }

  predicate AtRest<T>(o: Owner<T>) {
    o.Ready? || o.Popped? || o.PoppedNone?
  }

  function BufferOf<T>(s: State<T>, id: nat): Buffer<T> {
    if id < |s.retired| then s.retired[id] else s.buffer
  }

  /** Every pushed task has been handed out. */
  predicate Drained<T>(s: State<T>) {
    |s.claims| == |s.pushed|
  }

  function Step<T>(s: State<T>, m: Move<T>): State<T> {
    match m
    case Push(task) => if AtRest(s.owner) then s.(owner := PushLoadFront(task, s.back)) else s
    case Pop => if AtRest(s.owner) then s.(owner := PopLoadFront(s.back)) else s
    case Go => OwnerStep(s)
    case Steal(t) => if t < |s.stealers| then StealStep(s, t) else s
  }

  function OwnerStep<T>(s: State<T>): State<T> {
    match s.owner
    case PushLoadFront(task, b) =>
      if b - s.front >= |s.buffer|
      then s.(owner := ResizeLoadBack(2 * |s.buffer|, ThenPush(task, b)))
      else s.(owner := PushWrite(task, b))
    case PushWrite(task, b) =>
      s.(buffer := Write(s.buffer, b, Some(task)), owner := PushStore(task, b))
    case PushStore(task, b) =>
      s.(back := b + 1, pushed := s.pushed + [task], owner := Ready)
    case PopLoadFront(b) =>
      var len := b - s.front;
      if len <= 0 then s.(owner := PoppedNone(Drained(s))) else s.(owner := PopFetchAdd(b, len))
    case PopFetchAdd(b, len) =>
      var f := s.front;
      if b - (f + 1) < 0
      then s.(front := f + 1, owner := PopRestore(f))
      else s.(front := f + 1, claims := s.claims + [None], owner := PopRead(f, len))
    case PopRestore(f) => s.(front := f, owner := PoppedNone(Drained(s)))
    case PopRead(f, len) =>
      var task := Read(s.buffer, f);
      var s' := if f < |s.claims| then s.(claims := s.claims[f := task]) else s;
      if |s.buffer| > MIN_CAP && len <= |s.buffer| / 4
      then s'.(owner := ResizeLoadBack(|s.buffer| / 2, ThenPop(f, task)))
      else s'.(owner := Popped(f, task))
    case ResizeLoadBack(cap, cont) => s.(owner := ResizeLoadFront(cap, s.back, cont))
    case ResizeLoadFront(cap, b, cont) =>
      if cap == 0 then s else s.(owner := ResizeCopy(s.front, b, Alloc(cap), cont))
    case ResizeCopy(i, b, copy, cont) =>
      if i != b
      then s.(owner := ResizeCopy(i + 1, b, Write(copy, i, Read(s.buffer, i)), cont))
      else s.(buffer := copy,
              retired := s.retired + [s.buffer],
              owner := match cont
              case ThenPush(task, b') => PushWrite(task, b')
              case ThenPop(n, got) => Popped(n, got))
    case _ => s
  }

  function StealStep<T>(s: State<T>, t: nat): State<T>
    requires t < |s.stealers|
  {
    match s.stealers[t]
    case LoadBack(f, wasEmpty) =>
      if s.back - f <= 0 then At(s, t, StoleNone(wasEmpty)) else At(s, t, LoadBuffer(f))
    case LoadBuffer(f) => At(s, t, ReadCell(f, |s.retired|))
    case ReadCell(f, id) => At(s, t, Recheck(f, id, Read(BufferOf(s, id), f)))
    case Recheck(f, id, task) => if id != |s.retired| then At(s, t, Retry) else At(s, t, Cas(f, task))
    case Cas(f, task) =>
      if s.front != f then At(s, t, Retry)
      else At(s.(front := f + 1, claims := s.claims + [task]), t, Stole(|s.claims|, task))
    case _ => At(s, t, LoadBack(s.front, Drained(s)))
  }

  function At<T>(s: State<T>, t: nat, pc: Stealer<T>): State<T>
    requires t < |s.stealers|
  {
    s.(stealers := s.stealers[t := pc])
  }

  function Run<T>(s: State<T>, moves: seq<Move<T>>): State<T>
    decreases |moves|
  {
    if moves == [] then s else Run(Step(s, moves[0]), moves[1..])
  }

  // ---------------------------------------------------------------- invariant

  /** `buf` holds the pushed tasks numbered `lo..hi`. */
  ghost predicate Holds<T>(buf: Buffer<T>, pushed: seq<T>, lo: nat, hi: nat) {
    hi <= |pushed| && forall i :: lo <= i < hi ==> Read(buf, i) == Some(pushed[i])
  }

  ghost predicate SharedInv<T>(s: State<T>) {
    && IsPow2(|s.buffer|)
    && s.back == |s.pushed|
    && |s.claims| <= s.back <= |s.claims| + |s.buffer|
    && s.front == (if s.owner.PopRestore? then s.back + 1 else |s.claims|)
    && Holds(s.buffer, s.pushed, |s.claims|, s.back)
  }

  /** Claim `i` carries exactly task `i`, unless the owner is about to read it. */
  ghost predicate ClaimsInv<T>(s: State<T>) {
    forall i :: 0 <= i < |s.claims| <= |s.pushed| ==>
      s.claims[i] == (if s.owner.PopRead? && s.owner.f == i then None else Some(s.pushed[i]))
  }

  /** `got` is the `n`-th pushed task, and hand-out `n` has taken place. */
  ghost predicate HandedOut<T>(s: State<T>, n: nat, got: Option<T>) {
    n < |s.claims| <= |s.pushed| && got == Some(s.pushed[n])
  }

  ghost predicate ThenInv<T>(s: State<T>, cont: Then<T>, cap: nat) {
    && IsPow2(cap)
    && s.back <= |s.claims| + cap
    && (cont.ThenPush? ==> cont.b == s.back && s.back < |s.claims| + cap)
    && (cont.ThenPop? ==> HandedOut(s, cont.n, cont.got))
  }

  ghost predicate OwnerInv<T>(s: State<T>) {
    match s.owner
    case Ready => true
    case Popped(n, got) => HandedOut(s, n, got)
    case PoppedNone(wasEmpty) => wasEmpty
    case PushLoadFront(_, b) => b == s.back
    case PushWrite(_, b) => b == s.back && s.back < |s.claims| + |s.buffer|
    case PushStore(task, b) =>
      b == s.back && s.back < |s.claims| + |s.buffer| && Read(s.buffer, b) == Some(task)
    case PopLoadFront(b) => b == s.back
    case PopFetchAdd(b, len) => b == s.back && s.back - |s.claims| <= len
    case PopRestore(f) => f == s.back && Drained(s)
    case PopRead(f, len) =>
      && s.back - |s.claims| <= len && f < |s.claims| <= |s.pushed|
      && Read(s.buffer, f) == Some(s.pushed[f])
    case ResizeLoadBack(cap, cont) => ThenInv(s, cont, cap)
    case ResizeLoadFront(cap, b, cont) => ThenInv(s, cont, cap) && b == s.back
    case ResizeCopy(i, b, copy, cont) =>
      && ThenInv(s, cont, |copy|) && b == s.back && i <= b
      && exists lo: nat :: CopyInv(s, lo, i, copy)
  }

  /** The copy started at `lo`, when `front` was `lo`, and has reached `i`. */
  ghost predicate CopyInv<T>(s: State<T>, lo: nat, i: nat, copy: Buffer<T>) {
    && lo <= |s.claims| && lo <= i <= s.back <= lo + |copy|
    && Holds(s.buffer, s.pushed, lo, s.back)
    && Holds(copy, s.pushed, lo, i)
  }

  ghost predicate StealerInv<T>(s: State<T>, pc: Stealer<T>) {
    match pc
    case Stole(n, task) => HandedOut(s, n, task)
    case StoleNone(wasEmpty) => wasEmpty
    case LoadBack(f, wasEmpty) => !wasEmpty ==> f < s.back
    case LoadBuffer(f) => f < s.back
    case ReadCell(f, id) => f < s.back && id <= |s.retired|
    case Recheck(f, id, task) =>
      && f < s.back == |s.pushed| && id <= |s.retired|
      && (id == |s.retired| && |s.claims| <= f ==> task == Some(s.pushed[f]))
    case Cas(f, task) =>
      f < s.back == |s.pushed| && (|s.claims| <= f ==> task == Some(s.pushed[f]))
    case _ => true
  }

  ghost predicate Inv<T>(s: State<T>) {
    && SharedInv(s) && ClaimsInv(s) && OwnerInv(s)
    && forall t :: 0 <= t < |s.stealers| ==> StealerInv(s, s.stealers[t])
  }

  lemma SlotInWindow(i: nat, j: nat, cap: nat)
    requires IsPow2(cap) && i < j < i + cap
    ensures Slot(i, cap) != Slot(j, cap)
  {
    MaskIsMod(i, cap);
    MaskIsMod(j, cap);
    DistinctMod(i, j, cap);
  }

  lemma DistinctMod(i: nat, j: nat, d: nat)
    requires i < j < i + d
    ensures i % d != j % d
  {
    if i % d == j % d {
      var x := j / d - i / d;
      assert j - i == d * x by {
        assert d * x == d * (j / d) - d * (i / d);
      }
      if x >= 1 { MulAtLeast(d, x); }
    }
  }

  /** Writing cell `j` keeps every task of the window that ends at `j`. */
  lemma WriteKeeps<T>(buf: Buffer<T>, pushed: seq<T>, lo: nat, hi: nat, j: nat, x: Option<T>)
    requires IsPow2(|buf|) && Holds(buf, pushed, lo, hi) && lo <= hi <= j < lo + |buf|
    ensures Holds(Write(buf, j, x), pushed, lo, hi)
    ensures Read(Write(buf, j, x), j) == x
  {
    forall i | lo <= i < hi
      ensures Read(Write(buf, j, x), i) == Some(pushed[i])
    {
      SlotInWindow(i, j, |buf|);
    }
  }

  // ------------------------------------------------------------- preservation

  lemma PushKeeps<T>(s: State<T>)
    requires Inv(s) && (s.owner.PushLoadFront? || s.owner.PushWrite? || s.owner.PushStore?)
    ensures Inv(OwnerStep(s))
  {
    var s' := OwnerStep(s);
    if s.owner.PushWrite? {
      WriteKeeps(s.buffer, s.pushed, |s.claims|, s.back, s.owner.b, Some(s.owner.task));
    }
    StealersKeep(s, s');
  }

  lemma PopKeeps<T>(s: State<T>)
    requires Inv(s)
    requires s.owner.PopLoadFront? || s.owner.PopFetchAdd? || s.owner.PopRestore? || s.owner.PopRead?
    ensures Inv(OwnerStep(s))
  {
    StealersKeep(s, OwnerStep(s));
  }

  lemma ResizeStartKeeps<T>(s: State<T>)
    requires Inv(s) && (s.owner.ResizeLoadBack? || s.owner.ResizeLoadFront?)
    ensures Inv(OwnerStep(s))
  {
    var s' := OwnerStep(s);
    if s.owner.ResizeLoadFront? {
      assert CopyInv(s', s.front, s.front, s'.owner.copy);
    }
    StealersKeep(s, s');
  }

  lemma ResizeCopyKeeps<T>(s: State<T>)
    requires Inv(s) && s.owner.ResizeCopy?
    ensures Inv(OwnerStep(s))
  {
    var s' := OwnerStep(s);
    var lo: nat :| CopyInv(s, lo, s.owner.i, s.owner.copy);
    if s.owner.i != s.owner.b {
      WriteKeeps(s.owner.copy, s.pushed, lo, s.owner.i, s.owner.i, Read(s.buffer, s.owner.i));
      assert CopyInv(s', lo, s'.owner.i, s'.owner.copy);
    }
    StealersKeep(s, s');
  }

  /** What a stealer has seen stays true while `back`, `claims` and `retired` only grow. */
  lemma StealersKeep<T>(s: State<T>, s': State<T>)
    requires SharedInv(s) && s'.stealers == s.stealers
    requires s.pushed <= s'.pushed && s'.back == |s'.pushed|
    requires |s.claims| <= |s'.claims| <= |s'.pushed| && |s.retired| <= |s'.retired|
    requires forall t :: 0 <= t < |s.stealers| ==> StealerInv(s, s.stealers[t])
    ensures forall t :: 0 <= t < |s'.stealers| ==> StealerInv(s', s'.stealers[t])
  {
    forall t | 0 <= t < |s'.stealers|
      ensures StealerInv(s', s'.stealers[t])
    {
      assert StealerInv(s, s.stealers[t]);
    }
  }

  /** A stealer's own step keeps what it has seen. */
  lemma ThiefKeeps<T>(s: State<T>, t: nat)
    requires SharedInv(s) && t < |s.stealers| && StealerInv(s, s.stealers[t])
    requires s.owner.PopRestore? ==> Drained(s)
    ensures StealerInv(StealStep(s, t), StealStep(s, t).stealers[t])
  {
  }

  /** A successful exchange hands out exactly the task the thief read. */
  lemma ClaimKeeps<T>(s: State<T>, t: nat)
    requires SharedInv(s) && ClaimsInv(s) && t < |s.stealers| && StealerInv(s, s.stealers[t])
    requires s.owner.PopRead? ==> s.owner.f < |s.claims|
    ensures SharedInv(StealStep(s, t)) && ClaimsInv(StealStep(s, t))
  {
    var pc := s.stealers[t];
    if pc.Cas? && pc.f == s.front {
      assert pc.f == |s.claims|;
    }
  }

  /** The owner's view survives any step that only claims tasks. */
  lemma OwnerSurvives<T>(s: State<T>, s': State<T>)
    requires SharedInv(s) && OwnerInv(s)
    requires s' == s.(front := s'.front, claims := s'.claims, stealers := s'.stealers)
    requires |s.claims| <= |s'.claims| <= |s.pushed|
    ensures OwnerInv(s')
  {
    if s.owner.ResizeCopy? {
      var lo: nat :| CopyInv(s, lo, s.owner.i, s.owner.copy);
      assert CopyInv(s', lo, s.owner.i, s.owner.copy);
    }
  }

  lemma StealKeeps<T>(s: State<T>, t: nat)
    requires Inv(s) && t < |s.stealers|
    ensures Inv(StealStep(s, t))
  {
    var s' := StealStep(s, t);
    assert StealerInv(s, s.stealers[t]);
    ThiefKeeps(s, t);
    ClaimKeeps(s, t);
    OwnerSurvives(s, s');
    forall u | 0 <= u < |s'.stealers|
      ensures StealerInv(s', s'.stealers[u])
    {
      if u != t {
        assert StealerInv(s, s.stealers[u]);
        assert s'.stealers[u] == s.stealers[u];
      }
    }
  }

  lemma StepKeeps<T>(s: State<T>, m: Move<T>)
    requires Inv(s)
    ensures Inv(Step(s, m))
  {
    match m
    case Push(_) => StealersKeep(s, Step(s, m));
    case Pop => StealersKeep(s, Step(s, m));
    case Go =>
      if s.owner.PushLoadFront? || s.owner.PushWrite? || s.owner.PushStore? {
        PushKeeps(s);
      } else if s.owner.PopLoadFront? || s.owner.PopFetchAdd? || s.owner.PopRestore? || s.owner.PopRead? {
        PopKeeps(s);
      } else if s.owner.ResizeLoadBack? || s.owner.ResizeLoadFront? {
        ResizeStartKeeps(s);
      } else if s.owner.ResizeCopy? {
        ResizeCopyKeeps(s);
      }
    case Steal(t) => if t < |s.stealers| { StealKeeps(s, t); }
  }

  lemma InitInv<T>(thieves: nat)
    ensures Inv(Init<T>(thieves))
  {
    assert IsPow2(64) by { assert IsPow2(32) by { assert IsPow2(16) by { assert IsPow2(8); } } }
  }

  lemma {:induction false} RunKeeps<T>(s: State<T>, moves: seq<Move<T>>)
    requires Inv(s)
    ensures Inv(Run(s, moves))
    decreases |moves|
  {
    if moves == [] {
    } else {
      StepKeeps(s, moves[0]);
      RunKeeps(Step(s, moves[0]), moves[1..]);
    }
  }

  // ------------------------------------------------------------ main theorems

  /**
   Exactly once, in push order: after any interleaving, the `i`-th hand-out is the
   `i`-th pushed task (still unread only while the owner's pop stands between its
   `fetch_add` and its read), and every task not handed out is in the live buffer.
   */
  lemma HandOutsFollowPushes<T>(thieves: nat, moves: seq<Move<T>>)
    ensures var s := Run(Init<T>(thieves), moves);
      && |s.claims| <= |s.pushed|
      && (forall i :: 0 <= i < |s.claims| ==>
            s.claims[i] == Some(s.pushed[i]) || (s.claims[i].None? && s.owner.PopRead? && s.owner.f == i))
      && (forall i :: |s.claims| <= i < |s.pushed| ==> Read(s.buffer, i) == Some(s.pushed[i]))
  {
    InitInv<T>(thieves);
    RunKeeps(Init<T>(thieves), moves);
  }

  /** When the owner is between calls, the tasks handed out are a prefix of those pushed. */
  lemma QuiescentPrefix<T>(thieves: nat, moves: seq<Move<T>>)
    requires AtRest(Run(Init<T>(thieves), moves).owner)
    ensures var s := Run(Init<T>(thieves), moves);
      && |s.claims| <= |s.pushed|
      && s.claims == seq(|s.claims|, i requires 0 <= i < |s.claims| => Some(s.pushed[i]))
  {
    HandOutsFollowPushes(thieves, moves);
  }
}
