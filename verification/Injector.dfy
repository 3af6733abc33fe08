/**
 The injector: a shared FIFO queue kept in a linked list of blocks.  Any number of
 pushers and stealers run interleaved, one shared access at a time.  The last
 reader of a block starts its destruction; whenever it meets a slot that is still
 being read it leaves the `DESTROY` bit there and the slot's reader carries on.

 An index is a position `p` (the source's index without its low bit): block
 `p / LAP`, offset `p % LAP`, where offset `BLOCK_CAP` stands for "the next block is
 being installed".  `pushed`, `writer`, `reader`, `token`, `frees` and the two
 phases are history that no thread reads.
 */
module Injector {
  import opened Types

  const LAP: nat := 64
  const BLOCK_CAP: nat := 63

  datatype Agent = NoOne | By(thread: nat)

  datatype Slot<T> = Slot(
    write: bool, read: bool, destroy: bool, task: Option<T>,
    writer: Agent, reader: Agent)

  /** Who is responsible for freeing a block. */
  datatype Token = NotYet | Held(thread: nat, i: nat) | Handed(j: nat) | Freed

  datatype Block<T> = Block(slots: seq<Slot<T>>, next: Option<nat>, token: Token, frees: nat)

  /** Whether a position is settled, or some thread is moving it to the next block. */
  datatype Phase = Settled | Claimed(thread: nat) | Stored(thread: nat)

  datatype Pusher<T> =
    | PRest
    | PLoadBlock(task: T, tail: nat)
    | PCas(task: T, tail: nat, block: nat)
    | PStoreBlock(task: T, pos: nat, block: nat)
    | PStoreIndex(task: T, pos: nat, block: nat, nb: nat)
    | PStoreNext(task: T, pos: nat, block: nat, nb: nat)
    | PWrite(task: T, pos: nat, block: nat)
    | PMark(task: T, pos: nat, block: nat)

  datatype Thief<T> =
    | TRest
    | Stole(n: nat, got: Option<T>)               // returned the n-th pushed task
    | Empty(wasEmpty: bool)
    | Retry
    | TLoadBlock(h: nat, hn: bool)
    | TLoadTail(h: nat, block: nat)
    | TCas(h: nat, hn: bool, block: nat, hn': bool)
    | TWaitNext(p: nat, block: nat)
    | TPeekNext(p: nat, block: nat, next: nat)
    | TStoreBlock(p: nat, block: nat, next: nat, bit: bool)
    | TStoreIndex(p: nat, block: nat, next: nat, bit: bool)
    | TWaitWrite(p: nat, block: nat)
    | TRead(p: nat, block: nat)
    | TMark(p: nat, block: nat, got: Option<T>)
    | TDestroy(p: nat, block: nat, got: Option<T>, i: nat)
    | TDestroyOr(p: nat, block: nat, got: Option<T>, i: nat)

  datatype State<T> = State(
    tail: nat, tailBlock: nat, tailPhase: Phase,
    head: nat, headNext: bool, headBlock: nat, headPhase: Phase,
    blocks: seq<Block<T>>,
    pushers: seq<Pusher<T>>, thieves: seq<Thief<T>>,
    pushed: seq<T>)

  /** `weak` lets a weak exchange fail for no reason. */
  datatype Move<T> = Push(t: nat, task: T) | PushGo(t: nat, weak: bool) | StealGo(t: nat, weak: bool)

  /** How many tasks fit before position `p`. */
  function Count(p: nat): nat { p - p / LAP }

  function NewBlock<T>(): (b: Block<T>)
    ensures |b.slots| == BLOCK_CAP
  {
    Block(seq(BLOCK_CAP, _ => Slot(false, false, false, None, NoOne, NoOne)), None, NotYet, 0)
  }

  function Init<T>(pushers: nat, thieves: nat): State<T> {
    State(0, 0, Settled, 0, false, 0, Settled, [NewBlock()],
          seq(pushers, _ => PRest), seq(thieves, _ => TRest), [])
  }

  predicate HasSlot<T>(s: State<T>, block: nat, off: nat) {
    block < |s.blocks| && off < |s.blocks[block].slots|
  }

  function SetSlot<T>(s: State<T>, block: nat, off: nat, x: Slot<T>): State<T>
    requires HasSlot(s, block, off)
  {
    SetBlock(s, block, s.blocks[block].(slots := s.blocks[block].slots[off := x]))
  }

  function SetBlock<T>(s: State<T>, k: nat, b: Block<T>): State<T>
    requires k < |s.blocks|
  {
    s.(blocks := s.blocks[k := b])
  }

  function PAt<T>(s: State<T>, t: nat, pc: Pusher<T>): State<T>
    requires t < |s.pushers|
  {
    s.(pushers := s.pushers[t := pc])
  }

  function TAt<T>(s: State<T>, t: nat, pc: Thief<T>): State<T>
    requires t < |s.thieves|
  {
    s.(thieves := s.thieves[t := pc])
  }

  function Step<T>(s: State<T>, m: Move<T>): State<T> {
    match m
    case Push(t, task) =>
      if t < |s.pushers| && s.pushers[t].PRest? then PAt(s, t, PLoadBlock(task, s.tail)) else s
    case PushGo(t, weak) => if t < |s.pushers| then PushStep(s, t, weak) else s
    case StealGo(t, weak) => if t < |s.thieves| then StealStep(s, t, weak) else s
  }

  function PushStep<T>(s: State<T>, t: nat, weak: bool): State<T>
    requires t < |s.pushers|
  {
    match s.pushers[t]
    case PLoadBlock(task, tail) => PAt(s, t, PCas(task, tail, s.tailBlock))
    case PCas(task, tail, block) => PushCas(s, t, weak, task, tail, block)
    case PStoreBlock(task, pos, block) =>
      var nb := |s.blocks|;
      PAt(s.(blocks := s.blocks + [NewBlock()], tailBlock := nb, tailPhase := Stored(t)),
          t, PStoreIndex(task, pos, block, nb))
    case PStoreIndex(task, pos, block, nb) =>
      PAt(s.(tail := pos + 2, tailPhase := Settled), t, PStoreNext(task, pos, block, nb))
    case PStoreNext(task, pos, block, nb) =>
      if block >= |s.blocks| then s
      else PAt(SetBlock(s, block, s.blocks[block].(next := Some(nb))), t, PWrite(task, pos, block))
    case PWrite(task, pos, block) =>
      if !HasSlot(s, block, pos % LAP) then s
      else PAt(SetSlot(s, block, pos % LAP, s.blocks[block].slots[pos % LAP].(task := Some(task))),
               t, PMark(task, pos, block))
    case PMark(_, pos, block) =>
      if !HasSlot(s, block, pos % LAP) then s
      else PAt(SetSlot(s, block, pos % LAP, s.blocks[block].slots[pos % LAP].(write := true)), t, PRest)
    case PRest => s
  }

  /** Claim position `tail`; the claimant of a block's last slot installs the next block. */
  function PushCas<T>(s: State<T>, t: nat, weak: bool, task: T, tail: nat, block: nat): State<T>
    requires t < |s.pushers|
  {
    var off := tail % LAP;
    if off == BLOCK_CAP || weak || s.tail != tail || !HasSlot(s, block, off) then
      PAt(s, t, PLoadBlock(task, s.tail))
    else
      var s1 := SetSlot(s, block, off, s.blocks[block].slots[off].(writer := By(t)))
                .(tail := tail + 1, pushed := s.pushed + [task]);
      if off + 1 == BLOCK_CAP
      then PAt(s1.(tailPhase := Claimed(t)), t, PStoreBlock(task, tail, block))
      else PAt(s1, t, PWrite(task, tail, block))
  }

  function StealStep<T>(s: State<T>, t: nat, weak: bool): State<T>
    requires t < |s.thieves|
  {
    match s.thieves[t]
    case TLoadBlock(h, hn) =>
      if h % LAP == BLOCK_CAP then TAt(s, t, TLoadBlock(s.head, s.headNext))
      else if hn then TAt(s, t, TCas(h, true, s.headBlock, true))
      else TAt(s, t, TLoadTail(h, s.headBlock))
    case TLoadTail(h, block) =>
      if h == s.tail then TAt(s, t, Empty(Count(s.head) == |s.pushed|))
      else TAt(s, t, TCas(h, false, block, h / LAP != s.tail / LAP))
    case TCas(h, hn, block, hn') => StealCas(s, t, weak, h, hn, block, hn')
    case TWaitNext(p, block) =>
      if block < |s.blocks| && s.blocks[block].next.Some?
      then TAt(s, t, TPeekNext(p, block, s.blocks[block].next.value)) else s
    case TPeekNext(p, block, next) =>
      if next < |s.blocks| then TAt(s, t, TStoreBlock(p, block, next, s.blocks[next].next.Some?)) else s
    case TStoreBlock(p, block, next, bit) =>
      TAt(s.(headBlock := next, headPhase := Stored(t)), t, TStoreIndex(p, block, next, bit))
    case TStoreIndex(p, block, _, bit) =>
      TAt(s.(head := p + 2, headNext := bit, headPhase := Settled), t, TWaitWrite(p, block))
    case TWaitWrite(p, block) =>
      if HasSlot(s, block, p % LAP) && s.blocks[block].slots[p % LAP].write
      then TAt(s, t, TRead(p, block)) else s
    case TRead(p, block) => if HasSlot(s, block, p % LAP) then ReadStep(s, t, p, block) else s
    case TMark(p, block, got) => if HasSlot(s, block, p % LAP) then MarkStep(s, t, p, block, got) else s
    case TDestroy(p, block, got, i) =>
      if block < |s.blocks| && i <= |s.blocks[block].slots| then DestroyStep(s, t, p, block, got, i) else s
    case TDestroyOr(p, block, got, i) =>
      if i > 0 && HasSlot(s, block, i - 1) then DestroyOrStep(s, t, p, block, got, i) else s
    case _ => TAt(s, t, TLoadBlock(s.head, s.headNext))
  }

  /** The reader of the last slot goes straight on to destroy the block. */
  function ReadStep<T>(s: State<T>, t: nat, p: nat, block: nat): State<T>
    requires t < |s.thieves| && HasSlot(s, block, p % LAP)
  {
    var b, off := s.blocks[block], p % LAP;
    var got := b.slots[off].task;
    if off + 1 == BLOCK_CAP
    then TAt(SetBlock(s, block, b.(token := Held(t, off))), t, TDestroy(p, block, got, off))
    else TAt(s, t, TMark(p, block, got))
  }

  /** `fetch_or(READ)`: a reader that finds `DESTROY` set takes over the destruction. */
  function Marked<T>(b: Block<T>, off: nat, t: nat): Block<T>
    requires off < |b.slots|
  {
    b.(slots := b.slots[off := b.slots[off].(read := true)],
       token := if b.slots[off].destroy then Held(t, off) else b.token)
  }

  function MarkStep<T>(s: State<T>, t: nat, p: nat, block: nat, got: Option<T>): State<T>
    requires t < |s.thieves| && HasSlot(s, block, p % LAP)
  {
    var b, off := s.blocks[block], p % LAP;
    TAt(SetBlock(s, block, Marked(b, off, t)), t,
        if b.slots[off].destroy then TDestroy(p, block, got, off) else Stole(Count(p), got))
  }

  /** Slots `i..` are done with: look at slot `i - 1`, or free the block when none is left. */
  function DestroyStep<T>(s: State<T>, t: nat, p: nat, block: nat, got: Option<T>, i: nat): State<T>
    requires t < |s.thieves| && block < |s.blocks| && i <= |s.blocks[block].slots|
  {
    var b := s.blocks[block];
    if i == 0 then TAt(SetBlock(s, block, b.(token := Freed, frees := b.frees + 1)), t, Stole(Count(p), got))
    else if b.slots[i - 1].read
    then TAt(SetBlock(s, block, b.(token := Held(t, i - 1))), t, TDestroy(p, block, got, i - 1))
    else TAt(s, t, TDestroyOr(p, block, got, i))
  }

  /** `fetch_or(DESTROY)` on slot `j`: its reader inherits the block unless it is already done. */
  function Swept<T>(b: Block<T>, j: nat, t: nat): Block<T>
    requires j < |b.slots|
  {
    b.(slots := b.slots[j := b.slots[j].(destroy := true)],
       token := if b.slots[j].read then Held(t, j) else Handed(j))
  }

  function DestroyOrStep<T>(s: State<T>, t: nat, p: nat, block: nat, got: Option<T>, i: nat): State<T>
    requires t < |s.thieves| && i > 0 && HasSlot(s, block, i - 1)
  {
    var b := s.blocks[block];
    TAt(SetBlock(s, block, Swept(b, i - 1, t)), t,
        if b.slots[i - 1].read then TDestroy(p, block, got, i - 1) else Stole(Count(p), got))
  }

  /** Claim position `h`; the claimant of a block's last slot moves the head to the next block. */
  function StealCas<T>(s: State<T>, t: nat, weak: bool, h: nat, hn: bool, block: nat, hn': bool): State<T>
    requires t < |s.thieves|
  {
    var off := h % LAP;
    if weak || s.head != h || s.headNext != hn || !HasSlot(s, block, off) then TAt(s, t, Retry)
    else
      var s1 := SetSlot(s, block, off, s.blocks[block].slots[off].(reader := By(t)))
                .(head := h + 1, headNext := hn');
      if off + 1 == BLOCK_CAP
      then TAt(s1.(headPhase := Claimed(t)), t, TWaitNext(h, block))
      else TAt(s1, t, TWaitWrite(h, block))
  }

  function Run<T>(s: State<T>, moves: seq<Move<T>>): State<T>
    decreases |moves|
  {
    if moves == [] then s else Run(Step(s, moves[0]), moves[1..])
  }

  // ---------------------------------------------------------------- invariant

  ghost predicate PhaseInv(p: nat, block: nat, phase: Phase) {
    && (phase.Settled? <==> p % LAP != BLOCK_CAP)
    && block == p / LAP + (if phase.Stored? then 1 else 0)
  }

  ghost predicate IndexInv<T>(s: State<T>) {
    && PhaseInv(s.tail, s.tailBlock, s.tailPhase)
    && PhaseInv(s.head, s.headBlock, s.headPhase)
    && |s.blocks| == s.tailBlock + 1
    && |s.pushed| == Count(s.tail)
    && s.head <= s.tail
    && (s.headNext && s.headPhase.Settled? ==> s.head / LAP < s.tail / LAP)
  }

  ghost predicate SlotInv<T>(x: Slot<T>, p: nat, tail: nat, head: nat, pushed: seq<T>, token: Token) {
    && (x.writer != NoOne ==> p < tail) && (x.reader != NoOne ==> p < head)
    && (x.write ==> p < tail && Count(p) < |pushed| && x.task == Some(pushed[Count(p)]))
    && (x.read ==> x.write && x.reader != NoOne)
    && (x.destroy && !x.read ==> token == Handed(p % LAP))
  }

  ghost predicate AllRead<T>(b: Block<T>, lo: nat) {
    forall j :: lo <= j < BLOCK_CAP - 1 && j < |b.slots| ==> b.slots[j].read
  }

  ghost predicate TokenInv<T>(b: Block<T>) {
    && |b.slots| == BLOCK_CAP
    && b.frees == (if b.token.Freed? then 1 else 0)
    && (!b.token.NotYet? ==> b.slots[BLOCK_CAP - 1].write)
    && match b.token
       case NotYet => true
       case Held(_, i) => i < BLOCK_CAP && AllRead(b, i)
       case Handed(j) => j < BLOCK_CAP - 1 && b.slots[j].destroy && !b.slots[j].read && AllRead(b, j + 1)
       case Freed => AllRead(b, 0)
  }

  ghost predicate BlockInv<T>(b: Block<T>, id: nat, tail: nat, head: nat, pushed: seq<T>) {
    && TokenInv(b)
    && (b.next.Some? ==> b.next.value == id + 1 <= tail / LAP)
    && (!b.token.NotYet? ==> LAP * id + BLOCK_CAP - 1 < head)
    && forall j :: 0 <= j < BLOCK_CAP ==> SlotInv(b.slots[j], LAP * id + j, tail, head, pushed, b.token)
  }

  /** Thread `t` has claimed position `pos` for writing and has not published it yet. */
  ghost predicate Writing<T>(s: State<T>, t: nat, task: T, pos: nat, block: nat) {
    && block == pos / LAP && pos % LAP < BLOCK_CAP && pos < s.tail
    && HasSlot(s, block, pos % LAP)
    && s.blocks[block].slots[pos % LAP].writer == By(t)
    && !s.blocks[block].slots[pos % LAP].write
    && Count(pos) < |s.pushed| && s.pushed[Count(pos)] == task
  }

  ghost predicate PusherInv<T>(s: State<T>, t: nat, pc: Pusher<T>) {
    match pc
    case PRest => true
    case PLoadBlock(_, tail) => tail <= s.tail
    case PCas(_, tail, block) => tail <= s.tail && (tail % LAP != BLOCK_CAP && s.tail == tail ==> block == tail / LAP)
    case PStoreBlock(task, pos, block) =>
      Writing(s, t, task, pos, block) && s.tailPhase == Claimed(t) && s.tail == pos + 1
    case PStoreIndex(task, pos, block, nb) =>
      Writing(s, t, task, pos, block) && s.tailPhase == Stored(t) && s.tail == pos + 1 && nb == block + 1
    case PStoreNext(task, pos, block, nb) =>
      Writing(s, t, task, pos, block) && nb == block + 1 && nb <= s.tail / LAP
    case PWrite(task, pos, block) => Writing(s, t, task, pos, block)
    case PMark(task, pos, block) =>
      Writing(s, t, task, pos, block) && s.blocks[block].slots[pos % LAP].task == Some(task)
  }

  /** Thread `t` has claimed position `p` and the block cannot have been freed under it. */
  ghost predicate Reading<T>(s: State<T>, t: nat, p: nat, block: nat) {
    && block == p / LAP && p % LAP < BLOCK_CAP && p < s.head
    && HasSlot(s, block, p % LAP)
    && s.blocks[block].slots[p % LAP].reader == By(t)
    && (if p % LAP + 1 == BLOCK_CAP then s.blocks[block].token.NotYet? else !s.blocks[block].slots[p % LAP].read)
  }

  ghost predicate IsTask<T>(s: State<T>, n: nat, got: Option<T>) {
    n < |s.pushed| && got == Some(s.pushed[n])
  }

  ghost predicate Moving<T>(s: State<T>, t: nat, p: nat, block: nat, phase: Phase) {
    Reading(s, t, p, block) && s.headPhase == phase && s.head == p + 1
  }

  ghost predicate ThiefInv<T>(s: State<T>, t: nat, pc: Thief<T>) {
    match pc
    case TRest => true
    case Retry => true
    case Stole(n, got) => IsTask(s, n, got) && n < Count(s.head)
    case Empty(wasEmpty) => wasEmpty
    case TLoadBlock(h, hn) => h <= s.head && (hn && h % LAP != BLOCK_CAP ==> h / LAP < s.tail / LAP)
    case TLoadTail(h, block) => h % LAP != BLOCK_CAP && h <= s.head && (s.head == h ==> block == h / LAP)
    case TCas(h, _, block, hn') =>
      && h % LAP != BLOCK_CAP && h <= s.head && (s.head == h ==> block == h / LAP)
      && h < s.tail && (hn' ==> h / LAP < s.tail / LAP)
    case TWaitNext(p, block) => Moving(s, t, p, block, Claimed(t))
    case TPeekNext(p, block, next) => Moving(s, t, p, block, Claimed(t)) && next == block + 1 <= s.tail / LAP
    case TStoreBlock(p, block, next, bit) =>
      && Moving(s, t, p, block, Claimed(t)) && next == block + 1 <= s.tail / LAP
      && (bit ==> next < s.tail / LAP)
    case TStoreIndex(p, block, next, bit) =>
      && Moving(s, t, p, block, Stored(t)) && next == block + 1 <= s.tail / LAP
      && (bit ==> next < s.tail / LAP)
    case TWaitWrite(p, block) => Reading(s, t, p, block)
    case TRead(p, block) => Reading(s, t, p, block) && s.blocks[block].slots[p % LAP].write
    case TMark(p, block, got) =>
      && Reading(s, t, p, block) && s.blocks[block].slots[p % LAP].write
      && p % LAP + 1 < BLOCK_CAP && IsTask(s, Count(p), got)
    case TDestroy(p, block, got, i) =>
      && IsTask(s, Count(p), got) && Count(p) < Count(s.head)
      && block < |s.blocks| && s.blocks[block].token == Held(t, i)
    case TDestroyOr(p, block, got, i) =>
      && IsTask(s, Count(p), got) && Count(p) < Count(s.head)
      && block < |s.blocks| && s.blocks[block].token == Held(t, i) && i > 0
  }

  ghost predicate BlocksInv<T>(s: State<T>) {
    forall b :: 0 <= b < |s.blocks| ==> BlockInv(s.blocks[b], b, s.tail, s.head, s.pushed)
  }

  ghost predicate PushersInv<T>(s: State<T>) {
    forall t :: 0 <= t < |s.pushers| ==> PusherInv(s, t, s.pushers[t])
  }

  ghost predicate ThievesInv<T>(s: State<T>) {
    forall t :: 0 <= t < |s.thieves| ==> ThiefInv(s, t, s.thieves[t])
  }

  ghost predicate Inv<T>(s: State<T>) {
    IndexInv(s) && BlocksInv(s) && PushersInv(s) && ThievesInv(s)
  }

  // ------------------------------------------------------------- preservation

  ghost predicate Grows<T>(s: State<T>, s': State<T>) {
    && s.tail <= s'.tail && s.head <= s'.head && s.pushed <= s'.pushed
    && |s.blocks| <= |s'.blocks|
    && forall b :: 0 <= b < |s.blocks| ==> |s'.blocks[b].slots| == |s.blocks[b].slots|
  }

  ghost predicate SlotKeptForWriters<T>(x: Slot<T>, x': Slot<T>, t: nat) {
    x.writer != NoOne && x.writer != By(t) ==>
      x'.writer == x.writer && x'.write == x.write && x'.task == x.task
  }

  /** The step left alone everything a pusher other than `t` relies on. */
  ghost predicate KeptForPushers<T>(s: State<T>, s': State<T>, t: nat) {
    && Grows(s, s')
    && (!s.tailPhase.Settled? && s.tailPhase.thread != t ==> s'.tailPhase == s.tailPhase && s'.tail == s.tail)
    && forall b, j :: 0 <= b < |s.blocks| && 0 <= j < |s.blocks[b].slots| ==>
         SlotKeptForWriters(s.blocks[b].slots[j], s'.blocks[b].slots[j], t)
  }

  ghost predicate SlotKeptForReaders<T>(x: Slot<T>, x': Slot<T>, t: nat) {
    x.reader != NoOne && x.reader != By(t) ==>
      x'.reader == x.reader && x'.read == x.read && (x.write ==> x'.write)
  }

  ghost predicate TokenKept<T>(b: Block<T>, b': Block<T>, t: nat) {
    && (b.token.Held? && b.token.thread != t ==> b'.token == b.token)
    && (b.token.NotYet? && |b.slots| == BLOCK_CAP && b.slots[BLOCK_CAP - 1].reader != By(t) ==> b'.token.NotYet?)
  }

  /** The step left alone everything a thief other than `t` relies on. */
  ghost predicate KeptForThieves<T>(s: State<T>, s': State<T>, t: nat) {
    && Grows(s, s')
    && (!s.headPhase.Settled? && s.headPhase.thread != t ==> s'.headPhase == s.headPhase && s'.head == s.head)
    && (forall b :: 0 <= b < |s.blocks| ==> TokenKept(s.blocks[b], s'.blocks[b], t))
    && forall b, j :: 0 <= b < |s.blocks| && 0 <= j < |s.blocks[b].slots| ==>
         SlotKeptForReaders(s.blocks[b].slots[j], s'.blocks[b].slots[j], t)
  }

  lemma PusherKept<T>(s: State<T>, s': State<T>, t: nat, u: nat, pc: Pusher<T>)
    requires KeptForPushers(s, s', t) && u != t && PusherInv(s, u, pc)
    ensures PusherInv(s', u, pc)
  {
  }

  lemma ReadingKept<T>(s: State<T>, s': State<T>, t: nat, u: nat, p: nat, block: nat)
    requires BlocksInv(s) && KeptForThieves(s, s', t) && u != t && Reading(s, u, p, block)
    ensures Reading(s', u, p, block)
    ensures s.blocks[block].slots[p % LAP].write ==> s'.blocks[block].slots[p % LAP].write
  {
    var x, x' := s.blocks[block].slots[p % LAP], s'.blocks[block].slots[p % LAP];
    assert SlotKeptForReaders(x, x', t);
    assert TokenKept(s.blocks[block], s'.blocks[block], t);
    assert BlockInv(s.blocks[block], block, s.tail, s.head, s.pushed);
  }

  lemma ThiefKept<T>(s: State<T>, s': State<T>, t: nat, u: nat, pc: Thief<T>)
    requires BlocksInv(s) && KeptForThieves(s, s', t) && u != t && ThiefInv(s, u, pc)
    ensures ThiefInv(s', u, pc)
  {
    match pc
    case TWaitNext(p, block) => ReadingKept(s, s', t, u, p, block);
    case TPeekNext(p, block, _) => ReadingKept(s, s', t, u, p, block);
    case TStoreBlock(p, block, _, _) => ReadingKept(s, s', t, u, p, block);
    case TStoreIndex(p, block, _, _) => ReadingKept(s, s', t, u, p, block);
    case TWaitWrite(p, block) => ReadingKept(s, s', t, u, p, block);
    case TRead(p, block) => ReadingKept(s, s', t, u, p, block);
    case TMark(p, block, _) => ReadingKept(s, s', t, u, p, block);
    case TDestroy(_, block, _, _) => assert TokenKept(s.blocks[block], s'.blocks[block], t);
    case TDestroyOr(_, block, _, _) => assert TokenKept(s.blocks[block], s'.blocks[block], t);
    case _ =>
  }

  lemma PushersKept<T>(s: State<T>, s': State<T>, t: nat)
    requires PushersInv(s) && KeptForPushers(s, s', t) && |s'.pushers| == |s.pushers|
    requires forall u :: 0 <= u < |s.pushers| && u != t ==> s'.pushers[u] == s.pushers[u]
    requires t < |s.pushers| ==> PusherInv(s', t, s'.pushers[t])
    ensures PushersInv(s')
  {
    forall u | 0 <= u < |s'.pushers|
      ensures PusherInv(s', u, s'.pushers[u])
    {
      if u != t { PusherKept(s, s', t, u, s.pushers[u]); }
    }
  }

  lemma ThievesKept<T>(s: State<T>, s': State<T>, t: nat)
    requires BlocksInv(s) && ThievesInv(s) && KeptForThieves(s, s', t) && |s'.thieves| == |s.thieves|
    requires forall u :: 0 <= u < |s.thieves| && u != t ==> s'.thieves[u] == s.thieves[u]
    requires t < |s.thieves| ==> ThiefInv(s', t, s'.thieves[t])
    ensures ThievesInv(s')
  {
    forall u | 0 <= u < |s'.thieves|
      ensures ThiefInv(s', u, s'.thieves[u])
    {
      if u != t { ThiefKept(s, s', t, u, s.thieves[u]); }
    }
  }

  lemma BlockKept<T>(b: Block<T>, id: nat, s: State<T>, s': State<T>)
    requires BlockInv(b, id, s.tail, s.head, s.pushed) && Grows(s, s')
    ensures BlockInv(b, id, s'.tail, s'.head, s'.pushed)
  {
    forall j | 0 <= j < BLOCK_CAP
      ensures SlotInv(b.slots[j], LAP * id + j, s'.tail, s'.head, s'.pushed, b.token)
    {
      assert SlotInv(b.slots[j], LAP * id + j, s.tail, s.head, s.pushed, b.token);
    }
  }

  ghost predicate OnlyBlock<T>(s: State<T>, s': State<T>, k: nat) {
    && |s.blocks| <= |s'.blocks|
    && forall b :: 0 <= b < |s'.blocks| && b != k ==> b < |s.blocks| && s'.blocks[b] == s.blocks[b]
  }

  /** Only block `k` changed (or was added), and it is fine. */
  lemma BlocksKept<T>(s: State<T>, s': State<T>, k: nat)
    requires BlocksInv(s) && Grows(s, s') && OnlyBlock(s, s', k)
    requires k < |s'.blocks| ==> BlockInv(s'.blocks[k], k, s'.tail, s'.head, s'.pushed)
    ensures BlocksInv(s')
  {
    forall b | 0 <= b < |s'.blocks|
      ensures BlockInv(s'.blocks[b], b, s'.tail, s'.head, s'.pushed)
    {
      var x := s'.blocks[b];
      if b != k { BlockKept(x, b, s, s'); }
    }
  }

  /** What pushers other than `tp` and thieves other than `tt` know of block `b` is still so. */
  ghost predicate SameBlock<T>(b: Block<T>, b': Block<T>, tp: nat, tt: nat) {
    && |b'.slots| == |b.slots| && TokenKept(b, b', tt)
    && (forall j :: 0 <= j < |b.slots| ==> SlotKeptForWriters(b.slots[j], b'.slots[j], tp))
    && (forall j :: 0 <= j < |b.slots| ==> SlotKeptForReaders(b.slots[j], b'.slots[j], tt))
  }

  ghost predicate PhaseKept(phase: Phase, p: nat, phase': Phase, p': nat, t: nat) {
    p <= p' && (!phase.Settled? && phase.thread != t ==> phase' == phase && p' == p)
  }

  lemma Untouched<T>(b: Block<T>, tp: nat, tt: nat)
    ensures SameBlock(b, b, tp, tt)
  {
  }

  lemma OthersKept<T>(s: State<T>, s': State<T>, tp: nat, tt: nat, k: nat)
    requires s.pushed <= s'.pushed && OnlyBlock(s, s', k)
    requires PhaseKept(s.tailPhase, s.tail, s'.tailPhase, s'.tail, tp)
    requires PhaseKept(s.headPhase, s.head, s'.headPhase, s'.head, tt)
    requires k < |s.blocks| ==> SameBlock(s.blocks[k], s'.blocks[k], tp, tt)
    ensures KeptForPushers(s, s', tp) && KeptForThieves(s, s', tt)
  {
    forall b | 0 <= b < |s.blocks|
      ensures SameBlock(s.blocks[b], s'.blocks[b], tp, tt)
    {
      var x := s'.blocks[b];
      if b != k { Untouched(s.blocks[b], tp, tt); }
    }
  }

  /**
   The shape every step takes: pusher `tp` or thief `tt` moved (an index past the
   end for "none"), and block `k` is the only one that changed or was added.
   */
  lemma StepShape<T>(s: State<T>, s': State<T>, tp: nat, tt: nat, k: nat)
    requires Inv(s) && IndexInv(s') && s.pushed <= s'.pushed && OnlyBlock(s, s', k)
    requires PhaseKept(s.tailPhase, s.tail, s'.tailPhase, s'.tail, tp)
    requires PhaseKept(s.headPhase, s.head, s'.headPhase, s'.head, tt)
    requires k < |s.blocks| ==> SameBlock(s.blocks[k], s'.blocks[k], tp, tt)
    requires k < |s'.blocks| ==> BlockInv(s'.blocks[k], k, s'.tail, s'.head, s'.pushed)
    requires |s'.pushers| == |s.pushers|
    requires forall u :: 0 <= u < |s.pushers| && u != tp ==> s'.pushers[u] == s.pushers[u]
    requires |s'.thieves| == |s.thieves|
    requires forall u :: 0 <= u < |s.thieves| && u != tt ==> s'.thieves[u] == s.thieves[u]
    requires tp < |s.pushers| ==> PusherInv(s', tp, s'.pushers[tp])
    requires tt < |s.thieves| ==> ThiefInv(s', tt, s'.thieves[tt])
    ensures Inv(s')
  {
    OthersKept(s, s', tp, tt, k);
    PushersKept(s, s', tp);
    ThievesKept(s, s', tt);
    BlocksKept(s, s', k);
  }

  lemma PushLocal<T>(s: State<T>, t: nat, pc: Pusher<T>)
    requires Inv(s) && t < |s.pushers| && PusherInv(s, t, pc)
    ensures Inv(PAt(s, t, pc))
  {
    var s' := PAt(s, t, pc);
    assert PusherInv(s', t, pc);
    StepShape(s, s', t, |s.thieves|, |s.blocks|);
  }

  lemma StealLocal<T>(s: State<T>, t: nat, pc: Thief<T>)
    requires Inv(s) && t < |s.thieves| && ThiefInv(s, t, pc)
    ensures Inv(TAt(s, t, pc))
  {
    var s' := TAt(s, t, pc);
    assert ThiefInv(s', t, pc);
    StepShape(s, s', |s.pushers|, t, |s.blocks|);
  }

  /** A step of pusher `t` that replaces block `k` by `b` and moves no index. */
  lemma PushBlock<T>(s: State<T>, t: nat, k: nat, b: Block<T>, pc: Pusher<T>)
    requires Inv(s) && t < |s.pushers| && k < |s.blocks|
    requires SameBlock(s.blocks[k], b, t, |s.thieves|) && BlockInv(b, k, s.tail, s.head, s.pushed)
    requires PusherInv(SetBlock(s, k, b), t, pc)
    ensures Inv(PAt(SetBlock(s, k, b), t, pc))
  {
    var s' := PAt(SetBlock(s, k, b), t, pc);
    assert PusherInv(s', t, pc);
    StepShape(s, s', t, |s.thieves|, k);
  }

  /** A step of thief `t` that replaces block `k` by `b` and moves no index. */
  lemma StealBlock<T>(s: State<T>, t: nat, k: nat, b: Block<T>, pc: Thief<T>)
    requires Inv(s) && t < |s.thieves| && k < |s.blocks|
    requires SameBlock(s.blocks[k], b, |s.pushers|, t) && BlockInv(b, k, s.tail, s.head, s.pushed)
    requires ThiefInv(SetBlock(s, k, b), t, pc)
    ensures Inv(TAt(SetBlock(s, k, b), t, pc))
  {
    var s' := TAt(SetBlock(s, k, b), t, pc);
    assert ThiefInv(s', t, pc);
    StepShape(s, s', |s.pushers|, t, k);
  }

  /** Replacing slot `j` keeps the block when the new slot and its neighbours fit. */
  lemma SlotReplaced<T>(b: Block<T>, id: nat, j: nat, x: Slot<T>, s: State<T>, s': State<T>)
    requires BlockInv(b, id, s.tail, s.head, s.pushed) && Grows(s, s') && j < BLOCK_CAP
    requires SlotInv(x, LAP * id + j, s'.tail, s'.head, s'.pushed, b.token)
    requires x.destroy == b.slots[j].destroy && x.read == b.slots[j].read && (b.slots[j].write ==> x.write)
    ensures BlockInv(b.(slots := b.slots[j := x]), id, s'.tail, s'.head, s'.pushed)
  {
    BlockKept(b, id, s, s');
  }

  lemma SlotSame<T>(b: Block<T>, j: nat, x: Slot<T>, tp: nat, tt: nat)
    requires j < |b.slots| && SlotKeptForWriters(b.slots[j], x, tp) && SlotKeptForReaders(b.slots[j], x, tt)
    ensures SameBlock(b, b.(slots := b.slots[j := x]), tp, tt)
  {
  }

  lemma ClaimTail<T>(s: State<T>, t: nat, task: T, tail: nat, block: nat)
    requires Inv(s) && t < |s.pushers| && HasSlot(s, block, tail % LAP)
    requires tail % LAP != BLOCK_CAP && s.tail == tail && block == tail / LAP
    ensures Inv(PushCas(s, t, false, task, tail, block))
  {
    hide ThiefInv, PusherInv, Count, BlockInv, SlotInv, SameBlock;
    var s', off, b := PushCas(s, t, false, task, tail, block), tail % LAP, s.blocks[block];
    assert BlockInv(b, block, s.tail, s.head, s.pushed);
    ClaimTailBlock(s, s', t, block, off);
    ClaimTailIndex(s, t, task, tail, block);
    StepShape(s, s', t, |s.thieves|, block);
  }

  /** Taking the slot at the tail for writing keeps its block in order. */
  lemma ClaimTailBlock<T>(s: State<T>, s': State<T>, t: nat, block: nat, off: nat)
    requires HasSlot(s, block, off) && off < BLOCK_CAP && s.tail == LAP * block + off && Grows(s, s')
    requires s.tail < s'.tail && BlockInv(s.blocks[block], block, s.tail, s.head, s.pushed)
    ensures var b := s.blocks[block]; var x := b.slots[off].(writer := By(t));
      && BlockInv(b.(slots := b.slots[off := x]), block, s'.tail, s'.head, s'.pushed)
      && SameBlock(b, b.(slots := b.slots[off := x]), t, |s.thieves|)
      && !b.slots[off].write
  {
    var b := s.blocks[block];
    var x := b.slots[off].(writer := By(t));
    assert SlotInv(b.slots[off], LAP * block + off, s.tail, s.head, s.pushed, b.token);
    SlotReplaced(b, block, off, x, s, s');
    SlotSame(b, off, x, t, |s.thieves|);
  }

  lemma ClaimTailIndex<T>(s: State<T>, t: nat, task: T, tail: nat, block: nat)
    requires IndexInv(s) && t < |s.pushers| && HasSlot(s, block, tail % LAP)
    requires tail % LAP != BLOCK_CAP && s.tail == tail && block == tail / LAP
    requires !s.blocks[block].slots[tail % LAP].write
    ensures var s' := PushCas(s, t, false, task, tail, block); IndexInv(s') && PusherInv(s', t, s'.pushers[t])
  {
  }

  lemma PushCasKeeps<T>(s: State<T>, t: nat, weak: bool, task: T, tail: nat, block: nat)
    requires Inv(s) && t < |s.pushers| && s.pushers[t] == PCas(task, tail, block)
    ensures Inv(PushCas(s, t, weak, task, tail, block))
  {
    assert PusherInv(s, t, s.pushers[t]);
    if tail % LAP == BLOCK_CAP || weak || s.tail != tail || !HasSlot(s, block, tail % LAP) {
      PushLocal(s, t, PLoadBlock(task, s.tail));
    } else {
      ClaimTail(s, t, task, tail, block);
    }
  }

  lemma InstallKeeps<T>(s: State<T>, t: nat)
    requires Inv(s) && t < |s.pushers|
    requires s.pushers[t].PStoreBlock? || s.pushers[t].PStoreIndex?
    ensures Inv(PushStep(s, t, false))
  {
    var s' := PushStep(s, t, false);
    assert PusherInv(s, t, s.pushers[t]);
    StepShape(s, s', t, |s.thieves|, |s.blocks|);
  }

  lemma LinkKeeps<T>(s: State<T>, t: nat)
    requires Inv(s) && t < |s.pushers| && s.pushers[t].PStoreNext?
    ensures Inv(PushStep(s, t, false))
  {
    var s' := PushStep(s, t, false);
    var block := s.pushers[t].block;
    assert PusherInv(s, t, s.pushers[t]);
    assert BlockInv(s.blocks[block], block, s.tail, s.head, s.pushed);
    PushBlock(s, t, block, s'.blocks[block], s'.pushers[t]);
  }

  /** Writing the task, or then the `WRITE` bit, into a claimed slot. */
  lemma PublishKeeps<T>(s: State<T>, t: nat, task: T, pos: nat, block: nat, x: Slot<T>, pc: Pusher<T>)
    requires Inv(s) && t < |s.pushers| && Writing(s, t, task, pos, block)
    requires var y := s.blocks[block].slots[pos % LAP];
      || (x == y.(task := Some(task)) && pc == PMark(task, pos, block))
      || (x == y.(write := true) && y.task == Some(task) && pc == PRest)
    ensures Inv(PAt(SetSlot(s, block, pos % LAP, x), t, pc))
  {
    var b, off := s.blocks[block], pos % LAP;
    assert BlockInv(b, block, s.tail, s.head, s.pushed);
    assert SlotInv(b.slots[off], LAP * block + off, s.tail, s.head, s.pushed, b.token);
    SlotReplaced(b, block, off, x, s, s);
    SlotSame(b, off, x, t, |s.thieves|);
    PushBlock(s, t, block, b.(slots := b.slots[off := x]), pc);
  }

  lemma ClaimHead<T>(s: State<T>, t: nat, h: nat, hn: bool, block: nat, hn': bool)
    requires Inv(s) && t < |s.thieves| && HasSlot(s, block, h % LAP)
    requires h % LAP != BLOCK_CAP && s.head == h < s.tail && block == h / LAP && s.headNext == hn
    requires hn' ==> h / LAP < s.tail / LAP
    ensures Inv(StealCas(s, t, false, h, hn, block, hn'))
  {
    hide ThiefInv, PusherInv, Count, BlockInv, SlotInv, SameBlock;
    var s', off, b := StealCas(s, t, false, h, hn, block, hn'), h % LAP, s.blocks[block];
    var x := b.slots[off].(reader := By(t));
    assert s'.blocks == s.blocks[block := b.(slots := b.slots[off := x])];
    assert BlockInv(b, block, s.tail, s.head, s.pushed);
    ClaimHeadBlock(s, s', t, block, off);
    ClaimHeadIndex(s, t, h, hn, block, hn');
    StepShape(s, s', |s.pushers|, t, block);
  }

  /** Taking the slot at the head for reading keeps its block in order. */
  lemma ClaimHeadBlock<T>(s: State<T>, s': State<T>, t: nat, block: nat, off: nat)
    requires HasSlot(s, block, off) && off < BLOCK_CAP && s.head == LAP * block + off && Grows(s, s')
    requires s.head < s'.head && BlockInv(s.blocks[block], block, s.tail, s.head, s.pushed)
    ensures var b := s.blocks[block]; var x := b.slots[off].(reader := By(t));
      && BlockInv(b.(slots := b.slots[off := x]), block, s'.tail, s'.head, s'.pushed)
      && SameBlock(b, b.(slots := b.slots[off := x]), |s.pushers|, t)
      && b.token.NotYet? && !b.slots[off].read
  {
    var b := s.blocks[block];
    var x := b.slots[off].(reader := By(t));
    UnreadBeforeHead(b, block, off, s);
    assert SlotInv(b.slots[off], LAP * block + off, s.tail, s.head, s.pushed, b.token);
    SlotReplaced(b, block, off, x, s, s');
    SlotSame(b, off, x, |s.pushers|, t);
  }

  lemma ClaimHeadIndex<T>(s: State<T>, t: nat, h: nat, hn: bool, block: nat, hn': bool)
    requires IndexInv(s) && t < |s.thieves| && HasSlot(s, block, h % LAP)
    requires h % LAP != BLOCK_CAP && s.head == h < s.tail && block == h / LAP && s.headNext == hn
    requires s.blocks[block].token.NotYet? && !s.blocks[block].slots[h % LAP].read
    requires hn' ==> h / LAP < s.tail / LAP
    ensures var s' := StealCas(s, t, false, h, hn, block, hn'); IndexInv(s') && ThiefInv(s', t, s'.thieves[t])
  {
  }

  /** A slot at or past the head has not been read, and its block is not being destroyed. */
  lemma UnreadBeforeHead<T>(b: Block<T>, block: nat, off: nat, s: State<T>)
    requires BlockInv(b, block, s.tail, s.head, s.pushed) && off < BLOCK_CAP && LAP * block + off >= s.head
    ensures b.token.NotYet? && !b.slots[off].read
  {
  }

  lemma StealCasKeeps<T>(s: State<T>, t: nat, weak: bool, h: nat, hn: bool, block: nat, hn': bool)
    requires Inv(s) && t < |s.thieves| && s.thieves[t] == TCas(h, hn, block, hn')
    ensures Inv(StealCas(s, t, weak, h, hn, block, hn'))
  {
    assert ThiefInv(s, t, s.thieves[t]);
    if weak || s.head != h || s.headNext != hn || !HasSlot(s, block, h % LAP) {
      StealLocal(s, t, Retry);
    } else {
      ClaimHead(s, t, h, hn, block, hn');
    }
  }

  lemma MoveHeadKeeps<T>(s: State<T>, t: nat)
    requires Inv(s) && t < |s.thieves| && (s.thieves[t].TStoreBlock? || s.thieves[t].TStoreIndex?)
    ensures Inv(StealStep(s, t, false))
  {
    var s' := StealStep(s, t, false);
    assert ThiefInv(s, t, s.thieves[t]);
    StepShape(s, s', |s.pushers|, t, |s.blocks|);
  }

  /** A step that only changes what thief `t` knows, to something true. */
  lemma LookupKeeps<T>(s: State<T>, t: nat)
    requires Inv(s) && t < |s.thieves|
    requires var pc := s.thieves[t];
      pc.TLoadBlock? || pc.TLoadTail? || pc.TWaitNext? || pc.TPeekNext? || pc.TWaitWrite?
    ensures Inv(StealStep(s, t, false))
  {
    assert ThiefInv(s, t, s.thieves[t]);
    var s' := StealStep(s, t, false);
    if s.thieves[t].TLoadBlock? || s.thieves[t].TLoadTail? {
      LookupIndex(s, t);
    } else {
      LookupBlock(s, t);
    }
    hide Inv, ThiefInv;
    if s' != s { StealLocal(s, t, s'.thieves[t]); }
  }

  lemma LookupIndex<T>(s: State<T>, t: nat)
    requires IndexInv(s) && t < |s.thieves| && ThiefInv(s, t, s.thieves[t])
    requires s.thieves[t].TLoadBlock? || s.thieves[t].TLoadTail?
    ensures ThiefInv(s, t, StealStep(s, t, false).thieves[t])
  {
  }

  lemma LookupBlock<T>(s: State<T>, t: nat)
    requires BlocksInv(s) && t < |s.thieves| && ThiefInv(s, t, s.thieves[t])
    requires s.thieves[t].TWaitNext? || s.thieves[t].TPeekNext? || s.thieves[t].TWaitWrite?
    ensures ThiefInv(s, t, StealStep(s, t, false).thieves[t])
  {
    hide SlotInv, TokenInv;
    var pc := s.thieves[t];
    if pc.TWaitNext? {
      assert BlockInv(s.blocks[pc.block], pc.block, s.tail, s.head, s.pushed);
    } else if pc.TPeekNext? && pc.next < |s.blocks| {
      assert BlockInv(s.blocks[pc.next], pc.next, s.tail, s.head, s.pushed);
    }
  }

  lemma CountMonotone(p: nat, q: nat)
    requires p < q && p % LAP != BLOCK_CAP
    ensures Count(p) < Count(q)
  {
  }

  /** The reader of a block's last slot takes the token. */
  lemma BeginDestroy<T>(b: Block<T>, id: nat, t: nat, s: State<T>)
    requires BlockInv(b, id, s.tail, s.head, s.pushed) && b.token.NotYet?
    requires b.slots[BLOCK_CAP - 1].write && LAP * id + BLOCK_CAP - 1 < s.head
    ensures BlockInv(b.(token := Held(t, BLOCK_CAP - 1)), id, s.tail, s.head, s.pushed)
  {
    forall j | 0 <= j < BLOCK_CAP
      ensures SlotInv(b.slots[j], LAP * id + j, s.tail, s.head, s.pushed, Held(t, BLOCK_CAP - 1))
    {
      assert SlotInv(b.slots[j], LAP * id + j, s.tail, s.head, s.pushed, b.token);
    }
  }

  lemma ReadKeeps<T>(s: State<T>, t: nat, p: nat, block: nat)
    requires Inv(s) && t < |s.thieves| && s.thieves[t] == TRead(p, block)
    ensures HasSlot(s, block, p % LAP) && Inv(ReadStep(s, t, p, block))
  {
    assert ThiefInv(s, t, s.thieves[t]);
    var b, off := s.blocks[block], p % LAP;
    assert BlockInv(b, block, s.tail, s.head, s.pushed);
    assert SlotInv(b.slots[off], LAP * block + off, s.tail, s.head, s.pushed, b.token);
    CountMonotone(p, s.head);
    if off + 1 == BLOCK_CAP {
      BeginDestroy(b, block, t, s);
      StealBlock(s, t, block, b.(token := Held(t, off)), TDestroy(p, block, b.slots[off].task, off));
    } else {
      StealLocal(s, t, TMark(p, block, b.slots[off].task));
    }
  }

  lemma MarkedBlock<T>(b: Block<T>, id: nat, off: nat, t: nat, s: State<T>)
    requires BlockInv(b, id, s.tail, s.head, s.pushed) && off < BLOCK_CAP - 1
    requires b.slots[off].write && !b.slots[off].read && b.slots[off].reader == By(t)
    ensures BlockInv(Marked(b, off, t), id, s.tail, s.head, s.pushed)
    ensures SameBlock(b, Marked(b, off, t), |s.pushers|, t)
  {
    hide Count;
    var b' := Marked(b, off, t);
    assert SlotInv(b.slots[off], LAP * id + off, s.tail, s.head, s.pushed, b.token);
    MarkedToken(b, id, off, t, s);
    hide TokenInv;
    forall j | 0 <= j < BLOCK_CAP
      ensures SlotInv(b'.slots[j], LAP * id + j, s.tail, s.head, s.pushed, b'.token)
    {
      assert SlotInv(b.slots[j], LAP * id + j, s.tail, s.head, s.pushed, b.token);
    }
  }

  lemma MarkedToken<T>(b: Block<T>, id: nat, off: nat, t: nat, s: State<T>)
    requires TokenInv(b) && off < BLOCK_CAP - 1
    requires SlotInv(b.slots[off], LAP * id + off, s.tail, s.head, s.pushed, b.token)
    requires b.slots[off].write && !b.slots[off].read && b.slots[off].reader == By(t)
    ensures TokenInv(Marked(b, off, t)) && SameBlock(b, Marked(b, off, t), |s.pushers|, t)
    ensures b.token.NotYet? ==> Marked(b, off, t).token.NotYet?
  {
  }

  lemma MarkKeeps<T>(s: State<T>, t: nat, p: nat, block: nat, got: Option<T>)
    requires Inv(s) && t < |s.thieves| && s.thieves[t] == TMark(p, block, got)
    ensures HasSlot(s, block, p % LAP) && Inv(MarkStep(s, t, p, block, got))
  {
    assert ThiefInv(s, t, s.thieves[t]);
    var b, off := s.blocks[block], p % LAP;
    assert BlockInv(b, block, s.tail, s.head, s.pushed);
    MarkedBlock(b, block, off, t, s);
    CountMonotone(p, s.head);
    StealBlock(s, t, block, Marked(b, off, t),
               if b.slots[off].destroy then TDestroy(p, block, got, off) else Stole(Count(p), got));
  }

  /** The token moves on (to `token`) without any slot changing. */
  lemma TokenMoved<T>(b: Block<T>, id: nat, t: nat, b': Block<T>, s: State<T>)
    requires BlockInv(b, id, s.tail, s.head, s.pushed) && b.token.Held? && b.token.thread == t
    requires b' == b.(token := b'.token, frees := b'.frees) && TokenInv(b') && !b'.token.NotYet?
    ensures BlockInv(b', id, s.tail, s.head, s.pushed) && SameBlock(b, b', |s.pushers|, t)
  {
    forall k | 0 <= k < BLOCK_CAP
      ensures SlotInv(b.slots[k], LAP * id + k, s.tail, s.head, s.pushed, b'.token)
    {
      assert SlotInv(b.slots[k], LAP * id + k, s.tail, s.head, s.pushed, b.token);
    }
  }

  lemma DestroyKeeps<T>(s: State<T>, t: nat, p: nat, block: nat, got: Option<T>, i: nat)
    requires Inv(s) && t < |s.thieves| && s.thieves[t] == TDestroy(p, block, got, i)
    ensures block < |s.blocks| && i <= |s.blocks[block].slots|
    ensures Inv(DestroyStep(s, t, p, block, got, i))
  {
    assert ThiefInv(s, t, s.thieves[t]);
    var b := s.blocks[block];
    assert BlockInv(b, block, s.tail, s.head, s.pushed);
    if i == 0 {
      var b' := b.(token := Freed, frees := b.frees + 1);
      TokenMoved(b, block, t, b', s);
      StealBlock(s, t, block, b', Stole(Count(p), got));
    } else if b.slots[i - 1].read {
      var b' := b.(token := Held(t, i - 1));
      TokenMoved(b, block, t, b', s);
      StealBlock(s, t, block, b', TDestroy(p, block, got, i - 1));
    } else {
      StealLocal(s, t, TDestroyOr(p, block, got, i));
    }
  }

  lemma SweptBlock<T>(b: Block<T>, id: nat, j: nat, t: nat, s: State<T>)
    requires BlockInv(b, id, s.tail, s.head, s.pushed) && b.token == Held(t, j + 1)
    ensures BlockInv(Swept(b, j, t), id, s.tail, s.head, s.pushed)
    ensures SameBlock(b, Swept(b, j, t), |s.pushers|, t)
  {
    var b' := Swept(b, j, t);
    forall k | 0 <= k < BLOCK_CAP
      ensures SlotInv(b'.slots[k], LAP * id + k, s.tail, s.head, s.pushed, b'.token)
    {
      assert SlotInv(b.slots[k], LAP * id + k, s.tail, s.head, s.pushed, b.token);
    }
  }

  lemma DestroyOrKeeps<T>(s: State<T>, t: nat, p: nat, block: nat, got: Option<T>, i: nat)
    requires Inv(s) && t < |s.thieves| && s.thieves[t] == TDestroyOr(p, block, got, i)
    ensures i > 0 && HasSlot(s, block, i - 1) && Inv(DestroyOrStep(s, t, p, block, got, i))
  {
    assert ThiefInv(s, t, s.thieves[t]);
    var b := s.blocks[block];
    assert BlockInv(b, block, s.tail, s.head, s.pushed);
    SweptBlock(b, block, i - 1, t, s);
    StealBlock(s, t, block, Swept(b, i - 1, t),
               if b.slots[i - 1].read then TDestroy(p, block, got, i - 1) else Stole(Count(p), got));
  }

  lemma PushStepKeeps<T>(s: State<T>, t: nat, weak: bool)
    requires Inv(s) && t < |s.pushers|
    ensures Inv(PushStep(s, t, weak))
  {
    var pc := s.pushers[t];
    assert PusherInv(s, t, pc);
    match pc
    case PRest =>
    case PLoadBlock(task, tail) => PushLocal(s, t, PCas(task, tail, s.tailBlock));
    case PCas(task, tail, block) => PushCasKeeps(s, t, weak, task, tail, block);
    case PStoreBlock(_, _, _) => InstallKeeps(s, t);
    case PStoreIndex(_, _, _, _) => InstallKeeps(s, t);
    case PStoreNext(_, _, _, _) => LinkKeeps(s, t);
    case PWrite(task, pos, block) =>
      var slot := s.blocks[block].slots[pos % LAP].(task := Some(task));
      PublishKeeps(s, t, task, pos, block, slot, PMark(task, pos, block));
    case PMark(task, pos, block) =>
      PublishKeeps(s, t, task, pos, block, s.blocks[block].slots[pos % LAP].(write := true), PRest);
  }

  lemma StealStepKeeps<T>(s: State<T>, t: nat, weak: bool)
    requires Inv(s) && t < |s.thieves|
    ensures Inv(StealStep(s, t, weak))
  {
    var pc := s.thieves[t];
    match pc
    case TLoadBlock(_, _) => LookupKeeps(s, t);
    case TLoadTail(_, _) => LookupKeeps(s, t);
    case TCas(h, hn, block, hn') => StealCasKeeps(s, t, weak, h, hn, block, hn');
    case TWaitNext(_, _) => LookupKeeps(s, t);
    case TPeekNext(_, _, _) => LookupKeeps(s, t);
    case TStoreBlock(_, _, _, _) => MoveHeadKeeps(s, t);
    case TStoreIndex(_, _, _, _) => MoveHeadKeeps(s, t);
    case TWaitWrite(_, _) => LookupKeeps(s, t);
    case TRead(p, block) => ReadKeeps(s, t, p, block);
    case TMark(p, block, got) => MarkKeeps(s, t, p, block, got);
    case TDestroy(p, block, got, i) => DestroyKeeps(s, t, p, block, got, i);
    case TDestroyOr(p, block, got, i) => DestroyOrKeeps(s, t, p, block, got, i);
    case _ => StealLocal(s, t, TLoadBlock(s.head, s.headNext));
  }

  lemma StepKeeps<T>(s: State<T>, m: Move<T>)
    requires Inv(s)
    ensures Inv(Step(s, m))
  {
    match m
    case Push(t, task) =>
      if t < |s.pushers| && s.pushers[t].PRest? { PushLocal(s, t, PLoadBlock(task, s.tail)); }
    case PushGo(t, weak) => if t < |s.pushers| { PushStepKeeps(s, t, weak); }
    case StealGo(t, weak) => if t < |s.thieves| { StealStepKeeps(s, t, weak); }
  }

  lemma InitInv<T>(pushers: nat, thieves: nat)
    ensures Inv(Init<T>(pushers, thieves))
  {
  }

  lemma {:induction false} RunKeeps<T>(s: State<T>, moves: seq<Move<T>>)
    requires Inv(s)
    ensures Inv(Run(s, moves))
    decreases |moves|
  {
    if moves == [] {
    } else {
      StepKeeps(s, moves[0]);
      RunKeeps(Step(s, moves[0]), moves[1..]);
    }
  }

  // ------------------------------------------------------------ main theorems

  /** The block that a thread's next access goes to, if any. */
  function PusherTouches<T>(pc: Pusher<T>): Option<nat> {
    match pc
    case PStoreNext(_, _, block, _) => Some(block)
    case PWrite(_, _, block) => Some(block)
    case PMark(_, _, block) => Some(block)
    case _ => None
  }

  function ThiefTouches<T>(pc: Thief<T>): Option<nat> {
    match pc
    case TWaitNext(_, block) => Some(block)
    case TPeekNext(_, _, next) => Some(next)
    case TWaitWrite(_, block) => Some(block)
    case TRead(_, block) => Some(block)
    case TMark(_, block, _) => Some(block)
    case TDestroy(_, block, _, _) => Some(block)
    case TDestroyOr(_, block, _, _) => Some(block)
    case _ => None
  }

  ghost predicate Live<T>(s: State<T>, block: nat) {
    block < |s.blocks| && |s.blocks[block].slots| == BLOCK_CAP && s.blocks[block].frees == 0
  }

  lemma PusherTouchesLive<T>(s: State<T>, t: nat)
    requires Inv(s) && t < |s.pushers| && PusherTouches(s.pushers[t]).Some?
    ensures Live(s, PusherTouches(s.pushers[t]).value)
  {
    var pc := s.pushers[t];
    assert PusherInv(s, t, pc);
    var b := s.blocks[pc.block];
    assert BlockInv(b, pc.block, s.tail, s.head, s.pushed);
  }

  lemma ThiefTouchesLive<T>(s: State<T>, t: nat)
    requires Inv(s) && t < |s.thieves| && ThiefTouches(s.thieves[t]).Some?
    ensures Live(s, ThiefTouches(s.thieves[t]).value)
  {
    var pc := s.thieves[t];
    assert ThiefInv(s, t, pc);
    var k := ThiefTouches(pc).value;
    assert BlockInv(s.blocks[k], k, s.tail, s.head, s.pushed);
  }

  /**
   No use after free: in every reachable state, whatever block the next access of
   any pusher or stealer goes to exists and has not been freed.
   */
  lemma NoUseAfterFree<T>(pushers: nat, thieves: nat, moves: seq<Move<T>>)
    ensures var s := Run(Init<T>(pushers, thieves), moves);
      && (forall t :: 0 <= t < |s.pushers| && PusherTouches(s.pushers[t]).Some? ==>
            Live(s, PusherTouches(s.pushers[t]).value))
      && (forall t :: 0 <= t < |s.thieves| && ThiefTouches(s.thieves[t]).Some? ==>
            Live(s, ThiefTouches(s.thieves[t]).value))
  {
    InitInv<T>(pushers, thieves);
    RunKeeps(Init<T>(pushers, thieves), moves);
    var s := Run(Init<T>(pushers, thieves), moves);
    forall t | 0 <= t < |s.pushers| && PusherTouches(s.pushers[t]).Some?
      ensures Live(s, PusherTouches(s.pushers[t]).value)
    {
      PusherTouchesLive(s, t);
    }
    forall t | 0 <= t < |s.thieves| && ThiefTouches(s.thieves[t]).Some?
      ensures Live(s, ThiefTouches(s.thieves[t]).value)
    {
      ThiefTouchesLive(s, t);
    }
  }

  ghost predicate Destroying<T>(pc: Thief<T>, block: nat) {
    (pc.TDestroy? || pc.TDestroyOr?) && pc.block == block
  }

  /**
   The hand-off is safe: at most one thread is destroying a block, a block is freed at most
   once, and a freed block had every slot written and all but the last marked read.
   */
  lemma FreedAtMostOnce<T>(pushers: nat, thieves: nat, moves: seq<Move<T>>, block: nat)
    requires block < |Run(Init<T>(pushers, thieves), moves).blocks|
    ensures var s := Run(Init<T>(pushers, thieves), moves);
      var b := s.blocks[block];
      && b.frees <= 1
      && (forall t, u | 0 <= t < |s.thieves| && 0 <= u < |s.thieves| ::
            Destroying(s.thieves[t], block) && Destroying(s.thieves[u], block) ==> t == u)
      && (forall t :: 0 <= t < |s.thieves| && Destroying(s.thieves[t], block) ==> b.frees == 0)
      && (b.frees == 1 ==> forall j :: 0 <= j < |b.slots| ==>
            b.slots[j].write && (j < BLOCK_CAP - 1 ==> b.slots[j].read))
  {
    InitInv<T>(pushers, thieves);
    RunKeeps(Init<T>(pushers, thieves), moves);
    var s := Run(Init<T>(pushers, thieves), moves);
    var b := s.blocks[block];
    assert BlockInv(b, block, s.tail, s.head, s.pushed);
    forall t | 0 <= t < |s.thieves| && Destroying(s.thieves[t], block)
      ensures b.token.Held? && b.token.thread == t
    {
      assert ThiefInv(s, t, s.thieves[t]);
    }
    if b.frees == 1 {
      forall j | 0 <= j < |b.slots|
        ensures b.slots[j].write && (j < BLOCK_CAP - 1 ==> b.slots[j].read)
      {
        assert SlotInv(b.slots[j], LAP * block + j, s.tail, s.head, s.pushed, b.token);
      }
    }
  }

  /** `len` on a consistent pair of indices, as computed from the raw positions. */
  function Len(head: nat, tail: nat): int {
    var t := if tail % LAP == LAP - 1 then tail + 1 else tail;
    var h := if head % LAP == LAP - 1 then head + 1 else head;
    var lap := h / LAP;
    var t' := t - lap * LAP;
    var h' := h - lap * LAP;
    t' - h' - t' / LAP
  }

  /** `len` is the number of tasks pushed and not yet claimed. */
  lemma LenCounts(head: nat, tail: nat)
    requires head <= tail
    ensures Len(head, tail) == Count(tail) - Count(head)
  {
  }

  lemma TailStep<T>(s: State<T>, m: Move<T>)
    requires Inv(s)
    ensures s.tail <= Step(s, m).tail
  {
    hide PushStep, StealStep;
    match m {
      case Push(t, task) =>
      case PushGo(t, weak) => if t < |s.pushers| { PushTail(s, t, weak); }
      case StealGo(t, weak) => if t < |s.thieves| { StealTail(s, t, weak); }
    }
  }

  lemma PushTail<T>(s: State<T>, t: nat, weak: bool)
    requires PushersInv(s) && t < |s.pushers|
    ensures s.tail <= PushStep(s, t, weak).tail
  {
    assert PusherInv(s, t, s.pushers[t]);
    hide Writing, SetSlot, SetBlock;
  }

  lemma StealTail<T>(s: State<T>, t: nat, weak: bool)
    requires t < |s.thieves|
    ensures StealStep(s, t, weak).tail == s.tail
  {
  }

  lemma {:induction false} TailGrows<T>(s: State<T>, moves: seq<Move<T>>)
    requires Inv(s)
    ensures Inv(Run(s, moves)) && s.tail <= Run(s, moves).tail
    decreases |moves|
  {
    hide Inv, Step;
    if moves == [] {
    } else {
      TailStep(s, moves[0]);
      StepKeeps(s, moves[0]);
      TailGrows(Step(s, moves[0]), moves[1..]);
    }
  }

  /**
   The three loads of `len`, with anything going on between them: when the second load of the tail
   agrees with the first, the result is the number of tasks pushed and not claimed at the moment the
   head was loaded.
   */
  lemma LenIsExact<T>(pushers: nat, thieves: nat, before: seq<Move<T>>, toHead: seq<Move<T>>, toTail: seq<Move<T>>)
    requires var s0 := Run(Init<T>(pushers, thieves), before); Run(Run(s0, toHead), toTail).tail == s0.tail
    ensures var s0 := Run(Init<T>(pushers, thieves), before); var s1 := Run(s0, toHead);
      Count(s1.head) <= |s1.pushed| && Len(s1.head, s0.tail) == |s1.pushed| - Count(s1.head)
  {
    InitInv<T>(pushers, thieves);
    var s0 := Run(Init<T>(pushers, thieves), before);
    RunKeeps(Init<T>(pushers, thieves), before);
    TailGrows(s0, toHead);
    TailGrows(Run(s0, toHead), toTail);
    LenCounts(Run(s0, toHead).head, s0.tail);
  }
}
