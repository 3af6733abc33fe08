/**
 What becomes of every claim and every block of the injector.  The protocol invariant says what
 threads may rely on; here it is turned round: whatever is claimed is owed by a thread still
 under way, so with nobody under way every claim has been returned and every finished block freed.
 */
module InjectorFates {
  import opened Types
  import opened Injector

  /** Stealer `taker` returned the task numbered `n`. */
  datatype Return<T> = Return(taker: nat, n: nat, got: Option<T>)

  /** What stealer `t` shows its caller. */
  ghost function Shows<T>(s: State<T>, t: nat): seq<Return<T>> {
    if t < |s.thieves| && s.thieves[t].Stole? then [Return(t, s.thieves[t].n, s.thieves[t].got)] else []
  }

  /** What move `m` makes a steal return, as the caller sees it. */
  ghost function Outcome<T>(s: State<T>, m: Move<T>): seq<Return<T>> {
    if m.StealGo? then Shows(Step(s, m), m.t) else []
  }

  /** Everything the steals of a run return, in order. */
  ghost function Returns<T>(s: State<T>, moves: seq<Move<T>>): seq<Return<T>>
    decreases |moves|
  {
    if moves == [] then [] else Outcome(s, moves[0]) + Returns(Step(s, moves[0]), moves[1..])
  }

  /** The stealer has claimed a position and not returned yet. */
  predicate Claiming<T>(pc: Thief<T>) {
    || pc.TWaitNext? || pc.TPeekNext? || pc.TStoreBlock? || pc.TStoreIndex? || pc.TWaitWrite?
    || pc.TRead? || pc.TMark? || pc.TDestroy? || pc.TDestroyOr?
  }

  // ----- counting -----

  ghost function Times<T>(h: seq<Return<T>>, n: nat): nat {
    if h == [] then 0 else One(h[0].n == n) + Times(h[1..], n)
  }

  predicate Carries<T>(pc: Thief<T>, n: nat) {
    Claiming(pc) && Count(pc.p) == n
  }

  ghost function InFlight<T>(ts: seq<Thief<T>>, n: nat): nat {
    if ts == [] then 0 else One(Carries(ts[0], n)) + InFlight(ts[1..], n)
  }

  lemma {:induction false} TimesPush<T>(h: seq<Return<T>>, r: Return<T>, n: nat)
    ensures Times(h + [r], n) == Times(h, n) + One(r.n == n)
  {
    if h == [] {
      assert h + [r] == [r];
    } else {
      TimesPush(h[1..], r, n);
      assert (h + [r])[1..] == h[1..] + [r];
    }
  }

  lemma {:induction false} TimesAt<T>(h: seq<Return<T>>, i: nat)
    requires i < |h|
    ensures Times(h, h[i].n) > 0
  {
    if i == 0 {
    } else {
      TimesAt(h[1..], i - 1);
    }
  }

  lemma {:induction false} TimesTwice<T>(h: seq<Return<T>>, i: nat, j: nat)
    requires i < j < |h| && h[i].n == h[j].n
    ensures Times(h, h[i].n) > 1
  {
    if i == 0 {
      TimesAt(h[1..], j - 1);
    } else {
      TimesTwice(h[1..], i - 1, j - 1);
    }
  }

  lemma {:induction false} FindReturn<T>(h: seq<Return<T>>, n: nat) returns (i: nat)
    requires Times(h, n) > 0
    ensures i < |h| && h[i].n == n
  {
    if h[0].n == n {
      i := 0;
    } else {
      i := FindReturn(h[1..], n);
      i := i + 1;
    }
  }

  lemma {:induction false} FlightUpdate<T>(ts: seq<Thief<T>>, t: nat, pc: Thief<T>, n: nat)
    requires t < |ts|
    ensures InFlight(ts[t := pc], n) + One(Carries(ts[t], n)) == InFlight(ts, n) + One(Carries(pc, n))
  {
    if t == 0 {
      assert ts[0 := pc][1..] == ts[1..];
    } else {
      FlightUpdate(ts[1..], t - 1, pc, n);
      assert ts[t := pc][1..] == ts[1..][t - 1 := pc];
    }
  }

  lemma {:induction false} NoneInFlight<T>(ts: seq<Thief<T>>, n: nat)
    requires forall t :: 0 <= t < |ts| ==> !Claiming(ts[t])
    ensures InFlight(ts, n) == 0
  {
    if ts == [] {
    } else {
      NoneInFlight(ts[1..], n);
    }
  }

  // ----- claims and what was returned for them -----

  /** The position of the `n`-th task. */
  function Position(n: nat): nat { n + n / BLOCK_CAP }

  lemma PositionOf(p: nat)
    requires p % LAP < BLOCK_CAP
    ensures Position(Count(p)) == p
  {
  }

  /** The thread that claimed position `p` for reading. */
  function ReaderAt<T>(s: State<T>, p: nat): Agent {
    if HasSlot(s, p / LAP, p % LAP) then s.blocks[p / LAP].slots[p % LAP].reader else NoOne
  }

  /** The claim numbered `n`, once made, is still under way or has been returned once. */
  ghost predicate OneFate<T>(s: State<T>, h: seq<Return<T>>, n: nat) {
    Times(h, n) + InFlight(s.thieves, n) == One(n < Count(s.head))
  }

  /** A return hands over the task pushed under its number, to the thread that claimed it. */
  ghost predicate Good<T>(s: State<T>, r: Return<T>) {
    IsTask(s, r.n, r.got) && ReaderAt(s, Position(r.n)) == By(r.taker)
  }

  ghost predicate OwnClaim<T>(s: State<T>, t: nat)
    requires t < |s.thieves|
  {
    var pc := s.thieves[t];
    Claiming(pc) ==> pc.p % LAP < BLOCK_CAP && pc.block == pc.p / LAP && ReaderAt(s, pc.p) == By(t)
  }

  // ----- blocks and who owes their destruction -----

  /** The stealer has claimed position `p` and is not done with its slot. */
  predicate Under<T>(pc: Thief<T>, p: nat) {
    Claiming(pc) && !pc.TDestroy? && !pc.TDestroyOr? && pc.p == p
  }

  predicate Destroys<T>(pc: Thief<T>, id: nat, i: nat) {
    (pc.TDestroy? || pc.TDestroyOr?) && pc.block == id && pc.i == i
  }

  /** Slot `j` still waits for its reader: to mark it or, at the end of the block, to start destroying. */
  ghost predicate Waits<T>(b: Block<T>, j: nat)
    requires j < |b.slots|
  {
    if j + 1 == BLOCK_CAP then b.token.NotYet? else !b.slots[j].read
  }

  ghost predicate SlotOwed<T>(s: State<T>, id: nat, j: nat)
    requires id < |s.blocks| && j < |s.blocks[id].slots|
  {
    var x := s.blocks[id].slots[j].reader;
    && (LAP * id + j < s.head ==> x.By?)
    && (x.By? && Waits(s.blocks[id], j) ==> x.thread < |s.thieves| && Under(s.thieves[x.thread], LAP * id + j))
  }

  ghost predicate BlockOwed<T>(s: State<T>, id: nat)
    requires id < |s.blocks|
  {
    var b := s.blocks[id];
    && |b.slots| == BLOCK_CAP
    && (b.token.Held? ==> b.token.thread < |s.thieves| && Destroys(s.thieves[b.token.thread], id, b.token.i))
    && forall j :: 0 <= j < BLOCK_CAP ==> SlotOwed(s, id, j)
  }

  ghost predicate Fates<T>(s: State<T>, h: seq<Return<T>>) {
    && (forall n: nat :: OneFate(s, h, n))
    && (forall i :: 0 <= i < |h| ==> Good(s, h[i]))
    && (forall t :: 0 <= t < |s.thieves| ==> OwnClaim(s, t))
    && (forall id :: 0 <= id < |s.blocks| ==> BlockOwed(s, id))
  }

  // ----- frames -----

  /** Readers once set stay, and nothing pushed is forgotten. */
  ghost predicate Remembers<T>(s: State<T>, s': State<T>) {
    && s.pushed <= s'.pushed
    && forall p: nat :: ReaderAt(s, p).By? ==> ReaderAt(s', p) == ReaderAt(s, p)
  }

  /** Positions passed by the head lie in block `k`, apart from block ends. */
  ghost predicate Passes<T>(s: State<T>, s': State<T>, k: nat) {
    s.head <= s'.head && forall q :: s.head <= q < s'.head && q % LAP != BLOCK_CAP ==> q / LAP == k
  }

  /** Stealer `t` moves from `pc` to `pc'` and lets go of nothing outside block `k`. */
  ghost predicate HoldsOn<T>(pc: Thief<T>, pc': Thief<T>, k: nat) {
    && (forall p: nat :: Under(pc, p) && p / LAP != k ==> Under(pc', p))
    && (forall id: nat, i: nat :: Destroys(pc, id, i) && id != k ==> Destroys(pc', id, i))
  }

  ghost predicate OnlyThief<T>(s: State<T>, s': State<T>, t: nat) {
    && t < |s.thieves| == |s'.thieves|
    && forall u :: 0 <= u < |s.thieves| && u != t ==> s'.thieves[u] == s.thieves[u]
  }

  /** Blocks other than `k` are owed as before. */
  lemma OtherBlocks<T>(s: State<T>, s': State<T>, t: nat, k: nat, id: nat)
    requires id < |s.blocks| && BlockOwed(s, id) && id != k && id < |s'.blocks| && s'.blocks[id] == s.blocks[id]
    requires OnlyThief(s, s', t) && Passes(s, s', k) && HoldsOn(s.thieves[t], s'.thieves[t], k)
    ensures BlockOwed(s', id)
  {
    hide Under, Destroys, Waits;
    forall j | 0 <= j < BLOCK_CAP
      ensures SlotOwed(s', id, j)
    {
      assert SlotOwed(s, id, j);
      SlotPosition(id, j);
    }
  }

  lemma SlotPosition(id: nat, j: nat)
    requires j < BLOCK_CAP
    ensures (LAP * id + j) / LAP == id && (LAP * id + j) % LAP == j
  {
  }

  /** A step of stealer `t` accounts for claim `n`. */
  ghost predicate Accounts<T>(s: State<T>, s': State<T>, t: nat, out: seq<Return<T>>, n: nat)
    requires t < |s.thieves| && t < |s'.thieves|
  {
    One(|out| == 1 && out[0].n == n) + One(Carries(s'.thieves[t], n)) + One(n < Count(s.head))
    == One(Carries(s.thieves[t], n)) + One(n < Count(s'.head))
  }

  ghost predicate Books<T>(s: State<T>, s': State<T>, t: nat, out: seq<Return<T>>)
    requires t < |s.thieves| && t < |s'.thieves|
  {
    |out| <= 1 && (out != [] ==> Good(s', out[0])) && forall n: nat :: Accounts(s, s', t, out, n)
  }

  /** The shape of every stealer step: block `k`, if any, is the only one that changed. */
  lemma ThiefStep<T>(s: State<T>, s': State<T>, t: nat, k: nat, out: seq<Return<T>>, h: seq<Return<T>>)
    requires Fates(s, h) && OnlyThief(s, s', t) && Remembers(s, s') && Passes(s, s', k)
    requires |s'.blocks| == |s.blocks|
    requires forall id :: 0 <= id < |s.blocks| && id != k ==> s'.blocks[id] == s.blocks[id]
    requires k < |s.blocks| ==> BlockOwed(s', k)
    requires OwnClaim(s', t) && HoldsOn(s.thieves[t], s'.thieves[t], k) && Books(s, s', t, out)
    ensures Fates(s', h + out)
  {
    BooksKept(s, s', t, out, h);
    hide OneFate, Good, Books, ReaderAt;
    forall u | 0 <= u < |s'.thieves|
      ensures OwnClaim(s', u)
    {
      if u != t { assert OwnClaim(s, u); }
    }
    hide BlockOwed, HoldsOn, Passes;
    forall id | 0 <= id < |s'.blocks|
      ensures BlockOwed(s', id)
    {
      if id != k { OtherBlocks(s, s', t, k, id); }
    }
  }

  lemma BooksKept<T>(s: State<T>, s': State<T>, t: nat, out: seq<Return<T>>, h: seq<Return<T>>)
    requires Fates(s, h) && OnlyThief(s, s', t) && Remembers(s, s') && Books(s, s', t, out)
    ensures forall n: nat :: OneFate(s', h + out, n)
    ensures forall i :: 0 <= i < |h + out| ==> Good(s', (h + out)[i])
  {
    hide BlockOwed, OwnClaim, Carries, Times, InFlight, Count, ReaderAt;
    forall n: nat
      ensures OneFate(s', h + out, n)
    {
      assert OneFate(s, h, n) && Accounts(s, s', t, out, n);
      assert s'.thieves == s.thieves[t := s'.thieves[t]];
      FlightUpdate(s.thieves, t, s'.thieves[t], n);
      if out == [] {
        assert h + out == h;
      } else {
        TimesPush(h, out[0], n);
        assert h + out == h + [out[0]];
      }
    }
    forall i | 0 <= i < |h + out|
      ensures Good(s', (h + out)[i])
    {
      if i < |h| { assert Good(s, h[i]); }
    }
  }

  // ----- pushers -----

  /** What a pusher leaves alone: indices stealers use, readers, marks and tokens. */
  ghost predicate SameReaders<T>(b: Block<T>, b': Block<T>) {
    && |b'.slots| == |b.slots| && b'.token == b.token
    && forall j :: 0 <= j < |b.slots| ==>
         b'.slots[j].reader == b.slots[j].reader && b'.slots[j].read == b.slots[j].read
  }

  ghost predicate Untouched<T>(b: Block<T>) {
    && |b.slots| == BLOCK_CAP && b.token.NotYet?
    && forall j :: 0 <= j < |b.slots| ==> b.slots[j].reader.NoOne?
  }

  lemma PusherStep<T>(s: State<T>, s': State<T>, h: seq<Return<T>>)
    requires Fates(s, h) && s'.thieves == s.thieves && s'.head == s.head && s.pushed <= s'.pushed
    requires |s.blocks| <= |s'.blocks| && s.head <= LAP * |s.blocks|
    requires forall id :: 0 <= id < |s.blocks| ==> SameReaders(s.blocks[id], s'.blocks[id])
    requires forall id :: |s.blocks| <= id < |s'.blocks| ==> Untouched(s'.blocks[id])
    ensures Fates(s', h)
  {
    hide InFlight, Times;
    assert Remembers(s, s');
    forall n: nat
      ensures OneFate(s', h, n)
    {
      assert OneFate(s, h, n);
    }
    forall i | 0 <= i < |h|
      ensures Good(s', h[i])
    {
      assert Good(s, h[i]);
    }
    forall t | 0 <= t < |s'.thieves|
      ensures OwnClaim(s', t)
    {
      assert OwnClaim(s, t);
    }
    forall id | 0 <= id < |s'.blocks|
      ensures BlockOwed(s', id)
    {
      PusherBlock(s, s', h, id);
    }
  }

  lemma PusherBlock<T>(s: State<T>, s': State<T>, h: seq<Return<T>>, id: nat)
    requires Fates(s, h) && s'.thieves == s.thieves && s'.head == s.head
    requires |s.blocks| <= |s'.blocks| && id < |s'.blocks| && s.head <= LAP * |s.blocks|
    requires if id < |s.blocks| then SameReaders(s.blocks[id], s'.blocks[id]) else Untouched(s'.blocks[id])
    ensures BlockOwed(s', id)
  {
    hide OneFate, Good, OwnClaim, Under, Destroys;
    if id < |s.blocks| {
      assert BlockOwed(s, id);
      forall j | 0 <= j < BLOCK_CAP
        ensures SlotOwed(s', id, j)
      {
        assert SlotOwed(s, id, j);
      }
    }
  }

  lemma PushStepFates<T>(s: State<T>, t: nat, weak: bool, h: seq<Return<T>>)
    requires Inv(s) && Fates(s, h) && t < |s.pushers|
    ensures Fates(PushStep(s, t, weak), h)
  {
    PushStepShape(s, t, weak);
    hide Inv, Fates, PushStep, SameReaders, Untouched;
    PusherStep(s, PushStep(s, t, weak), h);
  }

  /** What no pusher changes. */
  ghost predicate PushShape<T>(s: State<T>, s': State<T>) {
    && s'.thieves == s.thieves && s'.head == s.head && s.pushed <= s'.pushed && |s.blocks| <= |s'.blocks|
    && (forall id :: 0 <= id < |s.blocks| ==> SameReaders(s.blocks[id], s'.blocks[id]))
    && (forall id :: |s.blocks| <= id < |s'.blocks| ==> Untouched(s'.blocks[id]))
  }

  lemma PushStepShape<T>(s: State<T>, t: nat, weak: bool)
    requires IndexInv(s) && t < |s.pushers|
    ensures PushShape(s, PushStep(s, t, weak)) && s.head <= LAP * |s.blocks|
  {
    HeadBelow(s);
    hide IndexInv;
    if s.pushers[t].PCas? {
      CasShape(s, t, weak, s.pushers[t].task, s.pushers[t].tail, s.pushers[t].block);
    } else {
      hide PushCas;
      StoreShape(s, t, weak);
    }
  }

  lemma HeadBelow<T>(s: State<T>)
    requires IndexInv(s)
    ensures s.head <= LAP * |s.blocks|
  {
  }

  lemma CasShape<T>(s: State<T>, t: nat, weak: bool, task: T, tail: nat, block: nat)
    requires t < |s.pushers|
    ensures PushShape(s, PushCas(s, t, weak, task, tail, block))
  {
  }

  lemma StoreShape<T>(s: State<T>, t: nat, weak: bool)
    requires t < |s.pushers| && !s.pushers[t].PCas?
    ensures PushShape(s, PushStep(s, t, weak))
  {
    hide PushCas;
  }

  // ----- stealers -----

  /** A step of `t` that changes no block and no claim. */
  ghost predicate Quiet<T>(s: State<T>, s': State<T>, t: nat) {
    && OnlyThief(s, s', t) && s'.blocks == s.blocks && s'.pushed == s.pushed
    && s.head <= s'.head && Count(s'.head) == Count(s.head)
    && (s.head < s'.head ==> s'.head == s.head + 1 && s.head % LAP == BLOCK_CAP)
    && var pc, pc' := s.thieves[t], s'.thieves[t];
       && Claiming(pc') == Claiming(pc) && (Claiming(pc) ==> pc'.p == pc.p && pc'.block == pc.block)
       && (pc.TDestroy? || pc.TDestroyOr? <==> pc'.TDestroy? || pc'.TDestroyOr?)
       && (pc.TDestroy? || pc.TDestroyOr? ==> pc'.i == pc.i)
  }

  lemma QuietStep<T>(s: State<T>, s': State<T>, t: nat, h: seq<Return<T>>)
    requires Fates(s, h) && Quiet(s, s', t)
    ensures Fates(s', h)
  {
    assert OwnClaim(s, t);
    assert h + [] == h;
    hide Fates, BlockOwed, Count;
    ThiefStep(s, s', t, |s.blocks|, [], h);
  }

  lemma ClaimFates<T>(s: State<T>, t: nat, h0: nat, hn: bool, block: nat, hn': bool, h: seq<Return<T>>)
    requires Inv(s) && Fates(s, h) && t < |s.thieves| && s.thieves[t] == TCas(h0, hn, block, hn')
    requires HasSlot(s, block, h0 % LAP) && s.head == h0 && s.headNext == hn
    ensures Fates(StealCas(s, t, false, h0, hn, block, hn'), h)
  {
    var s' := StealCas(s, t, false, h0, hn, block, hn');
    assert ThiefInv(s, t, s.thieves[t]);
    assert BlockInv(s.blocks[block], block, s.tail, s.head, s.pushed);
    assert SlotInv(s.blocks[block].slots[h0 % LAP], h0, s.tail, s.head, s.pushed, s.blocks[block].token);
    ClaimShape(s, t, h0, hn, block, hn');
    assert BlockOwed(s, block);
    ClaimOwed(s, t, h0, hn, block, hn');
    assert h + [] == h;
    hide Inv, Fates, BlockOwed, StealCas, Count;
    ThiefStep(s, s', t, block, [], h);
  }

  lemma ClaimShape<T>(s: State<T>, t: nat, h0: nat, hn: bool, block: nat, hn': bool)
    requires IndexInv(s) && t < |s.thieves| && s.thieves[t] == TCas(h0, hn, block, hn') && ThiefInv(s, t, s.thieves[t])
    requires HasSlot(s, block, h0 % LAP) && s.head == h0 && s.headNext == hn
    requires s.blocks[block].slots[h0 % LAP].reader.NoOne?
    ensures var s' := StealCas(s, t, false, h0, hn, block, hn');
      && OnlyThief(s, s', t) && Remembers(s, s') && Passes(s, s', block) && |s'.blocks| == |s.blocks|
      && (forall id :: 0 <= id < |s.blocks| && id != block ==> s'.blocks[id] == s.blocks[id])
      && OwnClaim(s', t) && HoldsOn(s.thieves[t], s'.thieves[t], block) && Books(s, s', t, [])
  {
    hide Count;
    ClaimCounts(h0);
  }

  lemma ClaimCounts(p: nat)
    requires p % LAP != BLOCK_CAP
    ensures Count(p + 1) == Count(p) + 1
  {
  }

  lemma ClaimOwed<T>(s: State<T>, t: nat, h0: nat, hn: bool, block: nat, hn': bool)
    requires t < |s.thieves| && s.thieves[t] == TCas(h0, hn, block, hn') && block == h0 / LAP && h0 % LAP < BLOCK_CAP
    requires HasSlot(s, block, h0 % LAP) && s.head == h0 && s.headNext == hn && BlockOwed(s, block)
    ensures BlockOwed(StealCas(s, t, false, h0, hn, block, hn'), block)
  {
    var s' := StealCas(s, t, false, h0, hn, block, hn');
    assert s'.head == h0 + 1 && Under(s'.thieves[t], h0) && s'.blocks[block].token == s.blocks[block].token;
    ClaimedSlot(s, t, h0, hn, block, hn');
    hide StealCas, Destroys;
    forall j | 0 <= j < BLOCK_CAP
      ensures SlotOwed(s', block, j)
    {
      assert SlotOwed(s, block, j);
      SlotPosition(block, j);
    }
  }

  lemma ClaimedSlot<T>(s: State<T>, t: nat, h0: nat, hn: bool, block: nat, hn': bool)
    requires t < |s.thieves| && HasSlot(s, block, h0 % LAP) && s.head == h0 && s.headNext == hn
    ensures var b, b' := s.blocks[block], StealCas(s, t, false, h0, hn, block, hn').blocks[block];
      && b' == b.(slots := b.slots[h0 % LAP := b.slots[h0 % LAP].(reader := By(t))])
      && OnlyThief(s, StealCas(s, t, false, h0, hn, block, hn'), t)
  {
  }

  /** The part of a steal that works on its own block after the claim: same readers, one token. */
  ghost predicate WorksOn<T>(b: Block<T>, b': Block<T>, t: nat, pc: Thief<T>, pc': Thief<T>)
    requires Claiming(pc)
  {
    && |b'.slots| == |b.slots| == BLOCK_CAP
    && (forall j :: 0 <= j < BLOCK_CAP ==> b'.slots[j].reader == b.slots[j].reader)
    && (forall j :: 0 <= j < BLOCK_CAP && Waits(b', j) ==> Waits(b, j) && !Under(pc, LAP * pc.block + j))
    && (b'.token.Held? ==> (b'.token == b.token && !Destroys(pc, pc.block, b.token.i))
                           || (b'.token.thread == t && Destroys(pc', pc.block, b'.token.i)))
  }

  lemma WorkOwed<T>(s: State<T>, s': State<T>, t: nat)
    requires t < |s.thieves| && Claiming(s.thieves[t]) && OnlyThief(s, s', t) && s'.head == s.head
    requires var k := s.thieves[t].block; k < |s.blocks| == |s'.blocks| && BlockOwed(s, k)
    requires var k := s.thieves[t].block; WorksOn(s.blocks[k], s'.blocks[k], t, s.thieves[t], s'.thieves[t])
    ensures BlockOwed(s', s.thieves[t].block)
  {
    var k := s.thieves[t].block;
    hide Under, Destroys, Waits;
    forall j | 0 <= j < BLOCK_CAP
      ensures SlotOwed(s', k, j)
    {
      assert SlotOwed(s, k, j);
    }
  }

  /** A stealer at work on its block: nothing else changes, and what it returns is its own claim. */
  lemma WorkStep<T>(s: State<T>, t: nat, b': Block<T>, pc': Thief<T>, h: seq<Return<T>>)
    requires Fates(s, h) && t < |s.thieves| && Claiming(s.thieves[t]) && s.thieves[t].block < |s.blocks|
    requires WorksOn(s.blocks[s.thieves[t].block], b', t, s.thieves[t], pc')
    requires Claiming(pc') || pc'.Stole?
    requires Claiming(pc') ==> pc'.p == s.thieves[t].p && pc'.block == s.thieves[t].block
    requires pc'.Stole? ==> pc'.n == Count(s.thieves[t].p) && IsTask(s, pc'.n, pc'.got)
    requires HoldsOn(s.thieves[t], pc', s.thieves[t].block)
    ensures Fates(TAt(SetBlock(s, s.thieves[t].block, b'), t, pc'),
                  h + if pc'.Stole? then [Return(t, pc'.n, pc'.got)] else [])
  {
    var pc := s.thieves[t];
    var k := pc.block;
    var s' := TAt(SetBlock(s, k, b'), t, pc');
    var out := if pc'.Stole? then [Return(t, pc'.n, pc'.got)] else [];
    assert OwnClaim(s, t) && BlockOwed(s, k);
    PositionOf(pc.p);
    WorkOwed(s, s', t);
    assert Remembers(s, s');
    hide Fates, BlockOwed, WorksOn, Position, Count, HoldsOn;
    assert Books(s, s', t, out);
    ThiefStep(s, s', t, k, out, h);
  }

  /** Steps that touch no block: looking around, waiting, moving the head on. */
  predicate Looks<T>(pc: Thief<T>) {
    || pc.TRest? || pc.Stole? || pc.Empty? || pc.Retry? || pc.TLoadBlock? || pc.TLoadTail? || pc.TWaitNext?
    || pc.TPeekNext? || pc.TStoreBlock? || pc.TStoreIndex? || pc.TWaitWrite?
  }

  lemma LookFates<T>(s: State<T>, t: nat, weak: bool, h: seq<Return<T>>)
    requires Inv(s) && Fates(s, h) && t < |s.thieves| && Looks(s.thieves[t])
    ensures Fates(StealStep(s, t, weak), h) && Shows(StealStep(s, t, weak), t) == []
  {
    assert ThiefInv(s, t, s.thieves[t]);
    LookShape(s, t, weak);
    hide Inv, Fates, ThiefInv, StealStep, Count;
    QuietStep(s, StealStep(s, t, weak), t, h);
  }

  lemma LookShape<T>(s: State<T>, t: nat, weak: bool)
    requires IndexInv(s) && t < |s.thieves| && Looks(s.thieves[t]) && ThiefInv(s, t, s.thieves[t])
    ensures Quiet(s, StealStep(s, t, weak), t) && Shows(StealStep(s, t, weak), t) == []
  {
    if Claiming(s.thieves[t]) {
      ClaimingLooks(s, t, weak);
    } else {
      hide IndexInv, ThiefInv, Count;
      IdleLooks(s, t, weak);
    }
  }

  lemma IdleLooks<T>(s: State<T>, t: nat, weak: bool)
    requires t < |s.thieves| && Looks(s.thieves[t]) && !Claiming(s.thieves[t])
    ensures Quiet(s, StealStep(s, t, weak), t) && Shows(StealStep(s, t, weak), t) == []
  {
    hide Count;
  }

  lemma ClaimingLooks<T>(s: State<T>, t: nat, weak: bool)
    requires IndexInv(s) && t < |s.thieves| && Looks(s.thieves[t]) && ThiefInv(s, t, s.thieves[t])
    requires Claiming(s.thieves[t])
    ensures Quiet(s, StealStep(s, t, weak), t) && Shows(StealStep(s, t, weak), t) == []
  {
  }

  lemma CasFates<T>(s: State<T>, t: nat, weak: bool, h: seq<Return<T>>)
    requires Inv(s) && Fates(s, h) && t < |s.thieves| && s.thieves[t].TCas?
    ensures Fates(StealStep(s, t, weak), h) && Shows(StealStep(s, t, weak), t) == []
  {
    var pc := s.thieves[t];
    if weak || s.head != pc.h || s.headNext != pc.hn || !HasSlot(s, pc.block, pc.h % LAP) {
      hide Inv, Fates, Count;
      QuietStep(s, TAt(s, t, Retry), t, h);
    } else {
      ClaimFates(s, t, pc.h, pc.hn, pc.block, pc.hn', h);
    }
  }

  lemma ReadFates<T>(s: State<T>, t: nat, p: nat, block: nat, h: seq<Return<T>>)
    requires Inv(s) && Fates(s, h) && t < |s.thieves| && s.thieves[t] == TRead(p, block)
    ensures HasSlot(s, block, p % LAP) && Fates(ReadStep(s, t, p, block), h)
  {
    assert ThiefInv(s, t, s.thieves[t]) && OwnClaim(s, t) && BlockOwed(s, block);
    var b, off := s.blocks[block], p % LAP;
    hide Inv, Fates, ThiefInv, BlockOwed, Count, IsTask;
    if off + 1 == BLOCK_CAP {
      assert h + [] == h;
      WorkStep(s, t, b.(token := Held(t, off)), TDestroy(p, block, b.slots[off].task, off), h);
    } else {
      QuietStep(s, ReadStep(s, t, p, block), t, h);
    }
  }

  lemma MarkFates<T>(s: State<T>, t: nat, p: nat, block: nat, got: Option<T>, h: seq<Return<T>>)
    requires Inv(s) && Fates(s, h) && t < |s.thieves| && s.thieves[t] == TMark(p, block, got)
    ensures HasSlot(s, block, p % LAP)
    ensures Fates(MarkStep(s, t, p, block, got), h + Shows(MarkStep(s, t, p, block, got), t))
  {
    assert ThiefInv(s, t, s.thieves[t]) && OwnClaim(s, t) && BlockOwed(s, block);
    var b, off := s.blocks[block], p % LAP;
    assert BlockInv(b, block, s.tail, s.head, s.pushed);
    assert SlotInv(b.slots[off], LAP * block + off, s.tail, s.head, s.pushed, b.token);
    var b' := Marked(b, off, t);
    var pc' := if b.slots[off].destroy then TDestroy(p, block, got, off) else Stole(Count(p), got);
    hide Inv, Fates, BlockOwed, Count, SlotInv, TokenInv;
    WorkStep(s, t, b', pc', h);
  }

  lemma DestroyFates<T>(s: State<T>, t: nat, p: nat, block: nat, got: Option<T>, i: nat, h: seq<Return<T>>)
    requires Inv(s) && Fates(s, h) && t < |s.thieves| && s.thieves[t] == TDestroy(p, block, got, i)
    ensures block < |s.blocks| && i <= |s.blocks[block].slots|
    ensures Fates(DestroyStep(s, t, p, block, got, i), h + Shows(DestroyStep(s, t, p, block, got, i), t))
  {
    assert ThiefInv(s, t, s.thieves[t]) && OwnClaim(s, t) && BlockOwed(s, block);
    var b := s.blocks[block];
    assert BlockInv(b, block, s.tail, s.head, s.pushed);
    hide Inv, Fates, BlockOwed, Count, SlotInv;
    if i == 0 {
      WorkStep(s, t, b.(token := Freed, frees := b.frees + 1), Stole(Count(p), got), h);
    } else if b.slots[i - 1].read {
      WorkStep(s, t, b.(token := Held(t, i - 1)), TDestroy(p, block, got, i - 1), h);
    } else {
      assert h + [] == h;
      QuietStep(s, TAt(s, t, TDestroyOr(p, block, got, i)), t, h);
    }
  }

  lemma DestroyOrFates<T>(s: State<T>, t: nat, p: nat, block: nat, got: Option<T>, i: nat, h: seq<Return<T>>)
    requires Inv(s) && Fates(s, h) && t < |s.thieves| && s.thieves[t] == TDestroyOr(p, block, got, i)
    ensures i > 0 && HasSlot(s, block, i - 1)
    ensures Fates(DestroyOrStep(s, t, p, block, got, i), h + Shows(DestroyOrStep(s, t, p, block, got, i), t))
  {
    assert ThiefInv(s, t, s.thieves[t]) && OwnClaim(s, t) && BlockOwed(s, block);
    var b := s.blocks[block];
    assert BlockInv(b, block, s.tail, s.head, s.pushed);
    hide Inv, Fates, BlockOwed, Count, SlotInv;
    WorkStep(s, t, Swept(b, i - 1, t),
             if b.slots[i - 1].read then TDestroy(p, block, got, i - 1) else Stole(Count(p), got), h);
  }

  lemma StealFates<T>(s: State<T>, t: nat, weak: bool, h: seq<Return<T>>)
    requires Inv(s) && Fates(s, h) && t < |s.thieves|
    ensures Fates(StealStep(s, t, weak), h + Shows(StealStep(s, t, weak), t))
  {
    hide Inv, Fates, StealCas, ReadStep, MarkStep, DestroyStep, DestroyOrStep;
    assert h + [] == h;
    match s.thieves[t]
    case TCas(_, _, _, _) => CasFates(s, t, weak, h);
    case TRead(p, block) =>
      ReadFates(s, t, p, block, h);
      ReadShows(s, t, p, block);
    case TMark(p, block, got) => MarkFates(s, t, p, block, got, h);
    case TDestroy(p, block, got, i) => DestroyFates(s, t, p, block, got, i, h);
    case TDestroyOr(p, block, got, i) => DestroyOrFates(s, t, p, block, got, i, h);
    case _ => LookFates(s, t, weak, h);
  }

  lemma ReadShows<T>(s: State<T>, t: nat, p: nat, block: nat)
    requires t < |s.thieves| && HasSlot(s, block, p % LAP)
    ensures Shows(ReadStep(s, t, p, block), t) == []
  {
  }

  lemma StepFates<T>(s: State<T>, m: Move<T>, h: seq<Return<T>>)
    requires Inv(s) && Fates(s, h)
    ensures Fates(Step(s, m), h + Outcome(s, m))
  {
    hide Inv, Fates, PushStep, StealStep;
    assert h + [] == h;
    match m {
      case Push(t, task) => BeginPush(s, t, task, h);
      case PushGo(t, weak) => if t < |s.pushers| { PushStepFates(s, t, weak, h); }
      case StealGo(t, weak) =>
        if t < |s.thieves| { StealFates(s, t, weak, h); }
    }
  }

  lemma BeginPush<T>(s: State<T>, t: nat, task: T, h: seq<Return<T>>)
    requires Inv(s) && Fates(s, h)
    ensures Fates(Step(s, Push(t, task)), h)
  {
    HeadBelow(s);
    hide Inv, Fates, Untouched;
    PusherStep(s, Step(s, Push(t, task)), h);
  }

  lemma {:induction false} RunFates<T>(s: State<T>, moves: seq<Move<T>>, h: seq<Return<T>>)
    requires Inv(s) && Fates(s, h)
    ensures Inv(Run(s, moves)) && Fates(Run(s, moves), h + Returns(s, moves))
    decreases |moves|
  {
    hide Inv, Fates, Step, Outcome;
    if moves == [] {
      assert h + [] == h;
    } else {
      var s', h' := Step(s, moves[0]), h + Outcome(s, moves[0]);
      StepKeeps(s, moves[0]);
      StepFates(s, moves[0], h);
      RunFates(s', moves[1..], h');
      assert h' + Returns(s', moves[1..]) == h + Returns(s, moves);
    }
  }

  lemma FromStart<T>(pushers: nat, thieves: nat, moves: seq<Move<T>>)
    ensures var s0 := Init<T>(pushers, thieves); Inv(Run(s0, moves)) && Fates(Run(s0, moves), Returns(s0, moves))
  {
    var s0 := Init<T>(pushers, thieves);
    InitInv<T>(pushers, thieves);
    forall n: nat
      ensures OneFate(s0, [], n)
    {
      NoneInFlight(s0.thieves, n);
    }
    forall id | 0 <= id < |s0.blocks|
      ensures BlockOwed(s0, id)
    {
      assert Untouched(s0.blocks[id]);
    }
    RunFates(s0, moves, []);
    assert [] + Returns(s0, moves) == Returns(s0, moves);
  }

  // ------------------------------------------------------------ main theorems

  /** No stealer stands between claiming a position and returning. */
  ghost predicate NobodyClaims<T>(s: State<T>) {
    forall t :: 0 <= t < |s.thieves| ==> !Claiming(s.thieves[t])
  }

  /**
   No block leaks: once every position of a block has been claimed, either some stealer is still
   under way or the block has been freed, exactly once.
   */
  lemma FreedExactlyOnce<T>(pushers: nat, thieves: nat, moves: seq<Move<T>>, block: nat)
    requires var s := Run(Init<T>(pushers, thieves), moves);
      block < |s.blocks| && LAP * block + BLOCK_CAP - 1 < s.head && NobodyClaims(s)
    ensures Run(Init<T>(pushers, thieves), moves).blocks[block].frees == 1
  {
    FromStart<T>(pushers, thieves, moves);
    hide Run, Init, Returns;
    var s := Run(Init<T>(pushers, thieves), moves);
    var b := s.blocks[block];
    assert BlockInv(b, block, s.tail, s.head, s.pushed) && BlockOwed(s, block);
    forall j | 0 <= j < BLOCK_CAP
      ensures !Waits(b, j)
    {
      assert SlotOwed(s, block, j);
    }
    assert !Waits(b, BLOCK_CAP - 1) && !b.token.Held?;
    assert b.token.Handed? ==> Waits(b, b.token.j);
  }

  ghost predicate Returned<T>(h: seq<Return<T>>, n: nat) {
    exists i :: 0 <= i < |h| && h[i].n == n
  }

  /**
   First in, first out, exactly once: claims are numbered in push order, no number is returned by
   two steals, each return hands the claiming stealer the task pushed under that number, and with
   no stealer under way every claimed number has been returned. A steal that reports an empty
   queue had every pushed task claimed when it loaded the tail.
   */
  lemma StealsFollowPushes<T>(pushers: nat, thieves: nat, moves: seq<Move<T>>)
    ensures var s0 := Init<T>(pushers, thieves); var s := Run(s0, moves); var h := Returns(s0, moves);
      && Count(s.head) <= |s.pushed| == Count(s.tail)
      && (forall i, j :: 0 <= i < j < |h| ==> h[i].n != h[j].n)
      && (forall i :: 0 <= i < |h| ==> h[i].n < Count(s.head) && Good(s, h[i]))
      && (NobodyClaims(s) ==> forall n: nat | n < Count(s.head) :: Returned(h, n))
      && (forall t :: 0 <= t < |s.thieves| && s.thieves[t].Empty? ==> s.thieves[t].wasEmpty)
  {
    FromStart<T>(pushers, thieves, moves);
    hide Run, Init, Returns, Step, Outcome;
    var s0 := Init<T>(pushers, thieves);
    var s, h := Run(s0, moves), Returns(s0, moves);
    forall i, j | 0 <= i < j < |h|
      ensures h[i].n != h[j].n
    {
      assert OneFate(s, h, h[i].n);
      if h[i].n == h[j].n { TimesTwice(h, i, j); }
    }
    forall i | 0 <= i < |h|
      ensures h[i].n < Count(s.head) && Good(s, h[i])
    {
      assert OneFate(s, h, h[i].n);
      TimesAt(h, i);
    }
    if NobodyClaims(s) {
      forall n: nat | n < Count(s.head)
        ensures Returned(h, n)
      {
        assert OneFate(s, h, n);
        NoneInFlight(s.thieves, n);
        var i := FindReturn(h, n);
      }
    }
    forall t | 0 <= t < |s.thieves| && s.thieves[t].Empty?
      ensures s.thieves[t].wasEmpty
    {
      assert ThiefInv(s, t, s.thieves[t]);
    }
  }
}
