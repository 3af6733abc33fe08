/**
 Nobody waits for a thread that is gone.  A position claimed for writing is published or its pusher is
 under way; an index that stands at the end of a block is being moved on; so a call that is left alone
 finishes, and from then on the queue has one task more or one task less.
 */
module InjectorProgress {
  import opened Types
  import opened Injector
  import opened InjectorFates

  /** The pusher has claimed position `p` and not published it yet. */
  predicate Writes<T>(pc: Pusher<T>, p: nat) {
    (pc.PStoreBlock? || pc.PStoreIndex? || pc.PStoreNext? || pc.PWrite? || pc.PMark?) && pc.pos == p
  }

  /** The pusher is about to link block `id` to its successor. */
  predicate Links<T>(pc: Pusher<T>, id: nat) { pc.PStoreNext? && pc.block == id }

  ghost predicate SlotPublished<T>(s: State<T>, id: nat, j: nat)
    requires id < |s.blocks| && j < |s.blocks[id].slots|
  {
    var x := s.blocks[id].slots[j];
    LAP * id + j < s.tail ==>
      x.write || (x.writer.By? && x.writer.thread < |s.pushers| && Writes(s.pushers[x.writer.thread], LAP * id + j))
  }

  /** The tail has left block `id`. */
  predicate Full<T>(s: State<T>, id: nat) { id < s.tail / LAP }

  ghost predicate Linked<T>(s: State<T>, id: nat)
    requires id < |s.blocks| && |s.blocks[id].slots| == BLOCK_CAP
  {
    var w := s.blocks[id].slots[BLOCK_CAP - 1].writer;
    Full(s, id) ==>
      s.blocks[id].next.Some? || (w.By? && w.thread < |s.pushers| && Links(s.pushers[w.thread], id))
  }

  ghost predicate BlockPublished<T>(s: State<T>, id: nat)
    requires id < |s.blocks|
  {
    && |s.blocks[id].slots| == BLOCK_CAP && Linked(s, id)
    && forall j :: 0 <= j < BLOCK_CAP ==> SlotPublished(s, id, j)
  }

  ghost predicate TailOwed<T>(s: State<T>) {
    match s.tailPhase
    case Settled => true
    case Claimed(t) => t < |s.pushers| && s.pushers[t].PStoreBlock?
    case Stored(t) => t < |s.pushers| && s.pushers[t].PStoreIndex?
  }

  ghost predicate HeadOwed<T>(s: State<T>) {
    match s.headPhase
    case Settled => true
    case Claimed(t) =>
      t < |s.thieves| && (s.thieves[t].TWaitNext? || s.thieves[t].TPeekNext? || s.thieves[t].TStoreBlock?)
    case Stored(t) => t < |s.thieves| && s.thieves[t].TStoreIndex?
  }

  ghost predicate Owed<T>(s: State<T>) {
    TailOwed(s) && HeadOwed(s) && forall id :: 0 <= id < |s.blocks| ==> BlockPublished(s, id)
  }

  // ----- stealers leave all this alone -----

  ghost predicate SameWriters<T>(b: Block<T>, b': Block<T>) {
    && |b'.slots| == |b.slots| && b'.next == b.next
    && forall j :: 0 <= j < |b.slots| ==>
         b'.slots[j].writer == b.slots[j].writer && b'.slots[j].write == b.slots[j].write
  }

  ghost predicate SameForWriters<T>(s: State<T>, s': State<T>) {
    && s'.pushers == s.pushers && s'.tail == s.tail && s'.tailPhase == s.tailPhase
    && |s'.blocks| == |s.blocks|
    && forall id :: 0 <= id < |s.blocks| ==> SameWriters(s.blocks[id], s'.blocks[id])
  }

  lemma BlockSet<T>(s: State<T>, t: nat, k: nat, b: Block<T>, pc: Thief<T>)
    requires t < |s.thieves| && k < |s.blocks| && SameWriters(s.blocks[k], b)
    ensures SameForWriters(s, TAt(SetBlock(s, k, b), t, pc))
  {
  }

  lemma CasWrites<T>(s: State<T>, t: nat, weak: bool, h: nat, hn: bool, block: nat, hn': bool)
    requires t < |s.thieves|
    ensures SameForWriters(s, StealCas(s, t, weak, h, hn, block, hn'))
  {
  }

  lemma StealWrites<T>(s: State<T>, t: nat, weak: bool)
    requires t < |s.thieves|
    ensures SameForWriters(s, StealStep(s, t, weak))
  {
    hide SameForWriters, StealCas, ReadStep, MarkStep, DestroyStep, DestroyOrStep;
    match s.thieves[t] {
      case TCas(h, hn, block, hn') => CasWrites(s, t, weak, h, hn, block, hn');
      case TRead(p, block) => if HasSlot(s, block, p % LAP) { ReadWrites(s, t, p, block); } else { Same(s, s); }
      case TMark(p, block, got) =>
        if HasSlot(s, block, p % LAP) { MarkWrites(s, t, p, block, got); } else { Same(s, s); }
      case TDestroy(p, block, got, i) =>
        if block < |s.blocks| && i <= |s.blocks[block].slots| {
          DestroyWrites(s, t, p, block, got, i);
        } else {
          Same(s, s);
        }
      case TDestroyOr(p, block, got, i) =>
        if i > 0 && HasSlot(s, block, i - 1) { DestroyOrWrites(s, t, p, block, got, i); } else { Same(s, s); }
      case _ => Same(s, StealStep(s, t, weak));
    }
  }

  lemma Same<T>(s: State<T>, s': State<T>)
    requires s'.blocks == s.blocks && s'.pushers == s.pushers && s'.tail == s.tail && s'.tailPhase == s.tailPhase
    ensures SameForWriters(s, s')
  {
  }

  lemma ReadWrites<T>(s: State<T>, t: nat, p: nat, block: nat)
    requires t < |s.thieves| && HasSlot(s, block, p % LAP)
    ensures SameForWriters(s, ReadStep(s, t, p, block))
  {
  }

  lemma MarkWrites<T>(s: State<T>, t: nat, p: nat, block: nat, got: Option<T>)
    requires t < |s.thieves| && HasSlot(s, block, p % LAP)
    ensures SameForWriters(s, MarkStep(s, t, p, block, got))
  {
    var b := s.blocks[block];
    BlockSet(s, t, block, Marked(b, p % LAP, t), MarkStep(s, t, p, block, got).thieves[t]);
  }

  lemma DestroyWrites<T>(s: State<T>, t: nat, p: nat, block: nat, got: Option<T>, i: nat)
    requires t < |s.thieves| && block < |s.blocks| && i <= |s.blocks[block].slots|
    ensures SameForWriters(s, DestroyStep(s, t, p, block, got, i))
  {
  }

  lemma DestroyOrWrites<T>(s: State<T>, t: nat, p: nat, block: nat, got: Option<T>, i: nat)
    requires t < |s.thieves| && i > 0 && HasSlot(s, block, i - 1)
    ensures SameForWriters(s, DestroyOrStep(s, t, p, block, got, i))
  {
    BlockSet(s, t, block, Swept(s.blocks[block], i - 1, t), DestroyOrStep(s, t, p, block, got, i).thieves[t]);
  }

  /** The head is moved by one stealer alone. */
  predicate MovesHead<T>(pc: Thief<T>) { pc.TWaitNext? || pc.TPeekNext? || pc.TStoreBlock? || pc.TStoreIndex? }

  lemma StealHead<T>(s: State<T>, t: nat, weak: bool)
    requires PhaseInv(s.head, s.headBlock, s.headPhase) && HeadOwed(s)
    requires t < |s.thieves| && ThiefInv(s, t, s.thieves[t])
    ensures HeadOwed(StealStep(s, t, weak))
  {
    hide Reading, IsTask;
    if s.thieves[t].TCas? {
      CasHead(s, t, weak);
    } else if MovesHead(s.thieves[t]) {
      hide StealCas, ReadStep, MarkStep, DestroyStep, DestroyOrStep;
    } else {
      hide ThiefInv;
      QuietHead(s, t, weak);
    }
  }

  lemma CasHead<T>(s: State<T>, t: nat, weak: bool)
    requires PhaseInv(s.head, s.headBlock, s.headPhase) && t < |s.thieves| && s.thieves[t].TCas? && HeadOwed(s)
    requires s.thieves[t].h % LAP != BLOCK_CAP
    ensures HeadOwed(StealStep(s, t, weak))
  {
  }

  lemma QuietHead<T>(s: State<T>, t: nat, weak: bool)
    requires t < |s.thieves| && !s.thieves[t].TCas? && !MovesHead(s.thieves[t]) && HeadOwed(s)
    ensures HeadOwed(StealStep(s, t, weak))
  {
    var s' := StealStep(s, t, weak);
    assert s'.headPhase == s.headPhase && s'.thieves == s.thieves[t := s'.thieves[t]] by {
      hide StealCas, HeadOwed;
    }
    hide StealStep;
  }

  lemma StealOwed<T>(s: State<T>, t: nat, weak: bool)
    requires Inv(s) && Owed(s) && t < |s.thieves|
    ensures Owed(StealStep(s, t, weak))
  {
    assert ThiefInv(s, t, s.thieves[t]);
    StealHead(s, t, weak);
    StealWrites(s, t, weak);
    hide StealStep, HeadOwed, Inv;
    var s' := StealStep(s, t, weak);
    forall id | 0 <= id < |s'.blocks|
      ensures BlockPublished(s', id)
    {
      assert BlockPublished(s, id) && SameWriters(s.blocks[id], s'.blocks[id]);
      assert forall j :: 0 <= j < BLOCK_CAP ==> SlotPublished(s, id, j) ==> SlotPublished(s', id, j);
    }
  }

  // ----- pushers -----

  /** Pusher `t` moves on, and block `k` is the only one that changed, was added or is passed by the tail. */
  ghost predicate PushShape<T>(s: State<T>, s': State<T>, t: nat, k: nat) {
    && t < |s.pushers| == |s'.pushers| && s'.pushers == s.pushers[t := s'.pushers[t]]
    && |s.blocks| <= |s'.blocks| && (forall id :: 0 <= id < |s'.blocks| && id != k ==>
                                       id < |s.blocks| && s'.blocks[id] == s.blocks[id])
    && s.tail <= s'.tail && (forall q :: s.tail <= q < s'.tail && q % LAP != BLOCK_CAP ==> q / LAP == k)
    && (forall id: nat :: Full(s', id) && id != k ==> Full(s, id))
    && (forall p: nat :: Writes(s.pushers[t], p) && p / LAP != k ==> Writes(s'.pushers[t], p))
    && (forall id: nat :: Links(s.pushers[t], id) && id != k ==> Links(s'.pushers[t], id))
  }

  lemma OtherBlock<T>(s: State<T>, s': State<T>, t: nat, k: nat, id: nat)
    requires PushShape(s, s', t, k) && id < |s.blocks| && id != k && id < |s'.blocks| && BlockPublished(s, id)
    ensures BlockPublished(s', id)
  {
    hide Writes, Links;
    forall j | 0 <= j < BLOCK_CAP
      ensures SlotPublished(s', id, j)
    {
      assert SlotPublished(s, id, j);
      SlotPosition(id, j);
    }
    assert Linked(s, id);
  }

  lemma PushOwed<T>(s: State<T>, s': State<T>, t: nat, k: nat)
    requires Owed(s) && PushShape(s, s', t, k) && s'.thieves == s.thieves && s'.headPhase == s.headPhase
    requires TailOwed(s') && (k < |s'.blocks| ==> BlockPublished(s', k))
    ensures Owed(s')
  {
    hide BlockPublished, TailOwed, Writes, Links;
    forall id | 0 <= id < |s'.blocks|
      ensures BlockPublished(s', id)
    {
      var b := s'.blocks[id];
      if id != k { OtherBlock(s, s', t, k, id); }
    }
  }

  /** A step of a pusher that owns no position yet. */
  lemma LocalOwed<T>(s: State<T>, t: nat, pc: Pusher<T>)
    requires Owed(s) && t < |s.pushers| && (s.pushers[t].PRest? || s.pushers[t].PLoadBlock? || s.pushers[t].PCas?)
    requires pc.PLoadBlock? || pc.PCas?
    ensures Owed(PAt(s, t, pc))
  {
    PushOwed(s, PAt(s, t, pc), t, |s.blocks|);
  }

  lemma CasOwed<T>(s: State<T>, t: nat, weak: bool, task: T, tail: nat, block: nat)
    requires Inv(s) && Owed(s) && t < |s.pushers| && s.pushers[t] == PCas(task, tail, block)
    ensures Owed(PushCas(s, t, weak, task, tail, block))
  {
    var off := tail % LAP;
    assert PusherInv(s, t, s.pushers[t]);
    if off == BLOCK_CAP || weak || s.tail != tail || !HasSlot(s, block, off) {
      LocalOwed(s, t, PLoadBlock(task, s.tail));
    } else {
      ClaimOwed(s, t, weak, task, tail, block);
    }
  }

  lemma ClaimOwed<T>(s: State<T>, t: nat, weak: bool, task: T, tail: nat, block: nat)
    requires Owed(s) && t < |s.pushers| && s.pushers[t] == PCas(task, tail, block) && tail % LAP != BLOCK_CAP
    requires !weak && s.tail == tail && block == tail / LAP && HasSlot(s, block, tail % LAP)
    ensures Owed(PushCas(s, t, weak, task, tail, block))
  {
    var s' := PushCas(s, t, weak, task, tail, block);
    assert PushShape(s, s', t, block);
    assert BlockPublished(s, block);
    forall j | 0 <= j < BLOCK_CAP
      ensures SlotPublished(s', block, j)
    {
      assert SlotPublished(s, block, j);
    }
    hide PushCas, SlotPublished, PushShape;
    PushOwed(s, s', t, block);
  }

  lemma InstallOwed<T>(s: State<T>, t: nat)
    requires Inv(s) && Owed(s) && t < |s.pushers| && (s.pushers[t].PStoreBlock? || s.pushers[t].PStoreIndex?)
    ensures Owed(PushStep(s, t, false))
  {
    var s', pc := PushStep(s, t, false), s.pushers[t];
    assert PusherInv(s, t, pc);
    if pc.PStoreBlock? {
      assert PushShape(s, s', t, |s.blocks|);
      PushOwed(s, s', t, |s.blocks|);
    } else {
      assert PushShape(s, s', t, pc.block);
      assert BlockPublished(s, pc.block);
      forall j | 0 <= j < BLOCK_CAP
        ensures SlotPublished(s', pc.block, j)
      {
        assert SlotPublished(s, pc.block, j);
      }
      PushOwed(s, s', t, pc.block);
    }
  }

  lemma PublishOwed<T>(s: State<T>, t: nat)
    requires Inv(s) && Owed(s) && t < |s.pushers|
    requires s.pushers[t].PStoreNext? || s.pushers[t].PWrite? || s.pushers[t].PMark?
    ensures Owed(PushStep(s, t, false))
  {
    assert PusherInv(s, t, s.pushers[t]);
    hide Inv, PusherInv;
    PublishShape(s, t);
    hide Owed;
    PushOwed(s, PushStep(s, t, false), t, s.pushers[t].block);
  }

  lemma PublishShape<T>(s: State<T>, t: nat)
    requires t < |s.pushers| && PusherInv(s, t, s.pushers[t]) && Owed(s)
    requires s.pushers[t].PStoreNext? || s.pushers[t].PWrite? || s.pushers[t].PMark?
    ensures var s' := PushStep(s, t, false); var k := s.pushers[t].block;
      && k < |s'.blocks| && PushShape(s, s', t, k) && BlockPublished(s', k) && TailOwed(s')
      && s'.thieves == s.thieves && s'.headPhase == s.headPhase
  {
    var s', k := PushStep(s, t, false), s.pushers[t].block;
    hide Count;
    assert BlockPublished(s, k);
    forall j | 0 <= j < BLOCK_CAP
      ensures SlotPublished(s', k, j)
    {
      assert SlotPublished(s, k, j);
    }
  }

  lemma StepOwed<T>(s: State<T>, m: Move<T>)
    requires Inv(s) && Owed(s)
    ensures Owed(Step(s, m))
  {
    match m {
      case Push(t, task) =>
        if t < |s.pushers| && s.pushers[t].PRest? { LocalOwed(s, t, PLoadBlock(task, s.tail)); }
      case PushGo(t, weak) =>
        if t < |s.pushers| {
          match s.pushers[t] {
            case PRest =>
            case PLoadBlock(task, tail) => LocalOwed(s, t, PCas(task, tail, s.tailBlock));
            case PCas(task, tail, block) => CasOwed(s, t, weak, task, tail, block);
            case PStoreBlock(_, _, _) => InstallOwed(s, t);
            case PStoreIndex(_, _, _, _) => InstallOwed(s, t);
            case _ => PublishOwed(s, t);
          }
        }
      case StealGo(t, weak) => if t < |s.thieves| { StealOwed(s, t, weak); }
    }
  }

  lemma {:induction false} RunOwed<T>(s: State<T>, moves: seq<Move<T>>)
    requires Inv(s) && Owed(s)
    ensures Inv(Run(s, moves)) && Owed(Run(s, moves))
    decreases |moves|
  {
    hide Inv, Owed, Step;
    if moves == [] {
    } else {
      StepKeeps(s, moves[0]);
      StepOwed(s, moves[0]);
      RunOwed(Step(s, moves[0]), moves[1..]);
    }
  }

  ghost predicate PushersRest<T>(s: State<T>) { forall t :: 0 <= t < |s.pushers| ==> s.pushers[t].PRest? }

  lemma AtRest<T>(s: State<T>)
    requires Inv(s) && Owed(s) && PushersRest(s)
    ensures s.tailPhase.Settled? && s.tail % LAP != BLOCK_CAP
    ensures forall id :: 0 <= id < |s.blocks| && Full(s, id) ==> s.blocks[id].next.Some?
    ensures forall id, j | 0 <= id < |s.blocks| && 0 <= j < BLOCK_CAP ::
      |s.blocks[id].slots| == BLOCK_CAP && (LAP * id + j < s.tail ==> s.blocks[id].slots[j].write)
  {
    forall id | 0 <= id < |s.blocks|
      ensures |s.blocks[id].slots| == BLOCK_CAP && (Full(s, id) ==> s.blocks[id].next.Some?)
      ensures forall j :: 0 <= j < BLOCK_CAP && LAP * id + j < s.tail ==> s.blocks[id].slots[j].write
    {
      assert BlockPublished(s, id);
      forall j | 0 <= j < BLOCK_CAP && LAP * id + j < s.tail
        ensures s.blocks[id].slots[j].write
      {
        assert SlotPublished(s, id, j);
      }
    }
  }

  /**
   In every reachable state where no push is under way, every position before the tail holds its task,
   published, and every block the tail has left is linked to the next.
   */
  lemma AllPublished<T>(pushers: nat, thieves: nat, moves: seq<Move<T>>)
    requires PushersRest(Run(Init<T>(pushers, thieves), moves))
    ensures var s := Run(Init<T>(pushers, thieves), moves);
      && s.tailPhase.Settled?
      && (forall id :: 0 <= id < |s.blocks| && Full(s, id) ==> s.blocks[id].next == Some(id + 1))
      && forall id, j | 0 <= id < |s.blocks| && 0 <= j < BLOCK_CAP ::
           |s.blocks[id].slots| == BLOCK_CAP && (LAP * id + j < s.tail ==> Holds(s, id, j))
  {
    InitInv<T>(pushers, thieves);
    RunOwed(Init<T>(pushers, thieves), moves);
    hide Run, Init;
    var s := Run(Init<T>(pushers, thieves), moves);
    AtRest(s);
    forall id | 0 <= id < |s.blocks|
      ensures Full(s, id) ==> s.blocks[id].next == Some(id + 1)
      ensures forall j :: 0 <= j < BLOCK_CAP && LAP * id + j < s.tail ==> Holds(s, id, j)
    {
      assert BlockInv(s.blocks[id], id, s.tail, s.head, s.pushed);
      forall j | 0 <= j < BLOCK_CAP && LAP * id + j < s.tail
        ensures Holds(s, id, j)
      {
        assert SlotInv(s.blocks[id].slots[j], LAP * id + j, s.tail, s.head, s.pushed, s.blocks[id].token);
      }
    }
  }

  /** Slot `j` of block `id` is published with the task of its number. */
  ghost predicate Holds<T>(s: State<T>, id: nat, j: nat) {
    && HasSlot(s, id, j) && s.blocks[id].slots[j].write
    && IsTask(s, Count(LAP * id + j), s.blocks[id].slots[j].task)
  }

  // ----- a push left alone -----

  ghost function PushesOn<T>(s: State<T>, t: nat, k: nat): State<T>
    decreases k
  {
    if k == 0 then s else PushesOn(Step(s, PushGo(t, false)), t, k - 1)
  }

  /** Steps that a pusher past its claim still has to make. */
  function ToGo<T>(pc: Pusher<T>): nat {
    match pc
    case PStoreBlock(_, _, _) => 5
    case PStoreIndex(_, _, _, _) => 4
    case PStoreNext(_, _, _, _) => 3
    case PWrite(_, _, _) => 2
    case PMark(_, _, _) => 1
    case _ => 0
  }

  /** Only pusher `t` and what belongs to the tail changed. */
  ghost predicate PushedOn<T>(s: State<T>, s': State<T>, t: nat) {
    && t < |s.pushers| == |s'.pushers| && s'.pushers == s.pushers[t := s'.pushers[t]]
    && s'.pushed == s.pushed && s'.head == s.head && s'.thieves == s.thieves
  }

  /** Every step of a pusher past its claim brings it nearer to its end: it waits for nobody. */
  lemma PushGoes<T>(s: State<T>, t: nat, weak: bool)
    requires t < |s.pushers| && PusherInv(s, t, s.pushers[t]) && ToGo(s.pushers[t]) > 0
    ensures var s' := PushStep(s, t, weak);
      && PushedOn(s, s', t)
      && ToGo(s'.pushers[t]) == ToGo(s.pushers[t]) - 1 && (ToGo(s'.pushers[t]) == 0 ==> s'.pushers[t].PRest?)
  {
    hide Count, NewBlock;
  }

  lemma PusherOf<T>(s: State<T>, t: nat)
    requires Inv(s) && t < |s.pushers|
    ensures PusherInv(s, t, s.pushers[t])
  {
  }

  lemma {:induction false} FinishPush<T>(s: State<T>, t: nat, k: nat)
    requires Inv(s) && Owed(s) && t < |s.pushers| && k == ToGo(s.pushers[t]) && (k > 0 || s.pushers[t].PRest?)
    ensures var e := PushesOn(s, t, k);
      && Inv(e) && Owed(e) && e.pushed == s.pushed && e.head == s.head && e.thieves == s.thieves
      && e.pushers == s.pushers[t := PRest]
    decreases k
  {
    hide Inv, Owed, PushStep, PusherInv;
    if k == 0 {
      assert s.pushers[t := PRest] == s.pushers;
    } else {
      assert PusherInv(s, t, s.pushers[t]) by { PusherOf(s, t); }
      PushGoes(s, t, false);
      StepKeeps(s, PushGo(t, false));
      StepOwed(s, PushGo(t, false));
      var s' := PushStep(s, t, false);
      FinishPush(s', t, k - 1);
      assert s.pushers[t := s'.pushers[t]][t := PRest] == s.pushers[t := PRest];
    }
  }

  /**
   A push that is left alone while nobody else moves the tail finishes: its task is the last one in the
   queue, and published.
   */
  lemma PushAlone<T>(s: State<T>, t: nat, task: T) returns (k: nat)
    requires Inv(s) && Owed(s) && t < |s.pushers| && s.pushers[t].PRest? && s.tailPhase.Settled?
    ensures var e := PushesOn(Step(s, Push(t, task)), t, k);
      && Inv(e) && Owed(e) && e.pushed == s.pushed + [task] && e.pushers == s.pushers
      && e.head == s.head && e.thieves == s.thieves && e.tailPhase.Settled?
      && Holds(e, s.tail / LAP, s.tail % LAP) && Count(s.tail) == |s.pushed|
  {
    hide Inv, Owed, Holds, Count;
    var s0 := Step(s, Push(t, task));
    Goes(s, Push(t, task));
    var s1 := Step(s0, PushGo(t, false));
    Goes(s0, PushGo(t, false));
    var s2 := Step(s1, PushGo(t, false));
    Goes(s1, PushGo(t, false));
    assert s2 == PushCas(s1, t, false, task, s.tail, s.tailBlock);
    hide PushCas;
    Claims(s, s1, s2, t, task);
    hide Step;
    k := ToGo(s2.pushers[t]);
    FinishPush(s2, t, k);
    var e := PushesOn(s2, t, k);
    assert PushesOn(s1, t, k + 1) == e && PushesOn(s0, t, k + 2) == e;
    k := k + 2;
    assert s2.pushers[t := PRest] == s.pushers;
    NobodyInstalls(s, e);
    FilledSlot(s, e);
  }

  lemma Goes<T>(s: State<T>, m: Move<T>)
    requires Inv(s) && Owed(s)
    ensures Inv(Step(s, m)) && Owed(Step(s, m))
  {
    hide Inv, Owed, Step;
    StepKeeps(s, m);
    StepOwed(s, m);
  }

  lemma Claims<T>(s: State<T>, s1: State<T>, s2: State<T>, t: nat, task: T)
    requires Inv(s) && t < |s.pushers| && s.tailPhase.Settled?
    requires s1 == PAt(PAt(s, t, PLoadBlock(task, s.tail)), t, PCas(task, s.tail, s.tailBlock))
    requires s2 == PushCas(s1, t, false, task, s.tail, s.tailBlock)
    ensures s2.pushed == s.pushed + [task] && s2.pushers == s.pushers[t := s2.pushers[t]]
    ensures s2.head == s.head && s2.thieves == s.thieves
    ensures ToGo(s2.pushers[t]) > 0 && Count(s.tail) == |s.pushed| && s.tail % LAP < BLOCK_CAP
  {
    assert BlockInv(s.blocks[s.tailBlock], s.tailBlock, s.tail, s.head, s.pushed);
    hide Inv, BlockInv;
  }

  lemma NobodyInstalls<T>(s: State<T>, e: State<T>)
    requires Inv(s) && Owed(e) && s.tailPhase.Settled? && e.pushers == s.pushers
    ensures e.tailPhase.Settled?
  {
    forall u | 0 <= u < |s.pushers|
      ensures !s.pushers[u].PStoreBlock? && !s.pushers[u].PStoreIndex?
    {
      assert PusherInv(s, u, s.pushers[u]);
    }
  }

  /** No pusher that was there before owns the position at the old tail, so it has been published. */
  lemma FilledSlot<T>(s: State<T>, e: State<T>)
    requires Inv(s) && Inv(e) && Owed(e) && e.pushers == s.pushers && s.tailPhase.Settled? && |s.pushed| < |e.pushed|
    ensures Holds(e, s.tail / LAP, s.tail % LAP)
  {
    var id, j := s.tail / LAP, s.tail % LAP;
    assert s.tail < e.tail;
    assert BlockPublished(e, id) && SlotPublished(e, id, j);
    var x := e.blocks[id].slots[j];
    assert BlockInv(e.blocks[id], id, e.tail, e.head, e.pushed);
    assert SlotInv(x, LAP * id + j, e.tail, e.head, e.pushed, e.blocks[id].token);
    forall u | 0 <= u < |s.pushers|
      ensures !Writes(s.pushers[u], s.tail)
    {
      assert PusherInv(s, u, s.pushers[u]);
    }
  }

  // ----- a steal left alone -----

  ghost function StealsOn<T>(s: State<T>, t: nat, k: nat): State<T>
    decreases k
  {
    if k == 0 then s else StealsOn(Step(s, StealGo(t, false)), t, k - 1)
  }

  /** An upper bound for the steps a stealer past its claim still has to make. */
  function Left<T>(pc: Thief<T>): nat {
    match pc
    case TWaitNext(_, _) => 2 * LAP + 7
    case TPeekNext(_, _, _) => 2 * LAP + 6
    case TStoreBlock(_, _, _, _) => 2 * LAP + 5
    case TStoreIndex(_, _, _, _) => 2 * LAP + 4
    case TWaitWrite(_, _) => 2 * LAP + 3
    case TRead(_, _) => 2 * LAP + 2
    case TMark(_, _, _) => 2 * LAP + 1
    case TDestroy(_, _, _, i) => 2 * i + 1
    case TDestroyOr(_, _, _, i) => 2 * i
    case _ => 0
  }

  /** Stealer `t`, past its claim, got on with it, or returned what it claimed. */
  ghost predicate WentOn<T>(s: State<T>, s': State<T>, t: nat)
    requires t < |s.thieves| && Claiming(s.thieves[t])
  {
    && s'.pushed == s.pushed && s'.pushers == s.pushers && |s'.thieves| == |s.thieves|
    && var pc, pc' := s.thieves[t], s'.thieves[t];
       if Claiming(pc') then pc'.p == pc.p && Left(pc') < Left(pc) else pc'.Stole? && pc'.n == Count(pc.p)
  }

  /** The stealer waits for a pusher: to link the next block, or to publish the task. */
  ghost predicate Waiting<T>(s: State<T>, pc: Thief<T>) {
    || (pc.TWaitNext? && !(pc.block < |s.blocks| && s.blocks[pc.block].next.Some?))
    || (pc.TWaitWrite? && !(HasSlot(s, pc.block, pc.p % LAP) && s.blocks[pc.block].slots[pc.p % LAP].write))
  }

  lemma DestroyGoes<T>(s: State<T>, t: nat, weak: bool)
    requires t < |s.thieves| && (s.thieves[t].TDestroy? || s.thieves[t].TDestroyOr?)
    requires var pc := s.thieves[t]; pc.block < |s.blocks| && pc.i <= |s.blocks[pc.block].slots|
    requires s.thieves[t].TDestroyOr? ==> s.thieves[t].i > 0
    ensures WentOn(s, StealStep(s, t, weak), t)
  {
    hide StealCas, ReadStep, MarkStep, Count;
  }

  lemma ReadGoes<T>(s: State<T>, t: nat, weak: bool)
    requires t < |s.thieves| && (s.thieves[t].TRead? || s.thieves[t].TMark?)
    requires HasSlot(s, s.thieves[t].block, s.thieves[t].p % LAP)
    ensures WentOn(s, StealStep(s, t, weak), t)
  {
    hide StealCas, DestroyStep, DestroyOrStep, Count;
  }

  lemma LookGoes<T>(s: State<T>, t: nat, weak: bool)
    requires t < |s.thieves| && !Waiting(s, s.thieves[t])
    requires MovesHead(s.thieves[t]) || s.thieves[t].TWaitWrite?
    requires s.thieves[t].TPeekNext? ==> s.thieves[t].next < |s.blocks|
    ensures WentOn(s, StealStep(s, t, weak), t)
  {
    hide StealCas, ReadStep, MarkStep, DestroyStep, DestroyOrStep, Count;
  }

  /** A stealer past its claim goes on in every step, unless it waits for a pusher; it ends with its own claim. */
  lemma StealGoes<T>(s: State<T>, t: nat, weak: bool)
    requires Inv(s) && t < |s.thieves| && Claiming(s.thieves[t]) && !Waiting(s, s.thieves[t])
    ensures WentOn(s, StealStep(s, t, weak), t)
  {
    var pc := s.thieves[t];
    assert ThiefInv(s, t, pc);
    if pc.TDestroy? || pc.TDestroyOr? {
      assert BlockInv(s.blocks[pc.block], pc.block, s.tail, s.head, s.pushed);
      hide Inv, BlockInv, WentOn, StealStep;
      DestroyGoes(s, t, weak);
    } else if pc.TRead? || pc.TMark? {
      hide Inv, BlockInv, WentOn, StealStep;
      ReadGoes(s, t, weak);
    } else {
      hide WentOn, StealStep;
      LookGoes(s, t, weak);
    }
  }

  /** With no push under way no stealer waits. */
  lemma NoWaiting<T>(s: State<T>, t: nat)
    requires Inv(s) && Owed(s) && PushersRest(s) && t < |s.thieves|
    ensures !Waiting(s, s.thieves[t])
  {
    AtRest(s);
    assert ThiefInv(s, t, s.thieves[t]);
    hide Owed, BlocksInv, PushersInv;
  }

  lemma {:induction false} FinishSteal<T>(s: State<T>, t: nat) returns (k: nat)
    requires Inv(s) && Owed(s) && PushersRest(s) && t < |s.thieves| && Claiming(s.thieves[t])
    ensures var e := StealsOn(s, t, k); var n := Count(s.thieves[t].p);
      && Inv(e) && Owed(e) && e.pushed == s.pushed && e.pushers == s.pushers
      && t < |e.thieves| && e.thieves[t].Stole? && e.thieves[t].n == n
    decreases Left(s.thieves[t])
  {
    hide Inv, Owed, StealStep, Count, Left, Waiting;
    NoWaiting(s, t);
    StealGoes(s, t, false);
    Goes(s, StealGo(t, false));
    var s' := StealStep(s, t, false);
    if Claiming(s'.thieves[t]) {
      k := FinishSteal(s', t);
      k := k + 1;
    } else {
      k := 1;
      assert StealsOn(s', t, 0) == s';
    }
  }

  predicate Outside<T>(pc: Thief<T>) { pc.TRest? || pc.Stole? || pc.Empty? || pc.Retry? }

  /**
   A steal that is left alone while no push is under way and nobody else moves the head never has to
   retry: it takes the oldest task nobody has claimed, or reports that there is none.
   */
  lemma StealAlone<T>(s: State<T>, t: nat) returns (k: nat)
    requires Inv(s) && Owed(s) && PushersRest(s) && t < |s.thieves| && Outside(s.thieves[t]) && s.headPhase.Settled?
    ensures var e := StealsOn(s, t, k);
      && Inv(e) && Owed(e) && e.pushed == s.pushed && t < |e.thieves| && Count(s.head) <= |s.pushed|
      && e.thieves[t] == if Count(s.head) == |s.pushed| then Empty(true)
                         else Stole(Count(s.head), Some(s.pushed[Count(s.head)]))
  {
    hide Inv, Owed, Count;
    AtRest(s);
    Indices(s);
    var s1 := Step(s, StealGo(t, false));
    Goes(s, StealGo(t, false));
    assert s1 == TAt(s, t, TLoadBlock(s.head, s.headNext));
    var s2 := Step(s1, StealGo(t, false));
    Goes(s1, StealGo(t, false));
    if s.headNext {
      assert s2 == TAt(s1, t, TCas(s.head, true, s.headBlock, true));
      k := ClaimAlone(s, s2, t);
      k := k + 2;
    } else {
      assert s2 == TAt(s1, t, TLoadTail(s.head, s.headBlock));
      var s3 := Step(s2, StealGo(t, false));
      Goes(s2, StealGo(t, false));
      if s.head == s.tail {
        k := 3;
        assert StealsOn(s3, t, 0) == s3 && StealsOn(s2, t, 1) == s3 && StealsOn(s1, t, 2) == s3;
      } else {
        k := ClaimAlone(s, s3, t);
        assert StealsOn(s2, t, k + 1) == StealsOn(s3, t, k) && StealsOn(s1, t, k + 2) == StealsOn(s2, t, k + 1);
        k := k + 3;
      }
    }
  }

  lemma Indices<T>(s: State<T>)
    requires Inv(s) && s.headPhase.Settled? && s.tailPhase.Settled?
    ensures s.head % LAP != BLOCK_CAP && s.headBlock == s.head / LAP && s.head <= s.tail && |s.pushed| == Count(s.tail)
    ensures s.head / LAP < |s.blocks| && |s.blocks[s.head / LAP].slots| == BLOCK_CAP
    ensures (s.headNext ==> s.head < s.tail) && (Count(s.head) == |s.pushed| <==> s.head == s.tail)
    ensures Count(s.head) <= |s.pushed|
  {
    assert BlockInv(s.blocks[s.head / LAP], s.head / LAP, s.tail, s.head, s.pushed);
  }

  /** From its exchange on: the claim succeeds and the stealer returns with it. */
  lemma ClaimAlone<T>(s: State<T>, s': State<T>, t: nat) returns (k: nat)
    requires Inv(s) && Inv(s') && Owed(s') && PushersRest(s) && s.headPhase.Settled? && s.tailPhase.Settled?
    requires t < |s.thieves| == |s'.thieves| && s' == s.(thieves := s'.thieves) && s.head < s.tail
    requires s'.thieves[t].TCas? && s'.thieves[t].h == s.head && s'.thieves[t].block == s.headBlock
    requires s'.thieves[t].hn == s.headNext
    ensures var e := StealsOn(s', t, k);
      && Inv(e) && Owed(e) && e.pushed == s.pushed && t < |e.thieves| && Count(s.head) < |s.pushed|
      && e.thieves[t] == Stole(Count(s.head), Some(s.pushed[Count(s.head)]))
  {
    hide Inv, Owed, Count;
    Indices(s);
    var s1 := Step(s', StealGo(t, false));
    Goes(s', StealGo(t, false));
    assert Claiming(s1.thieves[t]) && s1.thieves[t].p == s.head && s1.pushers == s.pushers && s1.pushed == s.pushed;
    k := FinishSteal(s1, t);
    k := k + 1;
    var e := StealsOn(s', t, k);
    assert IsTask(e, e.thieves[t].n, e.thieves[t].got) by { StoleTask(e, t); }
  }

  lemma StoleTask<T>(s: State<T>, t: nat)
    requires Inv(s) && t < |s.thieves| && s.thieves[t].Stole?
    ensures IsTask(s, s.thieves[t].n, s.thieves[t].got)
  {
    assert ThiefInv(s, t, s.thieves[t]);
  }
}
