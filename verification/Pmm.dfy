/**
 The physical memory manager: per-zone, per-order free lists and the order tags,
 updated in place by allocation and deallocation of blocks and of exact runs.
 */
module Pmm {
  import opened Types
  import opened Bits
  import opened BuddyTags

  const ORDERS: nat := MAX_ORDER

  function Index(z: Zone, k: nat): nat { k + (if z.Low? then 0 else ORDERS) }

  ghost predicate Distinct(l: seq<nat>) {
    forall i, j :: 0 <= i < j < |l| ==> l[i] != l[j]
  }

  /** `l` lists, once each, the heads of free blocks of order `k` in zone `z`. */
  ghost predicate ListOk(l: seq<nat>, m: Tags, z: Zone, k: nat) {
    Distinct(l) && forall f: nat :: f in l <==> Tag(m, f) == k + 1 && ZoneOf(f) == z
  }

  ghost predicate ListsOk(lists: seq<seq<nat>>, m: Tags) {
    && |lists| == 2 * ORDERS
    && forall z: Zone, k: nat :: k < ORDERS ==> ListOk(lists[Index(z, k)], m, z, k)
  }

  function Remove(l: seq<nat>, x: nat): seq<nat> {
    if l == [] then [] else if l[0] == x then l[1..] else [l[0]] + Remove(l[1..], x)
  }

  lemma {:induction false} RemoveSpec(l: seq<nat>, x: nat)
    requires Distinct(l)
    ensures Distinct(Remove(l, x))
    ensures forall f: nat :: f in Remove(l, x) <==> f in l && f != x
  {
    if l != [] && l[0] != x {
      RemoveSpec(l[1..], x);
      var r := Remove(l[1..], x);
      assert l[0] !in r;
      assert forall j :: 0 <= j < |r| ==> r[j] in r;
    }
  }

  /** `x` comes before `y`. */
  ghost predicate Before(l: seq<nat>, x: nat, y: nat) {
    exists i, j :: 0 <= i < j < |l| && l[i] == x && l[j] == y
  }

  /** Blocks that stay in a list keep their order, and new ones come behind them. */
  ghost predicate Aged(l: seq<nat>, l': seq<nat>) {
    forall i, j :: 0 <= i < j < |l'| && l'[j] in l ==> Before(l, l'[i], l'[j])
  }

  ghost predicate AllAged(lists: seq<seq<nat>>, lists': seq<seq<nat>>) {
    |lists'| == |lists| && forall i :: 0 <= i < |lists| ==> Aged(lists[i], lists'[i])
  }

  lemma SameAged(lists: seq<seq<nat>>)
    ensures AllAged(lists, lists)
  {
  }

  lemma {:induction false} RemoveAged(l: seq<nat>, x: nat)
    requires Distinct(l)
    ensures Aged(l, Remove(l, x))
  {
    if l == [] {
    } else if l[0] == x {
      assert forall i, j :: 0 <= i < j < |l[1..]| ==> l[i + 1] == l[1..][i] && l[j + 1] == l[1..][j];
    } else {
      RemoveAged(l[1..], x);
      RemoveSpec(l[1..], x);
      var r := Remove(l[1..], x);
      forall i, j | 0 <= i < j < |r| + 1 && ([l[0]] + r)[j] in l
        ensures Before(l, ([l[0]] + r)[i], ([l[0]] + r)[j])
      {
        var y := ([l[0]] + r)[j];
        assert y == r[j - 1] && y in r;
        if i == 0 {
          var b :| 0 <= b < |l[1..]| && l[1..][b] == y;
          assert l[0] == ([l[0]] + r)[i] && l[b + 1] == y;
        } else {
          assert Before(l[1..], r[i - 1], y);
          var a, b :| 0 <= a < b < |l[1..]| && l[1..][a] == r[i - 1] && l[1..][b] == y;
          assert l[a + 1] == r[i - 1] && l[b + 1] == y;
        }
      }
    }
  }

  lemma BeforeThrough(l: seq<nat>, l1: seq<nat>, x: nat, y: nat)
    requires Aged(l, l1) && Before(l1, x, y) && y in l
    ensures Before(l, x, y)
  {
  }

  /** Taking a block out, after some list changes, keeps the order. */
  lemma UnlinkAged(was: seq<seq<nat>>, lists: seq<seq<nat>>, i: nat, f: nat)
    requires AllAged(was, lists) && i < |lists| && Distinct(lists[i])
    ensures AllAged(was, Unlink(lists, i, f))
  {
    var l, r := lists[i], Remove(lists[i], f);
    RemoveAged(l, f);
    RemoveSpec(l, f);
    forall a, b | 0 <= a < b < |r| && r[b] in was[i]
      ensures Before(was[i], r[a], r[b])
    {
      assert r[b] in r;
      assert Before(l, r[a], r[b]);
      BeforeThrough(was[i], l, r[a], r[b]);
    }
  }

  /** So does linking a block that was not there at the back. */
  lemma PushAged(was: seq<seq<nat>>, lists: seq<seq<nat>>, i: nat, f: nat)
    requires AllAged(was, lists) && i < |lists| && f !in was[i]
    ensures AllAged(was, PushBack(lists, i, f))
  {
  }

  function PushBack(lists: seq<seq<nat>>, i: nat, f: nat): seq<seq<nat>>
    requires i < |lists|
  {
    lists[i := lists[i] + [f]]
  }

  function Unlink(lists: seq<seq<nat>>, i: nat, f: nat): seq<seq<nat>>
    requires i < |lists|
  {
    lists[i := Remove(lists[i], f)]
  }

  lemma PushBackOk(lists: seq<seq<nat>>, m: Tags, b: nat, k: nat)
    requires ListsOk(lists, m) && k < ORDERS && Tag(m, b) == 0
    ensures ListsOk(PushBack(lists, Index(ZoneOf(b), k), b), With(m, b, k))
  {
    var i := Index(ZoneOf(b), k);
    forall z: Zone, j: nat | j < ORDERS
      ensures ListOk(PushBack(lists, i, b)[Index(z, j)], With(m, b, k), z, j)
    {
      assert ListOk(lists[Index(z, j)], m, z, j);
    }
  }

  lemma UnlinkOk(lists: seq<seq<nat>>, m: Tags, b: nat)
    requires ListsOk(lists, m) && 0 < Tag(m, b) <= ORDERS
    ensures ListsOk(Unlink(lists, Index(ZoneOf(b), Tag(m, b) - 1), b), Without(m, b))
  {
    var i := Index(ZoneOf(b), Tag(m, b) - 1);
    forall z: Zone, j: nat | j < ORDERS
      ensures ListOk(Unlink(lists, i, b)[Index(z, j)], Without(m, b), z, j)
    {
      assert ListOk(lists[Index(z, j)], m, z, j);
      RemoveSpec(lists[Index(z, j)], b);
    }
  }

  /** The frames of `[lo, hi)` are used. */
  ghost predicate Used(m: Tags, lo: nat, hi: nat) { forall f :: lo <= f < hi ==> !Free(m, f) }

  /** `m'` has exactly the free frames of `m` and those of `[lo, hi)`. */
  ghost predicate Freed(m: Tags, m': Tags, lo: nat, hi: nat) {
    forall f: nat :: Free(m', f) <==> Free(m, f) || lo <= f < hi
  }

  /** `m'` has exactly the free frames of `m` except those of `[lo, hi)`, all free before. */
  ghost predicate Taken(m: Tags, m': Tags, lo: nat, hi: nat) {
    && (forall f :: lo <= f < hi ==> Free(m, f))
    && forall f: nat :: Free(m', f) <==> Free(m, f) && !(lo <= f < hi)
  }

  ghost predicate RunIn(m: Tags, a: nat, k: nat, z: Zone) { ZoneOf(a) == z && FreeRun(m, a, k) }

  /** `page` heads list `o`, and the lists from `order` up to `o` are empty. */
  ghost predicate FrontOf(lists: seq<seq<nat>>, order: nat, o: nat, z: Zone, page: nat) {
    && order <= o < ORDERS && |lists| == 2 * ORDERS
    && |lists[Index(z, o)]| > 0 && lists[Index(z, o)][0] == page
    && forall k :: order <= k < o ==> lists[Index(z, k)] == []
  }

  /** `page` is the oldest block of the smallest order that can serve the request. */
  ghost predicate BestFit(lists: seq<seq<nat>>, order: nat, z: Zone, page: nat) {
    exists o :: FrontOf(lists, order, o, z, page)
  }

  /** The same blocks are linked in both sets of lists, in whatever order. */
  ghost predicate SameBlocks(lists: seq<seq<nat>>, lists': seq<seq<nat>>) {
    && |lists| == |lists'| == 2 * ORDERS
    && forall i, f: nat :: 0 <= i < 2 * ORDERS ==> (f in lists[i] <==> f in lists'[i])
  }

  class Manager {
    var lists: seq<seq<nat>>
    var tags: Tags

    ghost predicate Valid()
      reads this
    {
      Wf(tags) && ListsOk(lists, tags)
    }

    constructor ()
      ensures Valid() && forall f :: !Free(tags, f)
    {
      lists := seq(2 * ORDERS, _ => []);
      tags := map[];
    }

    /** Tags a used block as free and links it at the back of its list. */
    method Link(page: nat, o: nat)
      requires Valid() && o < ORDERS && NoneFree(tags, page, o)
      requires o + 1 < MAX_ORDER ==> Tag(tags, GetBuddy(page, o, ZoneOf(page))) != o + 1
      modifies this
      ensures Valid() && Freed(old(tags), tags, page, page + Pow2(o))
      ensures lists == PushBack(old(lists), Index(ZoneOf(page), o), page)
    {
      assert Tag(tags, page) == 0 by { HeadNotFree(tags, page, o); }
      WithWf(tags, page, o);
      PushBackOk(lists, tags, page, o);
      forall f: nat { WithFree(tags, page, o, f); }
      lists := PushBack(lists, Index(ZoneOf(page), o), page);
      tags := With(tags, page, o);
    }

    /**
     Frees one block: absorbs the buddy for as long as it is free at the same order,
     then links the result.  Panics in the source only if the head's tag is not 0.
     */
    method DeallocTyped(page: nat, order: nat)
      requires Valid() && order < ORDERS && Aligned(page, order) && Used(tags, page, page + Pow2(order))
      modifies this
      ensures Valid() && Freed(old(tags), tags, page, page + Pow2(order))
      ensures AllAged(old(lists), lists)
    {
      hide AllAged, Wf;
      SameAged(lists);
      var z := ZoneOf(page);
      var o, p := order, page;
      while o < MAX_ORDER - 1
        invariant Valid() && order <= o < ORDERS && Aligned(p, o) && ZoneOf(p) == z
        invariant NoneFree(tags, p, o) && InBlock(p, o, page) && AllAged(old(lists), lists)
        invariant forall f: nat ::
          (Free(tags, f) || InBlock(p, o, f)) <==> (Free(old(tags), f) || InBlock(page, order, f))
        decreases MAX_ORDER - o
      {
        var buddy := GetBuddy(p, o, z);
        if Tag(tags, buddy) != o + 1 { break; }
        Absorb(tags, p, o);
        UnlinkOk(lists, tags, buddy);
        Unlinked(old(lists), lists, tags, z, o, buddy);
        lists := Unlink(lists, Index(z, o), buddy);
        tags := Without(tags, buddy);
        p := GetCombined(p, o, z);
        o := o + 1;
      }
      Linked(old(lists), old(tags), lists, p, o, page);
      Link(p, o);
    }

    /** Gives back the upper halves of the block at `page` from order `hi` down to `lo`. */
    method SplitPage(page: nat, z: Zone, lo: nat, hi: nat)
      requires Valid() && lo <= hi < ORDERS && Aligned(page, hi) && ZoneOf(page) == z
      requires Used(tags, page, page + Pow2(hi))
      modifies this
      ensures Valid() && Freed(old(tags), tags, page + Pow2(lo), page + Pow2(hi))
      ensures AllAged(old(lists), lists)
    {
      hide AllAged, Wf, ListsOk, Free;
      SameAged(lists);
      Pow2Mono(lo, hi);
      for o := lo to hi
        invariant Valid() && Pow2(lo) <= Pow2(o) <= Pow2(hi)
        invariant Freed(old(tags), tags, page + Pow2(lo), page + Pow2(o)) && AllAged(old(lists), lists)
      {
        var sib := page + Pow2(o);
        Pow2Mono(o + 1, hi);
        AlignedMono(page, o + 1, hi);
        UpperHalf(tags, page, o);
        Linked(old(lists), old(tags), lists, sib, o, sib);
        Link(sib, o);
      }
    }

    /**
     Takes the first block of the lowest sufficient order and splits it.  Fails only
     when the zone has no free aligned run of `2^order` frames at all.
     */
    method AllocTyped(order: nat, z: Zone) returns (r: Option<nat>)
      requires Valid() && order < ORDERS
      modifies this
      ensures Valid()
      ensures r.None? <==> !exists a :: RunIn(old(tags), a, order, z)
      ensures r.None? ==> tags == old(tags) && lists == old(lists)
      ensures r.Some? ==> RunIn(old(tags), r.value, order, z) && BestFit(old(lists), order, z, r.value)
      ensures r.Some? ==> Taken(old(tags), tags, r.value, r.value + Pow2(order)) && AllAged(old(lists), lists)
    {
      hide AllAged;
      for o := order to MAX_ORDER
        invariant tags == old(tags) && lists == old(lists)
        invariant forall k :: order <= k < o ==> lists[Index(z, k)] == []
      {
        if lists[Index(z, o)] != [] {
          var page := lists[Index(z, o)][0];
          assert ListOk(lists[Index(z, o)], tags, z, o);
          assert page in lists[Index(z, o)];
          FrontBlock(tags, page, o, order);
          UnlinkOk(lists, tags, page);
          lists := Unlink(lists, Index(z, o), page);
          tags := Without(tags, page);
          ghost var mid := lists;
          SplitPage(page, z, order, o);
          TakenOut(old(lists), mid, lists, tags, z, o, page);
          assert RunIn(old(tags), page, order, z) && FrontOf(old(lists), order, o, z, page);
          return Some(page);
        }
      }
      NothingFits(lists, tags, order, z);
      r := None;
    }

    /** Prefers the high zone unless the caller names one. */
    method AllocPages(order: nat, zone: Option<Zone>) returns (r: Option<nat>)
      requires Valid()
      modifies this
      ensures Valid()
      ensures r.None? <==> order >= ORDERS || !exists a :: RunAny(old(tags), a, order, zone)
      ensures r.None? ==> tags == old(tags) && lists == old(lists)
      ensures r.Some? ==> RunAny(old(tags), r.value, order, zone)
      ensures r.Some? && zone.None? && ZoneOf(r.value) == Low ==> !exists a :: RunIn(old(tags), a, order, High)
      ensures r.Some? ==> Taken(old(tags), tags, r.value, r.value + Pow2(order))
    {
      if order >= ORDERS { return None; }
      match zone
      case Some(z) =>
        r := AllocTyped(order, z);
        assert forall a :: RunAny(old(tags), a, order, zone) <==> RunIn(old(tags), a, order, z);
      case None =>
        r := AllocTyped(order, High);
        if r.None? { r := AllocTyped(order, Low); }
        assert forall a :: RunAny(old(tags), a, order, zone) <==>
            RunIn(old(tags), a, order, High) || RunIn(old(tags), a, order, Low);
    }

    /** Frees `n` frames from `addr` as the largest aligned blocks that fit, never across zones. */
    method DeallocExact(n: nat, addr: nat)
      requires Valid() && Used(tags, addr, addr + n)
      modifies this
      ensures Valid() && Freed(old(tags), tags, addr, addr + n)
    {
      var start, end := addr, addr + n;
      while start < end
        invariant Valid() && addr <= start <= end
        invariant Freed(old(tags), tags, addr, start)
      {
        var base := Base(ZoneOf(start));
        var spfn, epfn := start - base, end - base;
        var order := if Lsb(spfn) < MAX_ORDER - 1 then Lsb(spfn) else MAX_ORDER - 1;
        order := if order < Msb(epfn - spfn) then order else Msb(epfn - spfn);
        ChunkFits(start, end, order);
        DeallocTyped(start, order);
        start := start + Pow2(order);
      }
    }

    /**
     Takes exactly `n` frames by allocating the covering power of two and giving the
     rest back.  For `n = 0` the wrapped order is 0 and nothing remains taken.
     */
    method AllocExact(n: nat, zone: Option<Zone>) returns (r: Option<nat>)
      requires Valid() && n < WORD
      modifies this
      ensures Valid()
      ensures r.None? <==> Log2c(n) >= ORDERS || !exists a :: RunAny(old(tags), a, Log2c(n), zone)
      ensures r.None? ==> tags == old(tags) && lists == old(lists)
      ensures r.Some? ==> Taken(old(tags), tags, r.value, r.value + n)
      ensures r.Some? && zone.Some? ==> forall f :: r.value <= f < r.value + n ==> ZoneOf(f) == zone.value
      ensures r.Some? && zone.None? && ZoneOf(r.value) == Low ==> !exists a :: RunIn(old(tags), a, Log2c(n), High)
    {
      var order := Log2c(n);
      Log2cIsLeast(n);
      r := AllocPages(order, zone);
      if r.Some? {
        StaysInZone(r.value, order);
        assert forall f :: r.value <= f < r.value + n ==> InBlock(r.value, order, f);
        DeallocExact(Pow2(order) - n, r.value + n);
      }
    }

    /** An allocation followed by its deallocation restores every free list as a set. */
    method RoundTrip(order: nat, z: Zone)
      requires Valid() && order < ORDERS
      modifies this
      ensures Valid() && SameBlocks(old(lists), lists)
    {
      var r := AllocTyped(order, z);
      if r.Some? { DeallocTyped(r.value, order); }
      SameFreeSameLists(old(lists), old(tags), lists, tags);
    }

    /** The same for an exact run, whatever blocks the pieces were cut from or merged into. */
    method ExactRoundTrip(n: nat, zone: Option<Zone>)
      requires Valid() && n < WORD
      modifies this
      ensures Valid() && SameBlocks(old(lists), lists)
    {
      var r := AllocExact(n, zone);
      if r.Some? { DeallocExact(n, r.value); }
      SameFreeSameLists(old(lists), old(tags), lists, tags);
    }
  }

  /** The head of a block with a used frame in it is not tagged as a free block of that order. */
  lemma NotListed(m: Tags, b: nat, o: nat, f: nat)
    requires InBlock(b, o, f) && !Free(m, f)
    ensures Tag(m, b) != o + 1
  {
    if Tag(m, b) == o + 1 { assert Heads(m, b, f); }
  }

  lemma Linked(was: seq<seq<nat>>, m: Tags, lists: seq<seq<nat>>, b: nat, o: nat, f: nat)
    requires ListsOk(was, m) && AllAged(was, lists) && o < ORDERS && InBlock(b, o, f) && !Free(m, f)
    ensures AllAged(was, PushBack(lists, Index(ZoneOf(b), o), b))
  {
    NotListed(m, b, o, f);
    assert ListOk(was[Index(ZoneOf(b), o)], m, ZoneOf(b), o);
    PushAged(was, lists, Index(ZoneOf(b), o), b);
  }

  /** A block taken from the front of its list and cut up: the lists age, for it is not linked again. */
  lemma TakenOut(was: seq<seq<nat>>, mid: seq<seq<nat>>, lists: seq<seq<nat>>, m: Tags, z: Zone, o: nat, b: nat)
    requires |was| == 2 * ORDERS && o < ORDERS && Distinct(was[Index(z, o)]) && mid == Unlink(was, Index(z, o), b)
    requires AllAged(mid, lists) && ListsOk(lists, m) && !Free(m, b)
    ensures AllAged(was, lists)
  {
    var i := Index(z, o);
    SameAged(was);
    UnlinkAged(was, was, i, b);
    RemoveSpec(was[i], b);
    assert ListOk(lists[i], m, z, o);
    assert b !in lists[i] by { NotListed(m, b, o, b); }
    forall k | 0 <= k < |was|
      ensures Aged(was[k], lists[k])
    {
      forall x, y | 0 <= x < y < |lists[k]| && lists[k][y] in was[k]
        ensures Before(was[k], lists[k][x], lists[k][y])
      {
        assert lists[k][y] in lists[k];
        assert Before(mid[k], lists[k][x], lists[k][y]);
        BeforeThrough(was[k], mid[k], lists[k][x], lists[k][y]);
      }
    }
  }

  lemma Unlinked(was: seq<seq<nat>>, lists: seq<seq<nat>>, m: Tags, z: Zone, o: nat, b: nat)
    requires AllAged(was, lists) && ListsOk(lists, m) && o < ORDERS
    ensures AllAged(was, Unlink(lists, Index(z, o), b))
  {
    assert ListOk(lists[Index(z, o)], m, z, o);
    UnlinkAged(was, lists, Index(z, o), b);
  }

  lemma SameFreeSameLists(lists: seq<seq<nat>>, m: Tags, lists': seq<seq<nat>>, m': Tags)
    requires Wf(m) && Wf(m') && ListsOk(lists, m) && ListsOk(lists', m')
    requires forall f: nat :: Free(m, f) <==> Free(m', f)
    ensures SameBlocks(lists, lists')
  {
    SameFreeSameTags(m, m');
    forall i, f: nat | 0 <= i < 2 * ORDERS
      ensures f in lists[i] <==> f in lists'[i]
    {
      var z, k := if i < ORDERS then Low else High, i % ORDERS;
      assert ListOk(lists[Index(z, k)], m, z, k) && ListOk(lists'[Index(z, k)], m', z, k);
    }
  }

  ghost predicate RunAny(m: Tags, a: nat, k: nat, zone: Option<Zone>) {
    FreeRun(m, a, k) && (zone.Some? ==> ZoneOf(a) == zone.value)
  }

  /** The upper half of a used aligned block can be tagged free: its buddy is the used lower half. */
  lemma UpperHalf(m: Tags, page: nat, o: nat)
    requires Wf(m) && o + 1 < MAX_ORDER && Aligned(page, o + 1)
    requires Used(m, page + Pow2(o), page + 2 * Pow2(o)) && !Free(m, page)
    ensures ZoneOf(page + Pow2(o)) == ZoneOf(page)
    ensures NoneFree(m, page + Pow2(o), o)
    ensures Tag(m, GetBuddy(page + Pow2(o), o, ZoneOf(page + Pow2(o)))) != o + 1
  {
    var sib := page + Pow2(o);
    AlignedMono(page, o, o + 1);
    AlignedParity(page, o);
    BuddyArith(page, o);
    BuddyArith(sib, o);
    if Tag(m, page) > 0 { assert Heads(m, page, page); }
  }

  /** The block taken from a list holds a free run of the requested order at its head. */
  lemma FrontBlock(m: Tags, page: nat, o: nat, order: nat)
    requires Wf(m) && Tag(m, page) == o + 1 && order <= o
    ensures Aligned(page, o) && Wf(Without(m, page)) && FreeRun(m, page, order)
    ensures Taken(m, Without(m, page), page, page + Pow2(o)) && Pow2(order) <= Pow2(o)
  {
    assert TagOk(m, page);
    AlignedMono(page, order, o);
    Pow2Mono(order, o);
    WithoutWf(m, page);
    forall f: nat
      ensures Free(Without(m, page), f) <==> Free(m, f) && !InBlock(page, o, f)
      ensures InBlock(page, o, f) ==> Free(m, f)
    {
      WithoutFree(m, page, f);
      if InBlock(page, o, f) { assert Heads(m, page, f); }
    }
  }

  /** With every list from `order` up empty, the zone has no free aligned run of that order. */
  lemma NothingFits(lists: seq<seq<nat>>, m: Tags, order: nat, z: Zone)
    requires Wf(m) && ListsOk(lists, m) && order < ORDERS
    requires forall k :: order <= k < MAX_ORDER ==> lists[Index(z, k)] == []
    ensures !exists a :: RunIn(m, a, order, z)
  {
    forall a | RunIn(m, a, order, z)
      ensures false
    {
      var b := InOneBlock(m, a, order);
      var k := Tag(m, b) - 1;
      assert TagOk(m, b);
      StaysInZone(b, k);
      assert InBlock(b, k, a);
      Listed(lists, m, b);
    }
  }

  lemma Listed(lists: seq<seq<nat>>, m: Tags, b: nat)
    requires ListsOk(lists, m) && 0 < Tag(m, b) <= ORDERS
    ensures lists[Index(ZoneOf(b), Tag(m, b) - 1)] != []
  {
    assert ListOk(lists[Index(ZoneOf(b), Tag(m, b) - 1)], m, ZoneOf(b), Tag(m, b) - 1);
    assert b in lists[Index(ZoneOf(b), Tag(m, b) - 1)];
  }

  /** The chunk chosen by `DeallocExact` is aligned, inside the range and inside one zone. */
  lemma ChunkFits(start: nat, end: nat, order: nat)
    requires start < end && order < MAX_ORDER
    requires order <= Lsb(start - Base(ZoneOf(start))) && order <= Msb(end - start)
    ensures Aligned(start, order) && start + Pow2(order) <= end
    ensures forall f :: InBlock(start, order, f) ==> ZoneOf(f) == ZoneOf(start)
  {
    LsbAligns(start - Base(ZoneOf(start)), order);
    ZoneRelative(start, order);
    MsbBounds(end - start);
    Pow2Mono(order, Msb(end - start));
    StaysInZone(start, order);
  }

  lemma HeadNotFree(m: Tags, p: nat, o: nat)
    requires NoneFree(m, p, o)
    ensures Tag(m, p) == 0
  {
    if Tag(m, p) > 0 {
      assert Heads(m, p, p);
      assert InBlock(p, o, p) && Free(m, p);
    }
  }

  /** Unlinking a free buddy turns two used halves into one used block of the next order. */
  lemma Absorb(m: Tags, p: nat, o: nat)
    requires Wf(m) && o + 1 < MAX_ORDER && NoneFree(m, p, o)
    requires Tag(m, GetBuddy(p, o, ZoneOf(p))) == o + 1
    ensures var z := ZoneOf(p);
      var buddy, comb := GetBuddy(p, o, z), GetCombined(p, o, z);
      var m' := Without(m, buddy);
      && Wf(m') && NoneFree(m', comb, o + 1) && ZoneOf(comb) == z == ZoneOf(buddy)
      && (forall f: nat :: (Free(m', f) || InBlock(comb, o + 1, f)) <==> (Free(m, f) || InBlock(p, o, f)))
      && forall f :: InBlock(p, o, f) ==> InBlock(comb, o + 1, f)
  {
    var z := ZoneOf(p);
    var buddy, comb := GetBuddy(p, o, z), GetCombined(p, o, z);
    BuddyArith(p, o);
    WithoutWf(m, buddy);
    forall f: nat
      ensures InBlock(comb, o + 1, f) ==> !Free(Without(m, buddy), f)
      ensures (Free(Without(m, buddy), f) || InBlock(comb, o + 1, f)) <==> (Free(m, f) || InBlock(p, o, f))
    {
      WithoutFree(m, buddy, f);
      if InBlock(buddy, o, f) { assert Heads(m, buddy, f); }
    }
  }
}
