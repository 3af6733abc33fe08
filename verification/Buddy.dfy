/**
 The buddy allocator's bookkeeping, seen through the order tags of page frames:
 a frame whose tag is `k + 1` heads a free block of `2^k` frames, every other frame
 has tag 0.  Frames are numbered from physical address 0; the low zone ends at 4 GiB.
 */
module BuddyTags {
  import opened Bits

  const MAX_ORDER: nat := 12
  const BOUND: nat := 0x10_0000   // frames below 4 GiB

  datatype Zone = Low | High

  type Tags = map<nat, nat>

  function Tag(m: Tags, f: nat): nat { if f in m then m[f] else 0 }

  function ZoneOf(f: nat): Zone { if f < BOUND then Low else High }

  function Base(z: Zone): nat { if z.Low? then 0 else BOUND }

  /** The frame whose zone-relative number differs in bit `k`. */
  function GetBuddy(f: nat, k: nat, z: Zone): nat
    requires Base(z) <= f
  {
    Base(z) + Xor(f - Base(z), Pow2(k))
  }

  function GetCombined(f: nat, k: nat, z: Zone): nat
    requires Base(z) <= f
  {
    Base(z) + And(f - Base(z), Xor(f - Base(z), Pow2(k)))
  }

  /** Frame `f` lies in the block of order `k` at `b`. */
  predicate InBlock(b: nat, k: nat, f: nat) { b <= f < b + Pow2(k) }

  ghost predicate Heads(m: Tags, b: nat, f: nat) {
    Tag(m, b) > 0 && InBlock(b, Tag(m, b) - 1, f)
  }

  ghost predicate Free(m: Tags, f: nat) { exists b :: Heads(m, b, f) }

  /** All frames of the block of order `k` at `a` are free. */
  ghost predicate FreeRun(m: Tags, a: nat, k: nat) {
    Aligned(a, k) && forall f :: InBlock(a, k, f) ==> Free(m, f)
  }

  ghost predicate NoneFree(m: Tags, a: nat, k: nat) {
    Aligned(a, k) && forall f :: InBlock(a, k, f) ==> !Free(m, f)
  }

  ghost predicate TagOk(m: Tags, b: nat) {
    Tag(m, b) > 0 ==> Tag(m, b) <= MAX_ORDER && Aligned(b, Tag(m, b) - 1)
  }

  ghost predicate Apart(m: Tags, b: nat, c: nat) {
    Tag(m, b) > 0 && Tag(m, c) > 0 && b < c ==> b + Pow2(Tag(m, b) - 1) <= c
  }

  /** Below the largest order, a free block's buddy is not a free block of the same order. */
  ghost predicate Coalesced(m: Tags, b: nat) {
    0 < Tag(m, b) < MAX_ORDER ==> Tag(m, GetBuddy(b, Tag(m, b) - 1, ZoneOf(b))) != Tag(m, b)
  }

  ghost predicate Wf(m: Tags) {
    && (forall b: nat :: TagOk(m, b))
    && (forall b: nat, c: nat :: Apart(m, b, c))
    && (forall b: nat :: Coalesced(m, b))
  }

  // ------------------------------------------------------------ block geometry

  lemma BoundAligned(k: nat)
    requires k <= MAX_ORDER
    ensures Aligned(BOUND, k)
  {
    assert Pow2(20) == BOUND by {
      assert Pow2(5) == 32;
      assert Pow2(10) == 1024;
      assert Pow2(15) == 0x8000;
    }
    Pow2Aligned(k, 20);
  }

  /** The XOR buddy and the AND of the two, as plain arithmetic; neither leaves the zone. */
  lemma BuddyArith(f: nat, k: nat)
    requires k + 1 < MAX_ORDER && Aligned(f, k)
    ensures !Aligned(f, k + 1) ==> f >= Pow2(k)
    ensures GetBuddy(f, k, ZoneOf(f)) == (if Aligned(f, k + 1) then f + Pow2(k) else f - Pow2(k))
    ensures GetCombined(f, k, ZoneOf(f)) == (if Aligned(f, k + 1) then f else f - Pow2(k))
    ensures ZoneOf(GetBuddy(f, k, ZoneOf(f))) == ZoneOf(GetCombined(f, k, ZoneOf(f))) == ZoneOf(f)
    ensures Aligned(GetBuddy(f, k, ZoneOf(f)), k) && Aligned(GetCombined(f, k, ZoneOf(f)), k + 1)
  {
    var z := ZoneOf(f);
    var a := f - Base(z);
    ZoneRelative(f, k);
    ZoneRelative(f, k + 1);
    XorBit(a, k);
    AndXorBit(a, k);
    AlignedParity(f, k);
    Pow2Aligned(k, k);
    AlignedAdd(f, Pow2(k), k);
    if Aligned(f, k + 1) { StaysInZone(f, k + 1); }
  }

  lemma ZoneRelative(f: nat, k: nat)
    requires k <= MAX_ORDER
    ensures Aligned(f - Base(ZoneOf(f)), k) <==> Aligned(f, k)
  {
    var base := Base(ZoneOf(f));
    BoundAligned(k);
    if base > 0 {
      if Aligned(f, k) { AlignedAdd(f, base, k); }
      if Aligned(f - base, k) { AlignedAdd(f - base, base, k); }
    }
  }

  /** No aligned block crosses the 4 GiB boundary. */
  lemma StaysInZone(b: nat, k: nat)
    requires k <= MAX_ORDER && Aligned(b, k)
    ensures forall f :: InBlock(b, k, f) ==> ZoneOf(f) == ZoneOf(b)
  {
    BoundAligned(k);
    if b < BOUND { AlignedGap(b, BOUND, k); }
  }

  /** Aligned blocks nest or are disjoint: one that meets a larger one lies inside it. */
  lemma Nested(a: nat, k: nat, b: nat, j: nat, f: nat)
    requires k <= j && Aligned(a, k) && Aligned(b, j) && InBlock(a, k, f) && InBlock(b, j, f)
    ensures b <= a && a + Pow2(k) <= b + Pow2(j)
  {
    AlignedMono(b, k, j);
    Pow2Aligned(k, j);
    AlignedAdd(b, Pow2(j), k);
    if a < b { AlignedGap(a, b, k); }
    AlignedGap(a, b + Pow2(j), k);
  }

  // ------------------------------------------------------- adding and removing

  function Without(m: Tags, b: nat): Tags { m[b := 0] }

  function With(m: Tags, b: nat, k: nat): Tags { m[b := k + 1] }

  lemma WithoutWf(m: Tags, b: nat)
    requires Wf(m)
    ensures Wf(Without(m, b))
  {
    var m' := Without(m, b);
    forall c: nat
      ensures TagOk(m', c) && Coalesced(m', c)
    {
      assert TagOk(m, c) && Coalesced(m, c);
    }
    forall c: nat, d: nat
      ensures Apart(m', c, d)
    {
      assert Apart(m, c, d);
    }
  }

  lemma WithoutFree(m: Tags, b: nat, f: nat)
    requires Wf(m) && Tag(m, b) > 0
    ensures Free(Without(m, b), f) <==> Free(m, f) && !InBlock(b, Tag(m, b) - 1, f)
  {
    var m' := Without(m, b);
    if Free(m', f) {
      var c :| Heads(m', c, f);
      assert Heads(m, c, f);
      assert Apart(m, b, c) && Apart(m, c, b);
    }
    if Free(m, f) && !InBlock(b, Tag(m, b) - 1, f) {
      var c :| Heads(m, c, f);
      assert Heads(m', c, f);
    }
  }

  lemma BuddySymmetric(f: nat, k: nat)
    requires k + 1 < MAX_ORDER && Aligned(f, k)
    ensures var b := GetBuddy(f, k, ZoneOf(f)); ZoneOf(b) == ZoneOf(f) && GetBuddy(b, k, ZoneOf(b)) == f
  {
    BuddyArith(f, k);
    BuddyArith(GetBuddy(f, k, ZoneOf(f)), k);
    AlignedParity(f, k);
  }

  /** A block of used frames may be tagged free when its buddy is not a free block of its order. */
  lemma WithWf(m: Tags, b: nat, k: nat)
    requires Wf(m) && k < MAX_ORDER && NoneFree(m, b, k)
    requires k + 1 < MAX_ORDER ==> Tag(m, GetBuddy(b, k, ZoneOf(b))) != k + 1
    ensures Wf(With(m, b, k))
  {
    var m' := With(m, b, k);
    forall c: nat
      ensures TagOk(m', c)
    {
      assert TagOk(m, c);
    }
    forall c: nat, d: nat
      ensures Apart(m', c, d)
    {
      if c != b && d != b {
        assert Apart(m, c, d);
      } else if d == b && Tag(m, c) > 0 && c < b && b < c + Pow2(Tag(m, c) - 1) {
        assert Heads(m, c, b);
        assert Free(m, b);
      } else if c == b && Tag(m, d) > 0 && b < d && d < b + Pow2(k) {
        assert Heads(m, d, d);
        assert Free(m, d);
      }
    }
    forall c: nat
      ensures Coalesced(m', c)
    {
      WithCoalesced(m, b, k, c);
    }
  }

  lemma WithCoalesced(m: Tags, b: nat, k: nat, c: nat)
    requires Wf(m) && k < MAX_ORDER && Aligned(b, k)
    requires k + 1 < MAX_ORDER ==> Tag(m, GetBuddy(b, k, ZoneOf(b))) != k + 1
    ensures Coalesced(With(m, b, k), c)
  {
    hide Apart, GetBuddy, GetCombined, Aligned;
    assert Coalesced(m, c) && TagOk(m, c);
    if c == b {
      if k + 1 < MAX_ORDER { BuddyElsewhere(b, k); }
    } else if Tag(m, c) == k + 1 < MAX_ORDER && GetBuddy(c, k, ZoneOf(c)) == b {
      BuddySymmetric(c, k);
    }
  }

  lemma BuddyElsewhere(f: nat, k: nat)
    requires k + 1 < MAX_ORDER && Aligned(f, k)
    ensures GetBuddy(f, k, ZoneOf(f)) != f
  {
    BuddyArith(f, k);
  }

  lemma WithFree(m: Tags, b: nat, k: nat, f: nat)
    requires Wf(m) && NoneFree(m, b, k)
    ensures Free(With(m, b, k), f) <==> Free(m, f) || InBlock(b, k, f)
  {
    var m' := With(m, b, k);
    assert InBlock(b, k, b) && !Free(m, b) && !Heads(m, b, b);
    if Free(m', f) {
      var c :| Heads(m', c, f);
      if c != b { assert Heads(m, c, f); }
    }
    if Free(m, f) {
      var c :| Heads(m, c, f);
      assert Heads(m', c, f);
    } else if InBlock(b, k, f) {
      assert Heads(m', b, f);
    }
  }

  // ------------------------------------------------- completeness, canonical form

  lemma HeadsUnique(m: Tags, b: nat, c: nat, f: nat)
    requires Wf(m) && Heads(m, b, f) && Heads(m, c, f)
    ensures b == c
  {
    assert Apart(m, b, c) && Apart(m, c, b);
  }

  /** The two halves of an aligned block are not both free blocks: they would have been merged. */
  lemma NotBothHalves(m: Tags, a: nat, k: nat)
    requires Wf(m) && 0 < k < MAX_ORDER && Aligned(a, k)
    ensures Tag(m, a) != k || Tag(m, a + Pow2(k - 1)) != k
  {
    AlignedMono(a, k - 1, k);
    BuddyArith(a, k - 1);
    assert Coalesced(m, a);
  }

  /** A free aligned run lies inside one free block: fragmentation never hides it. */
  lemma {:induction false} InOneBlock(m: Tags, a: nat, k: nat) returns (b: nat)
    requires Wf(m) && k < MAX_ORDER && FreeRun(m, a, k)
    ensures Tag(m, b) >= k + 1 && b <= a && a + Pow2(k) <= b + Pow2(Tag(m, b) - 1)
    decreases k
  {
    if k == 0 {
      assert InBlock(a, 0, a);
      b :| Heads(m, b, a);
    } else {
      Halves(m, a, k);
      b := InOneBlock(m, a, k - 1);
      var c := InOneBlock(m, a + Pow2(k - 1), k - 1);
      NotBothHalves(m, a, k);
      if Tag(m, b) > k || Tag(m, c) > k {
        b := if Tag(m, b) > k then b else c;
        assert TagOk(m, b);
        Nested(a, k, b, Tag(m, b) - 1, if b == c then a + Pow2(k - 1) else a);
      }
    }
  }

  lemma Halves(m: Tags, a: nat, k: nat)
    requires k > 0 && FreeRun(m, a, k)
    ensures FreeRun(m, a, k - 1) && FreeRun(m, a + Pow2(k - 1), k - 1)
  {
    AlignedMono(a, k - 1, k);
    Pow2Aligned(k - 1, k - 1);
    AlignedAdd(a, Pow2(k - 1), k - 1);
    assert forall f :: InBlock(a, k - 1, f) ==> InBlock(a, k, f);
    assert forall f :: InBlock(a + Pow2(k - 1), k - 1, f) ==> InBlock(a, k, f);
  }

  lemma BlockIsRun(m: Tags, c: nat, a: nat, k: nat)
    requires Aligned(a, k) && Tag(m, c) > 0 && c <= a && a + Pow2(k) <= c + Pow2(Tag(m, c) - 1)
    ensures FreeRun(m, a, k)
  {
    forall f | InBlock(a, k, f)
      ensures Free(m, f)
    {
      assert Heads(m, c, f);
    }
  }

  /** The larger run around a free block of order `k` is not free. */
  lemma ParentNotFree(m: Tags, b: nat, k: nat)
    requires Wf(m) && k + 1 < MAX_ORDER && Tag(m, b) == k + 1
    ensures !FreeRun(m, GetCombined(b, k, ZoneOf(b)), k + 1)
  {
    assert TagOk(m, b);
    BuddyArith(b, k);
    var comb := GetCombined(b, k, ZoneOf(b));
    if FreeRun(m, comb, k + 1) {
      var c := InOneBlock(m, comb, k + 1);
      HeadsUnique(m, b, c, b);
    }
  }

  /**
   Canonical form: a frame heads a free block of order `k` exactly when its aligned
   run of `2^k` frames is free and, below the largest order, the run twice as large
   around it is not.
   */
  lemma Canonical(m: Tags, b: nat, k: nat)
    requires Wf(m) && k < MAX_ORDER
    ensures Tag(m, b) == k + 1 <==>
            FreeRun(m, b, k) && (k + 1 < MAX_ORDER ==> !FreeRun(m, GetCombined(b, k, ZoneOf(b)), k + 1))
  {
    if Tag(m, b) == k + 1 {
      assert TagOk(m, b);
      BlockIsRun(m, b, b, k);
      if k + 1 < MAX_ORDER { ParentNotFree(m, b, k); }
    } else if FreeRun(m, b, k) {
      var c := InOneBlock(m, b, k);
      assert TagOk(m, c);
      if Tag(m, c) > k + 1 {
        BuddyArith(b, k);
        var comb := GetCombined(b, k, ZoneOf(b));
        Nested(comb, k + 1, c, Tag(m, c) - 1, b);
        BlockIsRun(m, c, comb, k + 1);
      }
    }
  }

  /** The free frames alone determine every tag. */
  lemma SameFreeSameTags(m: Tags, m': Tags)
    requires Wf(m) && Wf(m') && forall f: nat :: Free(m, f) <==> Free(m', f)
    ensures forall b: nat :: Tag(m, b) == Tag(m', b)
  {
    forall b: nat
      ensures Tag(m, b) == Tag(m', b)
    {
      assert TagOk(m, b) && TagOk(m', b);
      if Tag(m, b) > 0 {
        SameRun(m, m', b, Tag(m, b) - 1);
      }
      if Tag(m', b) > 0 {
        SameRun(m, m', b, Tag(m', b) - 1);
      }
    }
  }

  lemma SameRun(m: Tags, m': Tags, b: nat, k: nat)
    requires Wf(m) && Wf(m') && k < MAX_ORDER && forall f: nat :: Free(m, f) <==> Free(m', f)
    ensures Tag(m, b) == k + 1 <==> Tag(m', b) == k + 1
  {
    Canonical(m, b, k);
    Canonical(m', b, k);
  }
}
