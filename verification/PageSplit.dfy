/**
 Unmapping part of a large page: the leaf is split into a table of 512 smaller
 leaves first.  What the split keeps, what it changes, and what happens when the
 allocator has no page for the table.
 */
module PageSplit {
  import opened Types
  import opened PageEntry
  import opened PageTree
  import opened PagePlan
  import opened Paging
  import Bits

  /** The leaf that stands for offset `w` after the split of a level-`m` leaf `e`. */
  function Piece(e: Entry, m: Level, w: nat): Entry
    requires m > 0
  {
    SplitItem(e, m, Rest(m, w) / Size(m - 1)).entry
  }

  predicate SamePage(m: Level, o: nat, w: nat) { w / Size(m) == o / Size(m) }

  /** Two offsets of one level-`l` slot lie in the same smaller page exactly when their rests do. */
  lemma SamePageBelow(l: Level, m: Level, o: nat, w: nat)
    requires m < l && o < Cover(l) && w < Cover(l)
    ensures SamePage(m, o, w) <==> Index(l, w) == Index(l, o) && SamePage(m, Rest(l, o), Rest(l, w))
    ensures Rest(m, Rest(l, w)) == Rest(m, w)
  {
    Ratio(l, m);
    var k := Size(l) / Size(m);
    PageNumber(w, Size(l), Size(m), k);
    PageNumber(o, Size(l), Size(m), k);
    SplitNumber(k, o / Size(l), Rest(l, o) / Size(m), w / Size(l), Rest(l, w) / Size(m));
  }

  lemma SplitNumber(k: nat, a: nat, x: nat, b: nat, y: nat)
    requires x < k && y < k
    ensures k * a + x == k * b + y <==> a == b && x == y
  {
    Bits.ModUnique(k * a + x, k, a, x);
    Bits.ModUnique(k * b + y, k, b, y);
  }

  /** Slot `j` of the split table, dropped: the other 511 pieces stay. */
  lemma DropPiece(e: Entry, l: Level, o: nat, w: nat, pool: seq<nat>)
    requires l > 0 && IsLeaf(e, l) && o < Size(l) && w < Size(l) && Multiple(o, l - 1)
    ensures TableWf(SplitItems(e, l), l - 1)
    ensures var r := DropPage(SplitItems(e, l), l - 1, o, l - 1, pool);
      && r.error.None? && r.pool == pool && !IsEmpty(r.table)
      && LeafAt(r.table, l - 1, w)
         == if o <= w < o + Size(l - 1) then None else Some(Hit(l - 1, SplitItem(e, l, w / Size(l - 1)).entry))
  {
    SplitItemsWf(e, l);
    Sizes(l);
    var m: Level := l - 1;
    var t, i := SplitItems(e, l), Index(m, o);
    var r := DropPage(t, m, o, m, pool);
    assert r.table == t[i := Absent];
    assert !r.table[if i == 0 then 1 else 0].Absent?;
    OneSlot(m, o, w);
    UpdateHit(t, m, i, Absent, w);
  }

  /** Dropping one page out of a leaf one level larger: that page goes, the rest of the leaf becomes its pieces. */
  lemma {:induction false} SplitDrop(t: seq<Slot>, l: Level, o: nat, level: Level, pool: seq<nat>, w: nat)
    requires TableWf(t, l) && o < Cover(l) && w < Cover(l) && level < l && Multiple(o, level) && pool != []
    requires LeafAt(t, l, o).Some? && LeafAt(t, l, o).value.level == level + 1
    ensures var r := DropPage(t, l, o, level, pool);
      && r.error.None? && r.pool == pool[1..] && !IsEmpty(r.table)
      && LeafAt(r.table, l, w)
         == if o <= w < o + Size(level) then None
            else if SamePage(level + 1, o, w) then Some(Hit(level, Piece(LeafAt(t, l, o).value.entry, level + 1, w)))
            else LeafAt(t, l, w)
    decreases l
  {
    hide Multiple, Size, Cover;
    var i := Index(l, o);
    var e := LeafAt(t, l, o).value.entry;
    assert SlotWf(t[i], l);
    InsideSlot(l, level, o, w);
    InsideSlot(l, level, o, o);
    Sizes(l);
    LevelBelow(t, l, o);
    var w' := if Index(l, w) == i then Rest(l, w) else Rest(l, o);
    if l == level + 1 {
      DropPiece(e, l, Rest(l, o), w', pool[1..]);
      PruneHit(t, l, i, pool[0], DropPage(SplitItems(e, l), l - 1, Rest(l, o), level, pool[1..]), w);
    } else {
      SamePageBelow(l, level + 1, o, w);
      var s := t[i].table;
      SplitDrop(s, l - 1, Rest(l, o), level, pool, w');
      PruneHit(t, l, i, t[i].page, DropPage(s, l - 1, Rest(l, o), level, pool), w);
    }
    var t' := DropPage(t, l, o, level, pool).table;
    assert t'[i].Next?;
  }

  /**
   The pieces of a 2 MiB leaf keep its rights.  Their targets are off by the leaf's frame bits below
   2 MiB, so they keep its target exactly when those are clear, that is, when `LARGE_PAT` (bit 12) was
   not set; and they always carry bit 7, which at the lowest level means `PAT`.
   */
  lemma PieceTranslates(e: Entry, w: nat)
    requires IsLeaf(e, 1) && e.frame < FRAMES
    ensures var x := Piece(e, 1, w);
      && SameRights(AttrOf(x), AttrOf(e)) && AttrOf(x).large
      && PhysOf(x, 0) + Rest(0, w) == (PhysOf(e, 1) + Rest(1, w) + SplitShift(e)) % CANON
      && (PhysOf(x, 0) + Rest(0, w) == PhysOf(e, 1) + Rest(1, w) <==> e.frame % 512 == 0)
  {
    var j, r := Rest(1, w) / PAGE, Rest(0, w);
    PageNumber(w, Size(1), Size(0), 512);
    assert Rest(1, w) == j * PAGE + r;
    assert PhysOf(Piece(e, 1, w), 0) == ((e.frame + j) % FRAMES) * PAGE by {
      assert PhysOf(e, 0) + j * PAGE == (e.frame + j) * PAGE;
    }
    FrameShift(e.frame, j, r);
  }

  lemma FrameShift(f: nat, j: nat, r: nat)
    requires f < FRAMES && j < 512 && r < PAGE
    ensures var moved, base := (f + j) % FRAMES * PAGE + r, (f - f % 512) * PAGE + (j * PAGE + r);
      moved == (base + f % 512 * PAGE) % CANON && (moved == base <==> f % 512 == 0)
  {
    var base := (f - f % 512) * PAGE + (j * PAGE + r);
    assert base + f % 512 * PAGE == (f + j) * PAGE + r;
    if f + j < FRAMES {
      Bits.ModUnique((f + j) * PAGE + r, CANON, 0, (f + j) * PAGE + r);
    } else {
      Bits.ModUnique((f + j) * PAGE + r, CANON, 1, (f + j - FRAMES) * PAGE + r);
    }
  }

  /** The distance between a 2 MiB leaf's target and that of the pieces it is split into. */
  function SplitShift(e: Entry): nat { e.frame % 512 * PAGE }

  lemma ShortRange(v: nat, end: nat, p: nat)
    requires RangeOk(v, end) && v < end < v + Size(1) && PageAligned(p)
    ensures FitAll(v, end, p) == 0
  {
    var n := end - v;
    assert n % 0x20_0000 == n;
    assert n % 0x4000_0000 == n;
  }

  /** The lookups of `t'`: those of `t`, but `[lo, hi)` unmapped and the rest of the leaf `e` at `b` in pieces. */
  ghost predicate CutOut(t: seq<Slot>, t': seq<Slot>, b: nat, e: Entry, lo: nat, hi: nat)
    requires |t| == |t'| == ENTRIES
  {
    forall w :: 0 <= w < CANON ==>
      LeafAt(t', 3, w) == (if lo <= w < hi then None
                           else if b <= w < b + Size(1) then Some(Hit(0, Piece(e, 1, w)))
                           else LeafAt(t, 3, w))
  }

  lemma FirstCut(t: seq<Slot>, o: nat, pool: seq<nat>, b: nat, e: Entry)
    requires TableWf(t, 3) && |t| == ENTRIES && PageIs(t, b, 1, e) && Multiple(b, 1) && b + Size(1) <= CANON
    requires b <= o < b + Size(1) && Multiple(o, 0) && pool != []
    ensures var r := DropPage(t, 3, o, 0, pool);
      r.error.None? && |r.table| == ENTRIES && CutOut(t, r.table, b, e, o, o + PAGE)
  {
    hide LeafAt, TableWf, DropPage, Piece, Multiple;
    var t' := DropPage(t, 3, o, 0, pool).table;
    assert LeafAt(t, 3, o) == Some(Hit(1, e));
    MultipleIsMod(b, 1);
    SplitDrop(t, 3, o, 0, pool, o);
    forall w | 0 <= w < CANON
      ensures LeafAt(t', 3, w) ==
        if o <= w < o + PAGE then None
        else if b <= w < b + Size(1) then Some(Hit(0, Piece(e, 1, w)))
        else LeafAt(t, 3, w)
    {
      SplitDrop(t, 3, o, 0, pool, w);
      SlotBounds(Size(1), b, w);
      SlotBounds(Size(1), b, o);
    }
  }

  lemma NextCut(t: seq<Slot>, t1: seq<Slot>, o: nat, pool: seq<nat>, b: nat, e: Entry, lo: nat)
    requires TableWf(t1, 3) && |t| == |t1| == ENTRIES && CutOut(t, t1, b, e, lo, o) && b + Size(1) <= CANON
    requires b <= lo <= o < b + Size(1) && Multiple(o, 0)
    ensures var r := DropPage(t1, 3, o, 0, pool);
      r.error.None? && |r.table| == ENTRIES && CutOut(t, r.table, b, e, lo, o + PAGE)
  {
    hide LeafAt, TableWf, DropPage, Piece, Multiple;
    var t' := DropPage(t1, 3, o, 0, pool).table;
    assert LeafAt(t1, 3, o) == Some(Hit(0, Piece(e, 1, o)));
    DropPageLookup(t1, 3, o, 0, pool, o);
    forall w | 0 <= w < CANON
      ensures LeafAt(t', 3, w) ==
        if lo <= w < o + PAGE then None
        else if b <= w < b + Size(1) then Some(Hit(0, Piece(e, 1, w)))
        else LeafAt(t, 3, w)
    {
      DropPageLookup(t1, 3, o, 0, pool, w);
    }
  }

  /** The remaining pages of the range, one by one. */
  lemma {:induction false} RestCut(t: seq<Slot>, t1: seq<Slot>, v: nat, end: nat, pool: seq<nat>, b: nat,
                                   e: Entry, lo: nat, o: nat)
    requires TableWf(t1, 3) && |t| == |t1| == ENTRIES && RangeOk(v, end) && end < v + Size(1)
    requires v < end ==> o == Low(v)
    requires CutOut(t, t1, b, e, lo, o) && b <= lo <= o && o + (end - v) <= b + Size(1) <= CANON
    ensures var u := UnmapsRun(t1, v, end, pool); CutOut(t, u.table, b, e, lo, o + (end - v))
    decreases end - v
  {
    hide LeafAt, TableWf, DropPage, Low, FitAll, PhysAt, CutOut, Multiple;
    if v == end {
    } else {
      PhysAtAligned(t1, v);
      ShortRange(v, end, PhysAt(t1, v));
      FirstPage(v, end, PhysAt(t1, v));
      DropPageWf(t1, 3, o, 0, pool);
      NextCut(t, t1, o, pool, b, e, lo);
      var r := DropPage(t1, 3, o, 0, pool);
      RestCut(t, r.table, v + PAGE, end, r.pool, b, e, lo, o + PAGE);
    }
  }

  /**
   `unmaps` of a page-aligned proper part of a 2 MiB leaf, when the allocator has a
   page for the split: exactly that part is unmapped, the rest of the leaf is served
   by its pieces, and no other translation changes.
   */
  lemma UnmapsPart(t: seq<Slot>, v: nat, end: nat, pool: seq<nat>, b: nat, e: Entry)
    requires TableWf(t, 3) && |t| == ENTRIES && PageIs(t, b, 1, e) && Multiple(b, 1) && b + Size(1) <= CANON
    requires RangeOk(v, end) && v < end < v + Size(1) && b <= Low(v) && Low(v) + (end - v) <= b + Size(1)
    requires pool != []
    ensures CutOut(t, UnmapsRun(t, v, end, pool).table, b, e, Low(v), Low(v) + (end - v))
  {
    hide LeafAt, TableWf, DropPage, Low, FitAll, PhysAt, CutOut, Multiple, PageIs;
    PhysAtAligned(t, v);
    ShortRange(v, end, PhysAt(t, v));
    FirstPage(v, end, PhysAt(t, v));
    DropPageWf(t, 3, Low(v), 0, pool);
    FirstCut(t, Low(v), pool, b, e);
    var r := DropPage(t, 3, Low(v), 0, pool);
    RestCut(t, r.table, v + PAGE, end, r.pool, b, e, Low(v), Low(v) + PAGE);
  }

  /**
   The same in terms of `query`: removed addresses fail; every other address keeps its rights, and its
   target up to the leaf's `SplitShift`.
   */
  lemma UnmapsPartTranslates(t: seq<Slot>, v: nat, end: nat, pool: seq<nat>, b: nat, e: Entry, x: nat)
    requires TableWf(t, 3) && |t| == ENTRIES && PageIs(t, b, 1, e) && Multiple(b, 1) && b + Size(1) <= CANON
    requires RangeOk(v, end) && v < end < v + Size(1) && b <= Low(v) && Low(v) + (end - v) <= b + Size(1)
    requires pool != [] && IsLeaf(e, 1) && e.frame < FRAMES
    ensures var q, q' := Query(t, x), Query(UnmapsRun(t, v, end, pool).table, x);
      if Low(v) <= Low(x) < Low(v) + (end - v) then q'.None?
      else if q.None? then q'.None?
      else
        && q'.Some? && SameRights(q'.value.1, q.value.1)
        && q'.value.0 == if b <= Low(x) < b + Size(1) then Shifted(q.value.0, x, e) else q.value.0
  {
    hide LeafAt, TableWf, Low, Multiple, UnmapsRun, Piece, Rest;
    UnmapsPart(t, v, end, pool, b, e);
    PieceTranslates(e, Low(x));
    if b <= Low(x) < b + Size(1) { assert LeafAt(t, 3, Low(x)) == Some(Hit(1, e)); }
  }

  /** The low 48 bits of target `p` of address `x` moved by the shift; the bits above come from `x` itself. */
  function Shifted(p: nat, x: nat, e: Entry): nat {
    (p - (x - Low(x)) + SplitShift(e)) % CANON + (x - Low(x))
  }

  // -------------------------------------------------------- `LARGE_PAT` at an input

  lemma {:induction false} FreshPage(l: Level, level: Level, leaf: Entry, pool: seq<nat>)
    requires level <= l && l - level <= |pool|
    ensures TableWf(Zeroed(), l) && NewPage(Zeroed(), l, 0, level, leaf, pool).error.None?
    ensures NewPage(Zeroed(), l, 0, level, leaf, pool).pool == pool[l - level..]
    decreases l
  {
    if l == level {
    } else {
      FreshPage(l - 1, level, leaf, pool[1..]);
    }
  }

  /** A 4 KiB page mapped at frame 0 with `LARGE_PAT` translates to frame 1. */
  lemma LargePatMoves(attr: Attr, pool: seq<nat>)
    requires attr.largePat && |pool| >= 3
    ensures TableWf(Zeroed(), 3)
    ensures var m := MapsRun(Zeroed(), 0, PAGE, 0, attr, pool);
      m.error.None? && Query(m.table, 0).Some? && Query(m.table, 0).value.0 == PAGE
  {
    OnePage(0, attr, pool);
    EntryRoundTrip(0, attr, 0);
  }

  /** A 2 MiB page mapped at frame 0 with `LARGE_PAT` translates as asked until its first 4 KiB are unmapped. */
  lemma LargePatSplits(attr: Attr, pool: seq<nat>)
    requires attr.largePat && |pool| >= 3
    ensures TableWf(Zeroed(), 3)
    ensures var m := MapsRun(Zeroed(), 0, Size(1), 0, attr, pool);
      var u := UnmapsRun(m.table, 0, PAGE, m.pool);
      && m.error.None?
      && Query(m.table, PAGE).Some? && Query(m.table, PAGE).value.0 == PAGE
      && Query(u.table, PAGE).Some? && Query(u.table, PAGE).value.0 == 2 * PAGE
  {
    hide LeafAt, TableWf, MapsRun, UnmapsRun, Rest;
    OnePage(1, attr, pool);
    var m, e := MapsRun(Zeroed(), 0, Size(1), 0, attr, pool), LeafFor(0, attr, 1);
    assert e.frame == 1 && IsLeaf(e, 1);
    assert LeafAt(m.table, 3, PAGE) == Some(Hit(1, e));
    assert Rest(1, PAGE) == PAGE by { RestInPage(1, 0, PAGE); }
    UnmapsPartTranslates(m.table, 0, PAGE, m.pool, 0, e, PAGE);
  }

  /** A range that is one page is mapped in one round. */
  lemma OneRound(t: seq<Slot>, l: Level, p: nat, attr: Attr, pool: seq<nat>)
    requires TableWf(t, 3) && |t| == ENTRIES && l <= 2
    requires PageAligned(p) && PageRange(0, Size(l)) && FitAll(0, Size(l), p) == l
    ensures var r := NewPage(t, 3, 0, l, LeafFor(p, attr, l), pool);
      r.error.None? ==> MapsRun(t, 0, Size(l), p, attr, pool) == Progress(r.table, r.pool, Size(l), None)
  {
    hide NewPage, TableWf, FitAll;
    FirstPage(0, Size(l), p);
    var leaf := LeafFor(p, attr, l);
    NewPageWf(t, 3, 0, l, leaf, pool);
    var r := NewPage(t, 3, 0, l, leaf, pool);
    if r.error.None? {
      assert MapsRun(r.table, Size(l), Size(l), p + Size(l), attr, r.pool) == Progress(r.table, r.pool, Size(l), None);
    }
  }

  lemma WholePage(l: Level)
    requires l <= 2
    ensures PageAligned(0) && PageRange(0, Size(l)) && FitAll(0, Size(l), 0) == l
  {
    match l
    case 0 =>
    case 1 =>
    case 2 =>
  }

  lemma OnePage(l: Level, attr: Attr, pool: seq<nat>)
    requires l <= 2 && |pool| >= 3
    ensures TableWf(Zeroed(), 3)
    ensures var m := MapsRun(Zeroed(), 0, Size(l), 0, attr, pool);
      m.error.None? && m.pool == pool[3 - l..] && PageIs(m.table, 0, l, LeafFor(0, attr, l))
  {
    var leaf := LeafFor(0, attr, l);
    FreshPage(3, l, leaf, pool);
    WholePage(l);
    assert Multiple(0, l);
    hide NewPage, TableWf, LeafAt, MapsRun, FitAll, LeafFor, Multiple;
    OneRound(Zeroed(), l, 0, attr, pool);
    var r := NewPage(Zeroed(), 3, 0, l, leaf, pool);
    forall w | 0 <= w < Size(l) && w < CANON
      ensures LeafAt(r.table, 3, w) == Some(Hit(l, leaf))
    {
      NewPageLookup(Zeroed(), 3, 0, l, leaf, pool, w);
    }
  }

  /** With no page to split into, dropping one 4 KiB page loses the translation of the whole leaf. */
  lemma {:induction false} SplitWithoutPage(t: seq<Slot>, l: Level, o: nat, level: Level, w: nat)
    requires TableWf(t, l) && o < Cover(l) && w < Cover(l) && level < l && Multiple(o, level)
    requires LeafAt(t, l, o).Some? && LeafAt(t, l, o).value.level == level + 1 && SamePage(level + 1, o, w)
    ensures var r := DropPage(t, l, o, level, []);
      r.error == Some(OutOfMemory) && LeafAt(r.table, l, w).None?
    decreases l
  {
    hide Multiple, Size, Cover;
    var i := Index(l, o);
    assert SlotWf(t[i], l);
    InsideSlot(l, level, o, w);
    Sizes(l);
    LevelBelow(t, l, o);
    if l == level + 1 {
      UpdateHit(t, l, i, Absent, w);
    } else {
      SamePageBelow(l, level + 1, o, w);
      SplitWithoutPage(t[i].table, l - 1, Rest(l, o), level, Rest(l, w));
      PruneHit(t, l, i, t[i].page, DropPage(t[i].table, l - 1, Rest(l, o), level, []), w);
    }
  }
}
