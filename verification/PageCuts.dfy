/**
 Unmapping a page out of a leaf of any larger level: the leaf is split again and again, down to the level
 of the page.  What every address of the leaf is served by afterwards, and what two splits do to the target.
 */
module PageCuts {
  import opened Types
  import opened PageEntry
  import opened PageTree
  import opened PagePlan
  import opened Paging
  import opened PageSplit
  import Bits

  /** What serves offset `w` of a level-`m` leaf `e` once the page of level `level` at `o` has been cut out. */
  ghost function Cut(e: Entry, m: Level, level: Level, o: nat, w: nat): Option<Hit>
    requires level <= m
    decreases m
  {
    if m == level then None
    else if SamePage(m - 1, o, w) then Cut(Piece(e, m, w), m - 1, level, o, w)
    else Some(Hit(m - 1, Piece(e, m, w)))
  }

  /** Seen from inside a slot, the cut is the same. */
  lemma {:induction false} CutBelow(e: Entry, m: Level, level: Level, l: Level, o: nat, w: nat)
    requires level <= m < l && o < Cover(l) && w < Cover(l) && Index(l, w) == Index(l, o)
    ensures Cut(e, m, level, Rest(l, o), Rest(l, w)) == Cut(e, m, level, o, w)
    decreases m
  {
    hide Size, Cover, Rest, Index;
    if m == level {
    } else {
      SamePageBelow(l, m - 1, o, w);
      SamePageBelow(l, m, o, w);
      CutBelow(Piece(e, m, w), m - 1, level, l, o, w);
    }
  }

  /**
   Dropping a page mapped by a leaf of its own level or any larger one, with a page for every split: the
   offsets of that leaf are served by what the cut leaves, and all others as before.
   */
  lemma {:induction false} CutDrop(t: seq<Slot>, l: Level, o: nat, level: Level, pool: seq<nat>, w: nat)
    requires TableWf(t, l) && o < Cover(l) && w < Cover(l) && level <= l
    requires LeafAt(t, l, o).Some? && level <= LeafAt(t, l, o).value.level <= level + |pool|
    ensures var r, hit := DropPage(t, l, o, level, pool), LeafAt(t, l, o).value;
      && r.error.None?
      && LeafAt(r.table, l, w)
         == if SamePage(hit.level, o, w) then Cut(hit.entry, hit.level, level, o, w) else LeafAt(t, l, w)
    decreases l
  {
    hide Size, Cover, Multiple;
    var i := Index(l, o);
    var Hit(m, e) := LeafAt(t, l, o).value;
    assert SlotWf(t[i], l);
    LevelBelow(t, l, o);
    Sizes(l);
    if l == level {
      UpdateHit(t, l, i, Absent, w);
    } else {
      var w' := if Index(l, w) == i then Rest(l, w) else Rest(l, o);
      if t[i].Leaf? {
        SplitItemsWf(e, l);
        var s := SplitItems(e, l);
        CutDrop(s, l - 1, Rest(l, o), level, pool[1..], w');
        PruneHit(t, l, i, pool[0], DropPage(s, l - 1, Rest(l, o), level, pool[1..]), w);
        if Index(l, w) == i {
          SamePageBelow(l, l - 1, o, w);
          CutBelow(Piece(e, l, w), l - 1, level, l, o, w);
        }
      } else {
        var s := t[i].table;
        LevelBelow(s, l - 1, Rest(l, o));
        CutDrop(s, l - 1, Rest(l, o), level, pool, w');
        PruneHit(t, l, i, t[i].page, DropPage(s, l - 1, Rest(l, o), level, pool), w);
        SamePageBelow(l, m, o, w);
        if Index(l, w) == i { CutBelow(e, m, level, l, o, w); }
      }
    }
  }

  // ----- two splits of one leaf -----

  /** Frames of a 1 GiB leaf: whole gigabytes, and perhaps `LARGE_PAT` in bit 12. */
  ghost predicate Gigabyte(e: Entry) { IsLeaf(e, 2) && e.frame < FRAMES && e.frame % 0x4_0000 <= 1 }

  lemma GigabyteFrames(f: nat, j: nat)
    requires f < FRAMES && f % 0x4_0000 <= 1 && j < 512
    ensures var base := f - f % 0x4_0000; var g := f + 512 * j;
      && g < FRAMES && g % 512 == f % 0x4_0000 && g - g % 512 == base + 512 * j && (g - g % 512) % 2 == 0
      && (g - g % 512 + 1) % 512 == 1 && g - g % 512 + 1 < FRAMES
  {
    var q := f / 0x4_0000;
    assert f == 0x4_0000 * q + f % 0x4_0000;
    Bits.ModUnique(f + 512 * j, 512, 512 * q + j, f % 0x4_0000);
    Bits.ModUnique(0x4_0000 * q + 512 * j + 1, 512, 512 * q + j, 1);
  }

  /**
   The 2 MiB pieces of a 1 GiB leaf keep its target and its rights, but all of them come out with `LARGE_PAT`:
   bit 7 of the leaf, which says that it is large, is taken for `PAT`.
   */
  lemma GigabytePiece(e: Entry, w: nat)
    requires Gigabyte(e)
    ensures var x := Piece(e, 2, w);
      && IsLeaf(x, 1) && x.frame < FRAMES && x.frame % 512 == 1 && AttrOf(x).largePat
      && SameRights(AttrOf(x), AttrOf(e)) && PhysOf(x, 1) + Rest(1, w) == PhysOf(e, 2) + Rest(2, w)
  {
    var j := Rest(2, w) / Size(1);
    PageNumber(w, Size(2), Size(1), 512);
    assert Rest(2, w) == j * Size(1) + Rest(1, w);
    GigabyteFrames(e.frame, j);
    var g := e.frame + 512 * j;
    var phys := PhysOf(e, 0) + j * Size(1);
    assert phys == g * PAGE && phys / PAGE == g && g % FRAMES == g;
    assert Piece(e, 2, w).frame == g - g % 512 + 1;
  }

  /**
   A 4 KiB page cut out of a 1 GiB leaf: the other 2 MiB pieces serve their addresses as the leaf did, but
   the 4 KiB pieces of the one that was split again are all off by one page.
   */
  lemma GigabyteCut(e: Entry, o: nat, w: nat)
    requires Gigabyte(e) && !SamePage(0, o, w)
    ensures var c := Cut(e, 2, 0, o, w);
      && c.Some? && SameRights(AttrOf(c.value.entry), AttrOf(e))
      && PhysOf(c.value.entry, c.value.level) + Rest(c.value.level, w)
         == (PhysOf(e, 2) + Rest(2, w) + if SamePage(1, o, w) then PAGE else 0) % CANON
  {
    GigabytePiece(e, w);
    GigabyteBelow(e, w);
    var x := Piece(e, 2, w);
    if SamePage(1, o, w) { PieceTranslates(x, w); }
    hide Piece, PhysOf, Rest, SamePage;
    assert Cut(x, 1, 0, o, w) == if SamePage(0, o, w) then None else Some(Hit(0, Piece(x, 1, w)));
  }

  lemma GigabyteBelow(e: Entry, w: nat)
    requires Gigabyte(e)
    ensures (PhysOf(e, 2) + Rest(2, w)) % CANON == PhysOf(e, 2) + Rest(2, w)
  {
    var q := e.frame / 0x4_0000;
    assert MaskFrame(e.frame, 2) == 0x4_0000 * q;
    assert 0x4_0000 * q + 0x4_0000 <= FRAMES;
    Bits.ModUnique(PhysOf(e, 2) + Rest(2, w), CANON, 0, PhysOf(e, 2) + Rest(2, w));
  }

  /** At an input: 1 GiB mapped at 0 translates as asked until its first 4 KiB are unmapped. */
  lemma DoubleSplitMoves(attr: Attr, pool: seq<nat>)
    requires |pool| >= 3
    ensures TableWf(Zeroed(), 3)
    ensures var m := MapsRun(Zeroed(), 0, Size(2), 0, attr, pool);
      var u := UnmapsRun(m.table, 0, PAGE, m.pool);
      && m.error.None?
      && Query(m.table, PAGE).Some? && Query(m.table, PAGE).value.0 == PAGE
      && Query(u.table, PAGE).Some? && Query(u.table, PAGE).value.0 == 2 * PAGE
  {
    hide MapsRun, UnmapsRun, TableWf, LeafAt, DropPage, Cut, Rest, PhysOf, SamePage, Low, LeafFor, Gigabyte, FitAll;
    OnePage(2, attr, pool);
    SecondPage(attr);
    var e := LeafFor(0, attr, 2);
    var m := MapsRun(Zeroed(), 0, Size(2), 0, attr, pool);
    assert LeafAt(m.table, 3, 0) == Some(Hit(2, e)) && LeafAt(m.table, 3, PAGE) == Some(Hit(2, e));
    UnmapsOne(m.table, m.pool);
    CutDrop(m.table, 3, 0, 0, m.pool, PAGE);
    GigabyteCut(e, 0, PAGE);
  }

  lemma SecondPage(attr: Attr)
    ensures Gigabyte(LeafFor(0, attr, 2)) && PhysOf(LeafFor(0, attr, 2), 2) == 0
    ensures SamePage(2, 0, PAGE) && SamePage(1, 0, PAGE) && !SamePage(0, 0, PAGE)
    ensures Low(PAGE) == PAGE && Rest(2, PAGE) == PAGE
  {
  }

  lemma UnmapsOne(t: seq<Slot>, pool: seq<nat>)
    requires TableWf(t, 3) && |t| == ENTRIES
    ensures UnmapsRun(t, 0, PAGE, pool).table == DropPage(t, 3, 0, 0, pool).table
  {
    hide TableWf, DropPage, PhysAt;
    PhysAtAligned(t, 0);
    ShortRange(0, PAGE, PhysAt(t, 0));
    DropPageWf(t, 3, 0, 0, pool);
  }
}
