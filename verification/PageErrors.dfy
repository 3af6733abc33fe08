/**
 When mapping and unmapping fail, and what they leave then: a mapped address is never mapped over, an
 address that is not mapped is not unmapped, and the rest is a matter of how many pages tables need.
 */
module PageErrors {
  import opened Types
  import opened PageEntry
  import opened PageTree
  import opened PagePlan
  import opened Paging
  import opened PageSplit

  /** The offset is mapped by a page at least as large as one of the level. */
  ghost predicate Taken(t: seq<Slot>, l: Level, o: nat, level: Level)
    requires |t| == ENTRIES && o < Cover(l)
  {
    LeafAt(t, l, o).Some? && LeafAt(t, l, o).value.level >= level
  }

  /** How many tables are missing on the way down to the level. */
  ghost function Missing(t: seq<Slot>, l: Level, o: nat, level: Level): nat
    requires TableWf(t, l) && o < Cover(l) && level <= l
    decreases l
  {
    var i := Index(l, o);
    assert SlotWf(t[i], l);
    if l == level then 0
    else
      match t[i]
      case Absent => l - level
      case Leaf(_) => 0
      case Next(_, s) => Missing(s, l - 1, Rest(l, o), level)
  }

  lemma {:induction false} FreshTables(l: Level, o: nat, level: Level)
    requires o < Cover(l) && level <= l
    ensures TableWf(Zeroed(), l) && Missing(Zeroed(), l, o, level) == l - level && LeafAt(Zeroed(), l, o).None?
  {
  }

  /**
   `new_page` fails exactly when the address is taken, or else when a page for a table is missing; what
   is taken stays as it was, and a failure changes no lookup.
   */
  lemma {:induction false} NewPageExact(t: seq<Slot>, l: Level, o: nat, level: Level, leaf: Entry, pool: seq<nat>)
    requires TableWf(t, l) && o < Cover(l) && level <= l
    ensures var r := NewPage(t, l, o, level, leaf, pool); var m := Missing(t, l, o, level);
      && r.error == (if Taken(t, l, o, level) then Some(EntryExistent(true))
                     else if |pool| < m then Some(OutOfMemory) else None)
      && (Taken(t, l, o, level) ==> r.table == t && r.pool == pool)
      && (!Taken(t, l, o, level) ==> r.pool == if |pool| < m then [] else pool[m..])
    decreases l
  {
    var i := Index(l, o);
    assert SlotWf(t[i], l);
    if l == level {
      if t[i].Next? && LeafAt(t, l, o).Some? { LevelBelow(t[i].table, l - 1, Rest(l, o)); }
    } else {
      match t[i]
      case Leaf(_) =>
      case Next(page, s) =>
        NewPageExact(s, l - 1, Rest(l, o), level, leaf, pool);
        assert t[i := Next(page, s)] == t;
      case Absent =>
        FreshTables(l - 1, Rest(l, o), level);
        if pool != [] { NewPageExact(Zeroed(), l - 1, Rest(l, o), level, leaf, pool[1..]); }
    }
  }

  lemma {:induction false} NewPageFails(t: seq<Slot>, l: Level, o: nat, level: Level, leaf: Entry,
                                        pool: seq<nat>, w: nat)
    requires TableWf(t, l) && o < Cover(l) && level <= l && w < Cover(l)
    requires NewPage(t, l, o, level, leaf, pool).error.Some?
    ensures LeafAt(NewPage(t, l, o, level, leaf, pool).table, l, w) == LeafAt(t, l, w)
    decreases l
  {
    hide Multiple, Size, Cover, Index, Rest;
    Sizes(l);
    var i := Index(l, o);
    assert SlotWf(t[i], l);
    if l != level && CreateTable(t[i], pool).Ok? {
      var c := CreateTable(t[i], pool).value;
      var r := NewPage(c.table, l - 1, Rest(l, o), level, leaf, c.pool);
      UpdateHit(t, l, i, Next(c.page, r.table), w);
      if Index(l, w) == i {
        ChildHit(t[i], l, pool, Rest(l, w));
        NewPageFails(c.table, l - 1, Rest(l, o), level, leaf, c.pool, Rest(l, w));
      }
    }
  }

  /**
   `drop_page` on an address that is not mapped, or only by smaller pages, fails and changes nothing; on
   a larger page it fails exactly when there are fewer pages left than levels to split.
   */
  lemma {:induction false} DropPageExact(t: seq<Slot>, l: Level, o: nat, level: Level, pool: seq<nat>)
    requires TableWf(t, l) && o < Cover(l) && level <= l
    ensures var r := DropPage(t, l, o, level, pool); var hit := LeafAt(t, l, o);
      if Taken(t, l, o, level)
      then r.error == if |pool| < hit.value.level - level then Some(OutOfMemory) else None
      else r.error == Some(EntryExistent(false)) && r.table == t && r.pool == pool
    decreases l
  {
    var i := Index(l, o);
    assert SlotWf(t[i], l);
    if l == level {
      if t[i].Next? && LeafAt(t, l, o).Some? { LevelBelow(t[i].table, l - 1, Rest(l, o)); }
    } else {
      match t[i]
      case Absent =>
      case Next(page, s) =>
        DropPageExact(s, l - 1, Rest(l, o), level, pool);
        assert t[i := Next(page, s)] == t;
      case Leaf(e) =>
        if pool != [] {
          SplitItemsWf(e, l);
          DropPageExact(SplitItems(e, l), l - 1, Rest(l, o), level, pool[1..]);
        }
    }
  }

  // ----- ranges -----

  /** The pages that `maps` goes through from `v` to `at` are not taken. */
  ghost predicate Untaken(t: seq<Slot>, v: nat, end: nat, p: nat, at: nat)
    requires |t| == ENTRIES && PageRange(v, end) && PageAligned(p)
    decreases end - v
  {
    if v >= end || v >= at then true
    else
      FirstPage(v, end, p);
      var l := FitAll(v, end, p);
      !Taken(t, 3, Low(v), l) && Untaken(t, v + Size(l), end, p + Size(l), at)
  }

  /** The page `maps` would map at `at`, one of those it goes through, is taken. */
  ghost predicate TakenAt(t: seq<Slot>, v: nat, end: nat, p: nat, at: nat)
    requires |t| == ENTRIES && PageRange(v, end) && PageAligned(p)
  {
    v <= at < end && PageAligned(at - v) && PageRange(at, end) && PageAligned(p + (at - v))
    && Taken(t, 3, Low(at), FitAll(at, end, p + (at - v)))
  }

  /** An address that is already mapped is not mapped again: the call fails at once and changes nothing. */
  lemma FirstPageTaken(t: seq<Slot>, v: nat, end: nat, p: nat, attr: Attr, pool: seq<nat>)
    requires TableWf(t, 3) && |t| == ENTRIES && PageRange(v, end) && PageAligned(p) && TakenAt(t, v, end, p, v)
    ensures MapsRun(t, v, end, p, attr, pool) == Progress(t, pool, v, Some(EntryExistent(true)))
  {
    FirstPage(v, end, p);
    var l := FitAll(v, end, p);
    LeafIsLeaf(p, attr, l);
    NewPageExact(t, 3, Low(v), l, LeafFor(p, attr, l), pool);
  }

  /** The same of the call itself: what is taken is refused, and the address space stays as it was. */
  lemma MapsRefuses(t: seq<Slot>, pool: seq<nat>, v: nat, end: nat, p: nat, attr: Attr,
                    r: Result<(), MapError>, t': seq<Slot>, pool': seq<nat>)
    requires TableWf(t, 3) && |t| == ENTRIES && PageRange(v, end) && PageAligned(p) && TakenAt(t, v, end, p, v)
    requires MapsTo(t, pool, v, end, p, attr, r, t', pool')
    ensures r == Err(Page(EntryExistent(true))) && t' == t && pool' == pool
  {
    FirstPageTaken(t, v, end, p, attr, pool);
  }

  ghost predicate SameFrom(t: seq<Slot>, t': seq<Slot>, lo: nat)
    requires |t| == |t'| == ENTRIES
  {
    forall w :: lo <= w < CANON ==> SameAt(t, t', w)
  }

  lemma {:induction false} UntakenSame(t: seq<Slot>, t': seq<Slot>, v: nat, end: nat, p: nat, at: nat)
    requires |t| == |t'| == ENTRIES && RangeOk(v, end) && PageAligned(p)
    requires v < end ==> SameFrom(t, t', Low(v))
    ensures Untaken(t, v, end, p, at) <==> Untaken(t', v, end, p, at)
    ensures TakenAt(t, v, end, p, at) <==> TakenAt(t', v, end, p, at)
    decreases end - v
  {
    hide LeafAt, FitAll, Size, PageAligned;
    if v < end {
      FirstPage(v, end, p);
      var l := FitAll(v, end, p);
      assert SameAt(t, t', Low(v));
      UntakenSame(t, t', v + Size(l), end, p + Size(l), at);
      if v <= at < end { LowLater(v, end, at); assert SameAt(t, t', Low(at)); }
    }
  }

  lemma LowLater(v: nat, end: nat, at: nat)
    requires InWindow(v, end) && v <= at < end
    ensures Low(v) <= Low(at)
  {
    LowStep(v, at - v);
  }

  /** What a call to `maps` on any range meets: a page already taken, no page for a table, or neither. */
  ghost predicate Met(t: seq<Slot>, v: nat, end: nat, p: nat, m: Progress)
    requires |t| == ENTRIES && PageRange(v, end) && PageAligned(p)
  {
    match m.error
    case None => Untaken(t, v, end, p, end)
    case Some(EntryExistent(leaf)) => leaf && Untaken(t, v, end, p, m.at) && TakenAt(t, v, end, p, m.at)
    case Some(OutOfMemory) => m.pool == [] && Untaken(t, v, end, p, m.at)
  }

  /**
   `maps` succeeds only on ranges of which no page is taken; it reports an existing entry only for a page
   that was taken before the call, the first of the range, and lack of memory only when no page is left.
   */
  lemma {:induction false} MapsErrors(t: seq<Slot>, v: nat, end: nat, p: nat, attr: Attr, pool: seq<nat>)
    requires TableWf(t, 3) && |t| == ENTRIES && RangeOk(v, end) && PageAligned(p)
    ensures Met(t, v, end, p, MapsRun(t, v, end, p, attr, pool))
    decreases end - v
  {
    hide TableWf, LeafAt, NewPage, FitAll, Low, Multiple, Missing;
    if v == end {
    } else {
      FirstPage(v, end, p);
      var l := FitAll(v, end, p);
      LeafIsLeaf(p, attr, l);
      var leaf := LeafFor(p, attr, l);
      NewPageExact(t, 3, Low(v), l, leaf, pool);
      NewPageWf(t, 3, Low(v), l, leaf, pool);
      var r := NewPage(t, 3, Low(v), l, leaf, pool);
      if r.error.None? {
        var v', p' := v + Size(l), p + Size(l);
        MapsErrors(r.table, v', end, p', attr, r.pool);
        var m := MapsRun(r.table, v', end, p', attr, r.pool);
        MapsStops(r.table, v', end, p', attr, r.pool);
        if v' < end {
          forall w | Low(v') <= w < CANON
            ensures SameAt(t, r.table, w)
          {
            NewPageLookup(t, 3, Low(v), l, leaf, pool, w);
          }
        }
        UntakenSame(t, r.table, v', end, p', m.at);
        LaterTaken(t, v, end, p, m.at);
      }
    }
  }

  lemma LaterTaken(t: seq<Slot>, v: nat, end: nat, p: nat, at: nat)
    requires |t| == ENTRIES && PageRange(v, end) && v < end && PageAligned(p)
    ensures var l := FitAll(v, end, p);
      && v + Size(l) <= end && PageRange(v + Size(l), end) && PageAligned(p + Size(l))
      && (TakenAt(t, v + Size(l), end, p + Size(l), at) ==> TakenAt(t, v, end, p, at))
      && (Untaken(t, v + Size(l), end, p + Size(l), at) && !Taken(t, 3, Low(v), l) ==> Untaken(t, v, end, p, at))
  {
    FirstPage(v, end, p);
    hide LeafAt, Low;
    var l := FitAll(v, end, p);
    SizeAligned(l);
    if TakenAt(t, v + Size(l), end, p + Size(l), at) {
      AlignedSum(at - (v + Size(l)), Size(l));
      assert p + Size(l) + (at - (v + Size(l))) == p + (at - v);
    }
  }

  /** Unmapping a range of which nothing is mapped changes nothing. */
  lemma {:induction false} UnmapsClear(t: seq<Slot>, v: nat, end: nat, pool: seq<nat>)
    requires TableWf(t, 3) && |t| == ENTRIES && RangeOk(v, end) && (v < end ==> RangeClear(t, v, end))
    ensures UnmapsRun(t, v, end, pool) == Progress(t, pool, end, None)
    decreases end - v
  {
    hide LeafAt, FitAll, DropPage, Low, Size, Multiple;
    if v == end {
    } else {
      PhysAtAligned(t, v);
      FirstPage(v, end, PhysAt(t, v));
      var l := FitAll(v, end, PhysAt(t, v));
      assert LeafAt(t, 3, Low(v)).None?;
      DropPageExact(t, 3, Low(v), l, pool);
      DropPageWf(t, 3, Low(v), l, pool);
      UnmapsClear(t, v + Size(l), end, pool);
    }
  }

  /**
   An address that is mapped is mapped over exactly when its page is smaller than the new one: then the
   table it was found through is replaced by the new page.
   */
  lemma MappedOverIff(t: seq<Slot>, o: nat, level: Level, leaf: Entry, pool: seq<nat>)
    requires TableWf(t, 3) && o < CANON && Multiple(o, level) && LeafAt(t, 3, o).Some?
    ensures var r := NewPage(t, 3, o, level, leaf, pool);
      && (r.error.None? <==> LeafAt(t, 3, o).value.level < level)
      && LeafAt(r.table, 3, o) == if r.error.None? then Some(Hit(level, leaf)) else LeafAt(t, 3, o)
  {
    hide TableWf, LeafAt, NewPage, Multiple;
    NewPageExact(t, 3, o, level, leaf, pool);
    NothingMissing(t, 3, o, level);
    if NewPage(t, 3, o, level, leaf, pool).error.None? { NewPageLookup(t, 3, o, level, leaf, pool, o); }
  }

  lemma {:induction false} NothingMissing(t: seq<Slot>, l: Level, o: nat, level: Level)
    requires TableWf(t, l) && o < Cover(l) && level <= l && LeafAt(t, l, o).Some?
    ensures Missing(t, l, o, level) == 0
    decreases l
  {
    var i := Index(l, o);
    assert SlotWf(t[i], l);
    if l == level || t[i].Leaf? {
    } else {
      NothingMissing(t[i].table, l - 1, Rest(l, o), level);
    }
  }

  // ----- at an input -----

  /** Page 0 is mapped twice: the second call fails, and the first mapping stays. */
  lemma NotMappedTwice(attr: Attr, pool: seq<nat>, p: nat, attr': Attr)
    requires |pool| >= 3 && PageAligned(p)
    ensures TableWf(Zeroed(), 3)
    ensures var m := MapsRun(Zeroed(), 0, PAGE, 0, attr, pool);
      && m.error.None?
      && MapsRun(m.table, 0, PAGE, p, attr', m.pool) == Progress(m.table, m.pool, 0, Some(EntryExistent(true)))
  {
    hide MapsRun, LeafAt, TableWf;
    OnePage(0, attr, pool);
    var m := MapsRun(Zeroed(), 0, PAGE, 0, attr, pool);
    assert LeafAt(m.table, 3, 0) == Some(Hit(0, LeafFor(0, attr, 0)));
    FirstPageTaken(m.table, 0, PAGE, p, attr', m.pool);
  }

  /** A 2 MiB page is mapped where a 4 KiB page is: the call succeeds, and address 0 has a new target. */
  lemma LargeOverSmall(attr: Attr, pool: seq<nat>, attr': Attr)
    requires |pool| >= 3 && !attr.largePat && !attr'.largePat
    ensures TableWf(Zeroed(), 3)
    ensures var m := MapsRun(Zeroed(), 0, PAGE, 0, attr, pool);
      var m' := MapsRun(m.table, 0, Size(1), Size(1), attr', m.pool);
      && m.error.None? && Query(m.table, 0).Some? && Query(m.table, 0).value.0 == 0
      && m'.error.None? && Query(m'.table, 0).Some? && Query(m'.table, 0).value.0 == Size(1)
  {
    hide MapsRun, LeafAt, TableWf, NewPage, FitAll, LeafFor, PhysOf, Low, Rest;
    OnePage(0, attr, pool);
    FirstAddress(attr, attr');
    var m := MapsRun(Zeroed(), 0, PAGE, 0, attr, pool);
    assert LeafAt(m.table, 3, 0) == Some(Hit(0, LeafFor(0, attr, 0)));
    MappedOverIff(m.table, 0, 1, LeafFor(Size(1), attr', 1), m.pool);
    OneRound(m.table, 1, Size(1), attr', m.pool);
  }

  lemma FirstAddress(attr: Attr, attr': Attr)
    requires !attr.largePat && !attr'.largePat
    ensures PhysOf(LeafFor(0, attr, 0), 0) == 0 && PhysOf(LeafFor(Size(1), attr', 1), 1) == Size(1)
    ensures FitAll(0, Size(1), Size(1)) == 1 && Low(0) == 0 && Rest(0, 0) == 0 && Rest(1, 0) == 0
  {
  }
}
