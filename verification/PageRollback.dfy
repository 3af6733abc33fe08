/**
 What a failed `maps` leaves.  It unmaps the part it had mapped, but `unmaps` chooses the levels anew, from
 the length of that part.  The rollback works exactly when this gives the levels that were used; where it
 gives a larger one, everything from there on stays mapped.
 */
module PageRollback {
  import opened Types
  import opened PageEntry
  import opened PageTree
  import opened PagePlan
  import opened Paging
  import opened PageSplit
  import opened PageErrors
  import Bits

  /** The pages that `maps` goes through from `v` up to `at` are mapped. */
  ghost predicate Laid(t: seq<Slot>, v: nat, end: nat, p: nat, attr: Attr, at: nat)
    requires |t| == ENTRIES && PageRange(v, end) && PageAligned(p)
    decreases end - v
  {
    if v >= at || v >= end then v == at
    else
      FirstPage(v, end, p);
      var l := FitAll(v, end, p);
      && v + Size(l) <= at && PageIs(t, Low(v), l, LeafFor(p, attr, l))
      && Laid(t, v + Size(l), end, p + Size(l), attr, at)
  }

  /** The two trees map the offsets of `[v, at)` alike. */
  ghost predicate SameIn(t: seq<Slot>, t': seq<Slot>, lo: nat, hi: nat)
    requires |t| == |t'| == ENTRIES
  {
    forall w :: lo <= w < hi && w < CANON ==> SameAt(t, t', w)
  }

  lemma {:induction false} LaidFrame(t: seq<Slot>, t': seq<Slot>, v: nat, end: nat, p: nat, attr: Attr, at: nat)
    requires |t| == |t'| == ENTRIES && RangeOk(v, end) && PageAligned(p) && v <= at <= end
    requires Laid(t, v, end, p, attr, at) && (v < at ==> SameIn(t, t', Low(v), Low(v) + (at - v)))
    ensures Laid(t', v, end, p, attr, at)
    decreases end - v
  {
    hide LeafAt, FitAll, Low, LeafFor, PageAligned;
    if v < at {
      FirstPage(v, end, p);
      var l := FitAll(v, end, p);
      forall w | Low(v) <= w < Low(v) + Size(l) && w < CANON
        ensures LeafAt(t', 3, w) == Some(Hit(l, LeafFor(p, attr, l)))
      {
        assert SameAt(t, t', w);
      }
      LaidFrame(t, t', v + Size(l), end, p + Size(l), attr, at);
    }
  }

  /** However `maps` ends, the pages up to where it stopped are mapped, and nothing else has changed. */
  lemma {:induction false} MapsLays(t: seq<Slot>, v: nat, end: nat, p: nat, attr: Attr, pool: seq<nat>)
    requires TableWf(t, 3) && |t| == ENTRIES && RangeOk(v, end) && PageAligned(p)
    ensures var m := MapsRun(t, v, end, p, attr, pool);
      && v <= m.at <= end && Laid(m.table, v, end, p, attr, m.at)
      && forall w :: 0 <= w < CANON && !(Low(v) <= w < Low(v) + (m.at - v)) ==> SameAt(t, m.table, w)
    decreases end - v
  {
    hide TableWf, LeafAt, NewPage, FitAll, Low, Multiple, PageAligned;
    if v == end {
    } else {
      FirstPage(v, end, p);
      var l := FitAll(v, end, p);
      LeafIsLeaf(p, attr, l);
      var leaf := LeafFor(p, attr, l);
      NewPageWf(t, 3, Low(v), l, leaf, pool);
      var r := NewPage(t, 3, Low(v), l, leaf, pool);
      var m := MapsRun(t, v, end, p, attr, pool);
      if r.error.Some? {
        forall w | 0 <= w < CANON
          ensures SameAt(t, r.table, w)
        {
          NewPageFails(t, 3, Low(v), l, leaf, pool, w);
        }
      } else {
        MapsLays(r.table, v + Size(l), end, p + Size(l), attr, r.pool);
        LaysFirst(t, r.table, m.table, v, end, p, attr, pool, m.at);
      }
    }
  }

  lemma LaysFirst(t: seq<Slot>, t1: seq<Slot>, t2: seq<Slot>, v: nat, end: nat, p: nat, attr: Attr,
                  pool: seq<nat>, at: nat)
    requires TableWf(t, 3) && |t| == |t1| == |t2| == ENTRIES && RangeOk(v, end) && v < end && PageAligned(p)
    requires var r := NewPage(t, 3, Low(v), FitAll(v, end, p), LeafFor(p, attr, FitAll(v, end, p)), pool);
      r.error.None? && t1 == r.table
    requires var v', p' := v + Size(FitAll(v, end, p)), p + Size(FitAll(v, end, p));
      && v' <= at <= end && PageRange(v', end) && PageAligned(p') && Laid(t2, v', end, p', attr, at)
      && forall w :: 0 <= w < CANON && !(Low(v') <= w < Low(v') + (at - v')) ==> SameAt(t1, t2, w)
    ensures Laid(t2, v, end, p, attr, at)
    ensures forall w :: 0 <= w < CANON && !(Low(v) <= w < Low(v) + (at - v)) ==> SameAt(t, t2, w)
  {
    hide TableWf, LeafAt, NewPage, FitAll, Low, Multiple, PageAligned;
    FirstPage(v, end, p);
    var l := FitAll(v, end, p);
    var leaf := LeafFor(p, attr, l);
    if v + Size(l) < end { assert Low(v + Size(l)) == Low(v) + Size(l); }
    forall w | 0 <= w < CANON && !(Low(v) + Size(l) <= w < Low(v) + (at - v))
      ensures LeafAt(t2, 3, w) == if Low(v) <= w < Low(v) + Size(l) then Some(Hit(l, leaf)) else LeafAt(t, 3, w)
    {
      NewPageLookup(t, 3, Low(v), l, leaf, pool, w);
      assert SameAt(t1, t2, w);
    }
  }

  // ----- arithmetic of levels -----

  lemma MultipleSum(a: nat, b: nat, l: Level)
    requires Multiple(a, l) && Multiple(b, l)
    ensures Multiple(a + b, l) && (a >= b ==> Multiple(a - b, l))
  {
    MultipleIsMod(a, l);
    MultipleIsMod(b, l);
    MultipleIsMod(a + b, l);
    SumMod(a, b, Size(l));
    if a >= b { MultipleIsMod(a - b, l); }
  }

  lemma SumMod(a: nat, b: nat, d: nat)
    requires d > 0 && a % d == 0 && b % d == 0
    ensures (a + b) % d == 0 && (a >= b ==> (a - b) % d == 0)
  {
    var x, y := a / d, b / d;
    assert a == d * x && b == d * y;
    assert d * (x + y) == a + b && d * (x - y) == a - b;
    Bits.ModUnique(a + b, d, x + y, 0);
    if a >= b { Bits.ModUnique(a - b, d, x - y, 0); }
  }

  lemma SizeMultiple(d: Level, m: Level)
    requires m <= d
    ensures Multiple(Size(d), m)
  {
    assert Multiple(Size(d), d) by { match d case 0 => case 1 => case 2 => case 3 => }
    MultipleDown(Size(d), d, m);
  }

  /** A part made of whole pages, the first of them of level `l`, is a multiple of that level. */
  lemma {:induction false} LaidMultiple(t: seq<Slot>, v: nat, end: nat, p: nat, attr: Attr, at: nat)
    requires |t| == ENTRIES && PageRange(v, end) && PageAligned(p) && v < at <= end && Laid(t, v, end, p, attr, at)
    ensures Multiple(at - v, FitAll(v, end, p))
    decreases end - v
  {
    hide FitAll, Multiple, Size, Low, PageIs, PageAligned;
    FirstPage(v, end, p);
    var l := FitAll(v, end, p);
    var v', p' := v + Size(l), p + Size(l);
    SizeMultiple(l, l);
    if v' == at {
    } else {
      LaidMultiple(t, v', end, p', attr, at);
      NextLevel(v, end, p);
      MultipleDown(at - v', FitAll(v', end, p'), l);
      MultipleSum(at - v', Size(l), l);
      assert at - v == at - v' + Size(l);
    }
  }

  /** If only the length keeps the pages at `v` from being larger, it does so for the rest of the range. */
  lemma NoLarger(v: nat, end: nat, p: nat, l: Level)
    requires PageRange(v, end) && PageAligned(p) && l < 2 && !Multiple(end, l + 1)
    ensures FitAll(v, end, p) <= l
  {
    hide Multiple, Size, PageAligned;
    var m := FitAll(v, end, p);
    if m > l {
      MultipleDown(v, m, l + 1);
      MultipleDown(end - v, m, l + 1);
      MultipleSum(end - v, v, l + 1);
    }
  }

  // ----- what the rollback reads and does -----

  /** Every page of level `l` from `v` up to `at` is mapped by a leaf of that level. */
  ghost predicate Even(t: seq<Slot>, v: nat, at: nat, p: nat, attr: Attr, l: Level)
    requires |t| == ENTRIES
  {
    forall x :: v <= x < at && Steps(x, v, l) ==> LeafAt(t, 3, Low(x)) == Some(Hit(l, LeafFor(p + (x - v), attr, l)))
  }

  predicate Steps(x: nat, v: nat, l: Level) { x >= v && Multiple(x - v, l) }

  lemma {:induction false} LaidEven(t: seq<Slot>, v: nat, end: nat, p: nat, attr: Attr, at: nat, l: Level)
    requires |t| == ENTRIES && RangeOk(v, end) && PageAligned(p) && v <= at <= end && Laid(t, v, end, p, attr, at)
    requires l < 2 && !Multiple(end, l + 1) && (v < at ==> FitAll(v, end, p) == l)
    ensures Even(t, v, at, p, attr, l)
    decreases end - v
  {
    hide FitAll, Multiple, LeafAt, LeafFor, PageAligned, Low;
    if v < at {
      FirstPage(v, end, p);
      var v', p' := v + Size(l), p + Size(l);
      if v' < at {
        NoLarger(v', end, p', l);
        NextLevel(v, end, p);
      }
      LaidEven(t, v', end, p', attr, at, l);
      forall x | v <= x < at && Steps(x, v, l)
        ensures LeafAt(t, 3, Low(x)) == Some(Hit(l, LeafFor(p + (x - v), attr, l)))
      {
        if x > v {
          SizeMultiple(l, l);
          AtLeastOne(x - v, l);
          MultipleSum(x - v, Size(l), l);
          assert x - v - Size(l) == x - v' && p' + (x - v') == p + (x - v);
          assert Steps(x, v', l);
        }
      }
    }
  }

  lemma AtLeastOne(n: nat, l: Level)
    requires Multiple(n, l) && n > 0
    ensures n >= Size(l)
  {
    MultipleIsMod(n, l);
    LengthFits(n, Size(l));
  }

  /** The address `unmaps` reads back at a page, up to the bits above 2^48. */
  lemma ReadBack(t: seq<Slot>, v: nat, p: nat, attr: Attr, l: Level)
    requires |t| == ENTRIES && PageAligned(v) && Multiple(v, l) && Multiple(p, l) && p < CANON
    requires LeafAt(t, 3, Low(v)) == Some(Hit(l, LeafFor(p, attr, l)))
    ensures PageAligned(PhysAt(t, v)) && Fit(PhysAt(t, v)) == Fit(p + PatShift(p, attr, l))
  {
    PhysAtAligned(t, v);
    LowMultiple(v, l);
    EntryRoundTrip(p, attr, l);
    hide LeafAt, Multiple;
    RestInPage(l, Low(v), Low(v));
    HighBits(v, p + PatShift(p, attr, l), PhysAt(t, v));
  }

  lemma PageBefore(p: nat)
    requires PageAligned(p) && (p / PAGE) % 2 == 1
    ensures p >= PAGE && PageAligned(p - PAGE) && ((p - PAGE) / PAGE) % 2 == 0
  {
    var f := p / PAGE;
    assert p == PAGE * f && p - PAGE == PAGE * (f - 1);
  }

  /** With `LARGE_PAT` a 4 KiB page is read back at an odd frame, so never taken for a larger one. */
  lemma PatIsSmall(p: nat, attr: Attr)
    requires PageAligned(p) && attr.largePat
    ensures Fit(p + PatShift(p, attr, 0)) == Some(0)
  {
    if (p / PAGE) % 2 == 0 {
      OddFrame(p);
    } else {
      PageBefore(p);
      OddFrame(p - PAGE);
    }
  }

  /** The level `unmaps` of `[v, at)` chooses for a page that `maps` mapped at level `l`. */
  lemma Derived(t: seq<Slot>, v: nat, at: nat, p: nat, attr: Attr, l: Level)
    requires |t| == ENTRIES && PageRange(v, at) && PageAligned(p) && Multiple(v, l) && Multiple(p, l) && p < CANON
    requires LeafAt(t, 3, Low(v)) == Some(Hit(l, LeafFor(p, attr, l)))
    ensures PageAligned(PhysAt(t, v))
    ensures FitAll(v, at, PhysAt(t, v)) == if l == 0 && attr.largePat then 0 else FitAll(v, at, p)
  {
    hide LeafAt, LeafFor, PhysAt;
    ReadBack(t, v, p, attr, l);
    if l == 0 && attr.largePat { PatIsSmall(p, attr); }
  }

  /** Pages smaller than those `unmaps` asks for are all left alone. */
  lemma {:induction false} Stuck(t: seq<Slot>, y: nat, v: nat, at: nat, p: nat, attr: Attr, l: Level, pool: seq<nat>)
    requires TableWf(t, 3) && |t| == ENTRIES && RangeOk(y, at) && v <= y <= at && l < 2 && p + (at - v) <= CANON
    requires Multiple(v, l + 1) && Multiple(p, l + 1) && Multiple(at - v, l + 1) && Steps(y, v, l + 1)
    requires Even(t, v, at, p, attr, l) && !(l == 0 && attr.largePat)
    ensures UnmapsRun(t, y, at, pool) == Progress(t, pool, at, None)
    decreases at - y
  {
    hide LeafAt, TableWf, FitAll, Multiple, DropPage, PhysAt, LeafFor;
    if y == at {
    } else {
      var x := p + (y - v);
      StuckPage(t, y, v, at, p, attr, l);
      FirstPage(y, at, PhysAt(t, y));
      var d := FitAll(y, at, PhysAt(t, y));
      DropPageExact(t, 3, Low(y), d, pool);
      DropPageWf(t, 3, Low(y), d, pool);
      SizeMultiple(d, l + 1);
      MultipleSum(y - v, Size(d), l + 1);
      assert y + Size(d) - v == y - v + Size(d);
      Stuck(t, y + Size(d), v, at, p, attr, l, pool);
    }
  }

  lemma StuckPage(t: seq<Slot>, y: nat, v: nat, at: nat, p: nat, attr: Attr, l: Level)
    requires |t| == ENTRIES && PageRange(y, at) && v <= y < at && l < 2 && p + (at - v) <= CANON
    requires Multiple(v, l + 1) && Multiple(p, l + 1) && Multiple(at - v, l + 1) && Steps(y, v, l + 1)
    requires Even(t, v, at, p, attr, l) && !(l == 0 && attr.largePat)
    ensures PageAligned(PhysAt(t, y)) && FitAll(y, at, PhysAt(t, y)) > l
    ensures LeafAt(t, 3, Low(y)).Some? && LeafAt(t, 3, Low(y)).value.level == l
  {
    hide LeafAt, Multiple, PhysAt, LeafFor, FitAll;
    var x := p + (y - v);
    MultipleDown(y - v, l + 1, l);
    assert LeafAt(t, 3, Low(y)) == Some(Hit(l, LeafFor(x, attr, l)));
    MultipleSum(v, y - v, l + 1);
    MultipleSum(p, y - v, l + 1);
    MultipleSum(at - v, y - v, l + 1);
    assert at - v - (y - v) == at - y && v + (y - v) == y;
    MultipleDown(y, l + 1, l);
    MultipleDown(x, l + 1, l);
    MultipleDown(x, l + 1, 0);
    assert PageAligned(x) by { AlignedIs(x); }
    Derived(t, y, at, x, attr, l);
    FitAllLargest(y, at, x, l + 1);
  }

  lemma AlignedIs(x: nat)
    ensures PageAligned(x) <==> Multiple(x, 0)
  {
  }

  // ----- the theorem -----

  /** Re-deriving the levels from `[v, at)` gives those that `maps` used for the pages of `[v, end)` up to `at`. */
  ghost predicate SameLevels(v: nat, end: nat, p: nat, attr: Attr, at: nat)
    requires PageRange(v, end) && PageAligned(p)
    decreases end - v
  {
    if v >= at || v >= end then true
    else
      FirstPage(v, end, p);
      var l := FitAll(v, end, p);
      && PageAligned(at - v) && (FitAll(v, at, p) == l || (l == 0 && attr.largePat))
      && SameLevels(v + Size(l), end, p + Size(l), attr, at)
  }

  /** `[v, at)` is unmapped and everything else as it was. */
  ghost predicate Undone(t: seq<Slot>, u: seq<Slot>, v: nat, at: nat)
    requires |t| == |u| == ENTRIES && v <= at
  {
    forall w :: 0 <= w < CANON ==>
      LeafAt(u, 3, w) == if v < at && Low(v) <= w < Low(v) + (at - v) then None else LeafAt(t, 3, w)
  }

  /** Some address of `[v, at)` is still mapped. */
  ghost predicate LeftMapped(u: seq<Slot>, v: nat, at: nat, w: nat)
    requires |u| == ENTRIES && v <= at
  {
    v < at && Low(v) <= w < Low(v) + (at - v) && w < CANON && LeafAt(u, 3, w).Some?
  }

  lemma LaidRange(t: seq<Slot>, v: nat, end: nat, p: nat, attr: Attr, at: nat)
    requires |t| == ENTRIES && RangeOk(v, end) && PageAligned(p) && v <= at <= end && Laid(t, v, end, p, attr, at)
    ensures RangeOk(v, at)
  {
    if v < at {
      LaidMultiple(t, v, end, p, attr, at);
      MultipleDown(at - v, FitAll(v, end, p), 0);
    }
  }

  lemma {:induction false} Rolls(t: seq<Slot>, v: nat, end: nat, p: nat, attr: Attr, at: nat, pool: seq<nat>)
    returns (w: nat)
    requires TableWf(t, 3) && |t| == ENTRIES && RangeOk(v, end) && PageAligned(p) && v <= at <= end
    requires p + (end - v) <= CANON && Laid(t, v, end, p, attr, at)
    ensures RangeOk(v, at)
    ensures var u := UnmapsRun(t, v, at, pool).table;
      if SameLevels(v, end, p, attr, at) then Undone(t, u, v, at) else LeftMapped(u, v, at, w)
    decreases end - v
  {
    hide TableWf, LeafAt, DropPage, FitAll, Multiple, PhysAt, LeafFor, PageAligned;
    w := Low(v);
    LaidRange(t, v, end, p, attr, at);
    if v == at {
    } else {
      FirstPage(v, end, p);
      var l := FitAll(v, end, p);
      assert LeafAt(t, 3, Low(v)) == Some(Hit(l, LeafFor(p, attr, l)));
      Derived(t, v, at, p, attr, l);
      var d := FitAll(v, at, PhysAt(t, v));
      if d == l {
        w := RollsOn(t, v, end, p, attr, at, pool);
      } else {
        RollsNot(t, v, end, p, attr, at, pool);
      }
    }
  }

  lemma {:induction false} RollsOn(t: seq<Slot>, v: nat, end: nat, p: nat, attr: Attr, at: nat, pool: seq<nat>)
    returns (w: nat)
    requires TableWf(t, 3) && |t| == ENTRIES && RangeOk(v, end) && PageAligned(p) && v < at <= end && RangeOk(v, at)
    requires p + (end - v) <= CANON && Laid(t, v, end, p, attr, at)
    requires PageAligned(PhysAt(t, v)) && FitAll(v, at, PhysAt(t, v)) == FitAll(v, end, p)
    requires FitAll(v, at, p) == FitAll(v, end, p) || (FitAll(v, end, p) == 0 && attr.largePat)
    ensures var u := UnmapsRun(t, v, at, pool).table;
      if SameLevels(v, end, p, attr, at) then Undone(t, u, v, at) else LeftMapped(u, v, at, w)
    decreases end - v, 0
  {
    hide TableWf, LeafAt, DropPage, FitAll, Multiple, PhysAt, LeafFor, PageAligned, Low;
    FirstPage(v, end, p);
    var l := FitAll(v, end, p);
    var v', p' := v + Size(l), p + Size(l);
    assert LeafAt(t, 3, Low(v)) == Some(Hit(l, LeafFor(p, attr, l)));
    DropPageWf(t, 3, Low(v), l, pool);
    var r := DropPage(t, 3, Low(v), l, pool);
    forall x | 0 <= x < CANON
      ensures LeafAt(r.table, 3, x) == if Low(v) <= x < Low(v) + Size(l) then None else LeafAt(t, 3, x)
    {
      DropPageLookup(t, 3, Low(v), l, pool, x);
    }
    LaidFrame(t, r.table, v', end, p', attr, at);
    w := Rolls(r.table, v', end, p', attr, at, r.pool);
    FirstPage(v, at, PhysAt(t, v));
    assert UnmapsRun(t, v, at, pool) == UnmapsRun(r.table, v', at, r.pool);
  }

  lemma RollsNot(t: seq<Slot>, v: nat, end: nat, p: nat, attr: Attr, at: nat, pool: seq<nat>)
    requires TableWf(t, 3) && |t| == ENTRIES && RangeOk(v, end) && PageAligned(p) && v < at <= end && RangeOk(v, at)
    requires p + (end - v) <= CANON && Laid(t, v, end, p, attr, at)
    requires var l := FitAll(v, end, p); FitAll(v, at, p) != l && !(l == 0 && attr.largePat)
    ensures !SameLevels(v, end, p, attr, at)
    ensures UnmapsRun(t, v, at, pool) == Progress(t, pool, at, None) && LeftMapped(t, v, at, Low(v))
  {
    hide TableWf, LeafAt, DropPage, FitAll, Multiple, PhysAt, LeafFor, PageAligned;
    FirstPage(v, end, p);
    var l, d := FitAll(v, end, p), FitAll(v, at, p);
    assert LeafAt(t, 3, Low(v)) == Some(Hit(l, LeafFor(p, attr, l)));
    LaidMultiple(t, v, end, p, attr, at);
    FitAllLargest(v, at, p, l);
    MultipleDown(v, d, l + 1);
    MultipleDown(p, d, l + 1);
    MultipleDown(at - v, d, l + 1);
    LengthLimits(v, end, p, l);
    LaidEven(t, v, end, p, attr, at, l);
    assert Steps(v, v, l + 1) by { ZeroSteps(v, l + 1); }
    Stuck(t, v, v, at, p, attr, l, pool);
  }

  lemma ZeroSteps(v: nat, l: Level)
    ensures Steps(v, v, l)
  {
  }

  /** Where start and target would allow a larger page, the end of the range does not. */
  lemma LengthLimits(v: nat, end: nat, p: nat, l: Level)
    requires PageRange(v, end) && PageAligned(p) && FitAll(v, end, p) == l < 2
    requires Multiple(v, l + 1) && Multiple(p, l + 1)
    ensures !Multiple(end, l + 1)
  {
    hide FitAll, Multiple, PageAligned;
    if Multiple(end, l + 1) {
      MultipleSum(end, v, l + 1);
      FitAllLargest(v, end, p, l + 1);
    }
  }

  /**
   After `maps` has failed, every address translates as before the call if and only if the levels chosen
   again for the part already mapped are those that were used; otherwise some of it stays mapped. The part
   was not mapped before, and the address space may keep empty tables either way.
   */
  lemma RollbackIff(t: seq<Slot>, pool: seq<nat>, v: nat, end: nat, p: nat, attr: Attr,
                    r: Result<(), MapError>, t': seq<Slot>, pool': seq<nat>)
    requires TableWf(t, 3) && |t| == |t'| == ENTRIES && RangeOk(v, end) && PageAligned(p) && p + (end - v) <= CANON
    requires MapsTo(t, pool, v, end, p, attr, r, t', pool') && r.Err?
    requires var at := MapsRun(t, v, end, p, attr, pool).at; v < at ==> v <= at && RangeClear(t, v, at)
    ensures (forall w :: 0 <= w < CANON ==> SameAt(t, t', w))
      <==> SameLevels(v, end, p, attr, MapsRun(t, v, end, p, attr, pool).at)
  {
    hide TableWf, LeafAt, FitAll, Laid, PageAligned, MapsRun, UnmapsRun, Low;
    var m := MapsRun(t, v, end, p, attr, pool);
    MapsLays(t, v, end, p, attr, pool);
    MapsRunWf(t, v, end, p, attr, pool);
    var w := Rolls(m.table, v, end, p, attr, m.at, m.pool);
    if SameLevels(v, end, p, attr, m.at) {
      forall x | 0 <= x < CANON
        ensures SameAt(t, t', x)
      {
        if v < m.at && Low(v) <= x < Low(v) + (m.at - v) {
          assert LeafAt(t, 3, x).None?;
        } else {
          assert SameAt(t, m.table, x);
        }
      }
    } else {
      assert LeafAt(t, 3, w).None? && LeafAt(t', 3, w).Some?;
      assert !SameAt(t, t', w);
    }
  }

  lemma MapsRunWf(t: seq<Slot>, v: nat, end: nat, p: nat, attr: Attr, pool: seq<nat>)
    requires TableWf(t, 3) && PageRange(v, end) && PageAligned(p)
    ensures var m := MapsRun(t, v, end, p, attr, pool); TableWf(m.table, 3) && |m.table| == ENTRIES
  {
  }

  /**
   At an input: 1 GiB and 2 MiB are to be mapped at 0, but the last 2 MiB are taken. The call fails, and its
   rollback asks for one 1 GiB page where there are 512 pages of 2 MiB: some of them stay mapped.
   */
  lemma RollbackFails(t: seq<Slot>, pool: seq<nat>, attr: Attr, r: Result<(), MapError>, t': seq<Slot>, pool': seq<nat>)
    requires TableWf(t, 3) && |t| == |t'| == ENTRIES && Clear(t, 0, Size(2)) && LeafAt(t, 3, Size(2)).Some?
    requires PageRange(0, Size(2) + Size(1)) && PageAligned(0)
    requires MapsTo(t, pool, 0, Size(2) + Size(1), 0, attr, r, t', pool') && r == Err(Page(EntryExistent(true)))
    ensures exists w :: 0 <= w < CANON && !SameAt(t, t', w)
  {
    hide TableWf, LeafAt, MapsRun, UnmapsRun, Untaken;
    var end := Size(2) + Size(1);
    assert RangeOk(0, end) && FitAll(0, end, 0) == 1 && FitAll(0, Size(2), 0) == 2;
    var m := MapsRun(t, 0, end, 0, attr, pool);
    MapsErrors(t, 0, end, 0, attr, pool);
    assert LeafAt(t, 3, m.at).Some? && m.at >= Size(2);
    MapsLays(t, 0, end, 0, attr, pool);
    LaidMultiple(m.table, 0, end, 0, attr, m.at);
    assert m.at == Size(2);
    hide Laid, MapsTo;
    RollbackIff(t, pool, 0, end, 0, attr, r, t', pool');
  }
}
