/**
 Mapping, unmapping and querying ranges.  Virtual addresses are 64-bit; the tables
 see only their low 48 bits.  The loops are modelled for every page-aligned range; what
 they achieve is stated for ranges inside one 48-bit window.
 */
module Paging {
  import opened Types
  import opened PageEntry
  import opened PageTree
  import opened PagePlan
  import Bits

  /** The low 48 bits. */
  function Low(v: nat): (o: nat)
    ensures o < CANON
  {
    v % CANON
  }

  /** `query`: only the bits above the page offset are masked off, so bits 48-63 of the address leak into the result. */
  function Query(t: seq<Slot>, v: nat): Option<(nat, Attr)>
    requires |t| == ENTRIES
  {
    match Translate(LeafAt(t, 3, Low(v)), Low(v))
    case None => None
    case Some((p, a)) => Some((p + (v - Low(v)), a))
  }

  predicate InWindow(v: nat, end: nat) { v <= end && Low(v) + (end - v) <= CANON }

  predicate PageRange(v: nat, end: nat) { v <= end && PageAligned(v) && PageAligned(end - v) }

  predicate RangeOk(v: nat, end: nat) { InWindow(v, end) && PageRange(v, end) }

  lemma LowMultiple(v: nat, l: Level)
    requires Multiple(v, l)
    ensures Multiple(Low(v), l)
  {
    MultipleIsMod(v, l);
    MultipleIsMod(Low(v), l);
    assert CANON == Size(l) * (CANON / Size(l)) by { match l case 0 => case 1 => case 2 => case 3 => }
    RestMultiple(v, CANON, Size(l), CANON / Size(l));
  }

  lemma AlignedSum(a: nat, b: nat)
    requires PageAligned(a) && PageAligned(b)
    ensures PageAligned(a + b) && (a >= b ==> PageAligned(a - b))
  {
  }

  lemma SizeAligned(l: Level)
    ensures PageAligned(Size(l))
  {
  }

  lemma LowStep(v: nat, s: nat)
    requires Low(v) + s < CANON
    ensures Low(v + s) == Low(v) + s
  {
    Bits.ModUnique(v + s, CANON, v / CANON, Low(v) + s);
  }

  /** The first page of a nonempty aligned range fits inside it, and inside one 48-bit window. */
  lemma FirstPage(v: nat, end: nat, p: nat)
    requires PageRange(v, end) && v < end && PageAligned(p)
    ensures var s := Size(FitAll(v, end, p));
      && v + s <= end && PageRange(v + s, end) && PageAligned(p + s)
      && Multiple(Low(v), FitAll(v, end, p)) && Low(v) + s <= CANON
      && (RangeOk(v, end) ==> RangeOk(v + s, end) && (v + s < end ==> Low(v + s) == Low(v) + s))
  {
    var l := FitAll(v, end, p);
    var s := Size(l);
    LowMultiple(v, l);
    LowFits(Low(v), l);
    MultipleIsMod(end - v, l);
    LengthFits(end - v, s);
    SizeAligned(l);
    AlignedSum(v, s);
    AlignedSum(p, s);
    AlignedSum(end - v, s);
    assert end - v - s == end - (v + s);
    if RangeOk(v, end) {
      if v + s < end { LowStep(v, s); } else { LastWindow(end); }
    }
  }

  lemma LowFits(o: nat, l: Level)
    requires o < CANON && Multiple(o, l)
    ensures o + Size(l) <= CANON
  {
    MultipleIsMod(o, l);
    var k := CANON / Size(l);
    assert CANON == Size(l) * k by { match l case 0 => case 1 => case 2 => case 3 => }
    NextMultiple(o, Size(l), k);
  }

  lemma NextMultiple(o: nat, d: nat, k: nat)
    requires d > 0 && o % d == 0 && o < d * k
    ensures o + d <= d * k
  {
    var q := o / d;
    assert o == d * q;
    if q + 1 <= k {
      Bits.MulLe(d, q + 1, k);
      assert d * (q + 1) == d * q + d;
    } else {
      Bits.MulLe(d, k, q);
    }
  }

  lemma LastWindow(end: nat)
    ensures InWindow(end, end)
  {
  }

  lemma LengthFits(len: nat, s: nat)
    requires s > 0 && len > 0 && len % s == 0
    ensures s <= len
  {
    if len < s { Bits.ModUnique(len, s, 0, len); }
  }

  /** The state of a run over a range: where it stopped, and why. */
  datatype Progress = Progress(table: seq<Slot>, pool: seq<nat>, at: nat, error: Option<Error>)

  /** The loop of `maps`, without the rollback. */
  function MapsRun(t: seq<Slot>, v: nat, end: nat, p: nat, attr: Attr, pool: seq<nat>): (r: Progress)
    requires TableWf(t, 3) && PageRange(v, end) && PageAligned(p)
    ensures TableWf(r.table, 3) && |r.table| == ENTRIES
    decreases end - v
  {
    if v == end then Progress(t, pool, v, None)
    else
      FirstPage(v, end, p);
      LeafIsLeaf(p, attr, FitAll(v, end, p));
      var l := FitAll(v, end, p);
      var leaf := NewEntry(p, LeafAttr(l, attr), l);
      NewPageWf(t, 3, Low(v), l, leaf, pool);
      var r := NewPage(t, 3, Low(v), l, leaf, pool);
      if r.error.Some? then Progress(r.table, r.pool, v, r.error)
      else MapsRun(r.table, v + Size(l), end, p + Size(l), attr, r.pool)
  }

  /** The loop stops at a page boundary of the range, at its end when nothing failed. */
  lemma {:induction false} MapsStops(t: seq<Slot>, v: nat, end: nat, p: nat, attr: Attr, pool: seq<nat>)
    requires TableWf(t, 3) && PageRange(v, end) && PageAligned(p)
    ensures var at := MapsRun(t, v, end, p, attr, pool).at; v <= at <= end && PageAligned(at - v)
    ensures var r := MapsRun(t, v, end, p, attr, pool); r.error.None? ==> r.at == end
    decreases end - v
  {
    hide TableWf, NewPage, FitAll, Low, Size, Multiple, NewEntry, LeafAttr;
    if v == end {
    } else {
      FirstPage(v, end, p);
      var l := FitAll(v, end, p);
      LeafIsLeaf(p, attr, l);
      var leaf := NewEntry(p, LeafAttr(l, attr), l);
      NewPageWf(t, 3, Low(v), l, leaf, pool);
      var r := NewPage(t, 3, Low(v), l, leaf, pool);
      if r.error.None? {
        MapsStops(r.table, v + Size(l), end, p + Size(l), attr, r.pool);
        SizeAligned(l);
        AlignedSum(MapsRun(r.table, v + Size(l), end, p + Size(l), attr, r.pool).at - (v + Size(l)), Size(l));
      }
    }
  }

  lemma LeafIsLeaf(p: nat, attr: Attr, l: Level)
    ensures IsLeaf(NewEntry(p, LeafAttr(l, attr), l), l)
  {
  }

  /** The physical address the loop of `unmaps` uses to choose a level. */
  function PhysAt(t: seq<Slot>, v: nat): nat
    requires |t| == ENTRIES
  {
    match Query(t, v)
    case None => 0
    case Some((p, _)) => p
  }

  lemma PhysAtAligned(t: seq<Slot>, v: nat)
    requires |t| == ENTRIES && PageAligned(v)
    ensures PageAligned(PhysAt(t, v))
  {
    var o := Low(v);
    LowMultiple(v, 0);
    LowBelow(v);
    hide LeafAt, Low, Rest, PhysOf, PageAligned;
    AlignedSum(v, o);
    if LeafAt(t, 3, o).Some? {
      var Hit(l, e) := LeafAt(t, 3, o).value;
      RestAligned(o, l);
      AlignedSum(PhysOf(e, l), Rest(l, o));
      AlignedSum(PhysOf(e, l) + Rest(l, o), v - o);
    }
  }

  lemma LowBelow(v: nat)
    ensures Low(v) <= v && (PageAligned(Low(v)) <==> Multiple(Low(v), 0)) && PageAligned(0)
  {
  }

  lemma RestAligned(o: nat, l: Level)
    requires PageAligned(o)
    ensures PageAligned(Rest(l, o))
  {
    if l > 0 {
      Ratio(l, 0);
      RestMultiple(o, Size(l), PAGE, Size(l) / PAGE);
    }
  }

  /** The loop of `unmaps`; errors of single pages are ignored. */
  function UnmapsRun(t: seq<Slot>, v: nat, end: nat, pool: seq<nat>): (r: Progress)
    requires TableWf(t, 3) && PageRange(v, end)
    ensures TableWf(r.table, 3) && r.at == end && r.error.None?
    decreases end - v
  {
    if v == end then Progress(t, pool, v, None)
    else
      PhysAtAligned(t, v);
      FirstPage(v, end, PhysAt(t, v));
      var l := FitAll(v, end, PhysAt(t, v));
      DropPageWf(t, 3, Low(v), l, pool);
      var r := DropPage(t, 3, Low(v), l, pool);
      UnmapsRun(r.table, v + Size(l), end, r.pool)
  }

  // -------------------------------------------------------------- the plan used

  /** The levels the loop of `maps` goes through. */
  function Plan(v: nat, end: nat, p: nat): seq<Level>
    requires PageRange(v, end) && PageAligned(p)
    decreases end - v
  {
    if v == end then []
    else
      FirstPage(v, end, p);
      var l := FitAll(v, end, p);
      [l] + Plan(v + Size(l), end, p + Size(l))
  }

  lemma PlanHead(v: nat, end: nat, p: nat)
    requires PageRange(v, end) && v < end && PageAligned(p)
    ensures var l := FitAll(v, end, p);
      && v + Size(l) <= end && PageRange(v + Size(l), end) && PageAligned(p + Size(l))
      && (RangeOk(v, end) ==> RangeOk(v + Size(l), end))
      && Plan(v, end, p) != [] && Plan(v, end, p)[0] == l
      && Plan(v, end, p)[1..] == Plan(v + Size(l), end, p + Size(l))
  {
    FirstPage(v, end, p);
  }

  /** The planned pages are aligned and cover the range exactly. */
  lemma {:induction false} PlanCovers(v: nat, end: nat, p: nat)
    requires RangeOk(v, end) && PageAligned(p)
    ensures PlanOk(Low(v), Plan(v, end, p)) && Len(Plan(v, end, p)) == end - v
    decreases end - v
  {
    hide Low, FitAll, Size, Multiple;
    if v == end {
    } else {
      FirstPage(v, end, p);
      PlanHead(v, end, p);
      var s := Size(FitAll(v, end, p));
      PlanCovers(v + s, end, p + s);
    }
  }

  predicate Rising(plan: seq<Level>) { forall i, j :: 0 <= i < j < |plan| ==> plan[i] <= plan[j] }

  /** The pages of a range tile it, and their levels never fall: once a larger page fits, so it goes on. */
  lemma {:induction false} LevelsRise(v: nat, end: nat, p: nat)
    requires PageRange(v, end) && PageAligned(p)
    ensures Rising(Plan(v, end, p)) && Len(Plan(v, end, p)) == end - v
    decreases end - v
  {
    hide FitAll, Size, Multiple, PageAligned;
    if v == end {
    } else {
      FirstPage(v, end, p);
      PlanHead(v, end, p);
      var l := FitAll(v, end, p);
      LevelsRise(v + Size(l), end, p + Size(l));
      if v + Size(l) < end {
        NextLevel(v, end, p);
        PlanHead(v + Size(l), end, p + Size(l));
      }
    }
  }

  lemma NextLevel(v: nat, end: nat, p: nat)
    requires PageRange(v, end) && v < end && PageAligned(p)
    ensures var l := FitAll(v, end, p);
      && v + Size(l) <= end && PageRange(v + Size(l), end) && PageAligned(p + Size(l))
      && FitAll(v + Size(l), end, p + Size(l)) >= l
  {
    FirstPage(v, end, p);
    var l := FitAll(v, end, p);
    NextFits(v, l);
    NextFits(p, l);
    NextFits(end - v, l);
    assert end - (v + Size(l)) == end - v - Size(l);
  }

  lemma NextFits(x: nat, l: Level)
    requires l <= 2 && Multiple(x, l)
    ensures Fit(x + Size(l)).Some? && Fit(x + Size(l)).value >= l
    ensures x >= Size(l) ==> Fit(x - Size(l)).Some? && Fit(x - Size(l)).value >= l
  {
    var q := x / Size(l);
    MultipleIsMod(x, l);
    StepMultiple(x, Size(l), q);
    MultipleIsMod(x + Size(l), l);
    FitAtLeast(x + Size(l), l);
    if x >= Size(l) {
      MultipleIsMod(x - Size(l), l);
      FitAtLeast(x - Size(l), l);
    }
  }

  lemma StepMultiple(x: nat, s: nat, q: nat)
    requires s > 0 && x % s == 0 && q == x / s
    ensures (x + s) % s == 0 && (x >= s ==> (x - s) % s == 0)
  {
    assert x == s * q;
    assert s * (q + 1) == s * q + s;
    Bits.ModUnique(x + s, s, q + 1, 0);
    if x >= s {
      assert q >= 1;
      assert s * (q - 1) == s * q - s;
      Bits.ModUnique(x - s, s, q - 1, 0);
    }
  }

  lemma FitAtLeast(x: nat, l: Level)
    requires l <= 2 && Multiple(x, l)
    ensures Fit(x).Some? && Fit(x).value >= l
  {
    MultipleDown(x, l, 0);
  }

  lemma {:induction false} MapsIsPlan(t: seq<Slot>, v: nat, end: nat, p: nat, attr: Attr, pool: seq<nat>)
    requires TableWf(t, 3) && RangeOk(v, end) && PageAligned(p)
    ensures PlanOk(Low(v), Plan(v, end, p))
    ensures var r, r' := MapsRun(t, v, end, p, attr, pool), MapPlan(t, Low(v), Plan(v, end, p), p, attr, pool);
      r.table == r'.table && r.pool == r'.pool && r.error == r'.error
    decreases end - v
  {
    hide Low, FitAll, Size, Multiple, TableWf, NewPage, Plan;
    PlanCovers(v, end, p);
    PlanUnfold(v, end, p);
    if v == end {
    } else {
      FirstPage(v, end, p);
      PlanHead(v, end, p);
      var l := FitAll(v, end, p);
      LeafIsLeaf(p, attr, l);
      NewPageWf(t, 3, Low(v), l, LeafFor(p, attr, l), pool);
      var r := NewPage(t, 3, Low(v), l, LeafFor(p, attr, l), pool);
      if r.error.None? {
        MapsIsPlan(r.table, v + Size(l), end, p + Size(l), attr, r.pool);
        if v + Size(l) == end { PlanUnfold(end, end, p + Size(l)); }
      }
    }
  }

  lemma PlanUnfold(v: nat, end: nat, p: nat)
    requires PageRange(v, end) && PageAligned(p)
    ensures v == end ==> Plan(v, end, p) == []
  {
  }

  lemma HighBits(v: nat, p: nat, q: nat)
    requires q == p + (v - Low(v))
    ensures Fit(q) == Fit(p)
  {
    var k := v / CANON;
    assert v - Low(v) == CANON * k;
    assert q % 0x4000_0000 == p % 0x4000_0000 && q % 0x20_0000 == p % 0x20_0000 && q % 0x1000 == p % 0x1000 by {
      AddMultiple(p, k, CANON, 0x4000_0000, 0x4_0000);
      AddMultiple(p, k, CANON, 0x20_0000, 0x800_0000);
      AddMultiple(p, k, CANON, 0x1000, 0x10_0000_0000);
    }
  }

  lemma AddMultiple(p: nat, k: nat, d: nat, e: nat, m: nat)
    requires e > 0 && d == e * m
    ensures (p + d * k) % e == p % e
  {
    var q, r := p / e, p % e;
    MultipleParts(p, k, d, e, m, q, r);
    Bits.ModUnique(p + d * k, e, q + m * k, r);
  }

  lemma MultipleParts(p: nat, k: nat, d: nat, e: nat, m: nat, q: nat, r: nat)
    requires d == e * m && p == e * q + r
    ensures p + d * k == e * (q + m * k) + r
  {
    MulAssoc(e, m, k);
  }

  /** `unmaps` finds, at the start of a mapped range, the physical address and so the level that `maps` used. */
  lemma SameLevel(t: seq<Slot>, v: nat, end: nat, p: nat, attr: Attr)
    requires |t| == ENTRIES && RangeOk(v, end) && v < end && PageAligned(p) && p < CANON
    requires var l := FitAll(v, end, p); PageIs(t, Low(v), l, LeafFor(p, attr, l))
    ensures PageAligned(PhysAt(t, v)) && FitAll(v, end, PhysAt(t, v)) == FitAll(v, end, p)
  {
    FirstPage(v, end, p);
    PhysAtAligned(t, v);
    var l := FitAll(v, end, p);
    assert LeafAt(t, 3, Low(v)) == Some(Hit(l, LeafFor(p, attr, l)));
    EntryRoundTrip(p, attr, l);
    RestInPage(l, Low(v), Low(v));
    var off := PatShift(p, attr, l);
    HighBits(v, p + off, PhysAt(t, v));
    if off > 0 { OddFrame(p); }
  }

  /** The page after one with an even frame never starts a large page. */
  lemma OddFrame(p: nat)
    requires PageAligned(p) && (p / PAGE) % 2 == 0
    ensures Fit(p + PAGE) == Some(0)
  {
    var f := p / PAGE + 1;
    assert p + PAGE == f * PAGE && f % 2 == 1;
  }

  lemma RestInPage(l: Level, o: nat, w: nat)
    requires Multiple(o, l) && o <= w < o + Size(l)
    ensures Rest(l, w) == w - o
  {
    MultipleIsMod(o, l);
    Bits.ModUnique(w, Size(l), o / Size(l), w - o);
  }

  /** On a range just mapped, the loop of `unmaps` follows the very plan of `maps`. */
  lemma {:induction false} UnmapsIsPlan(t: seq<Slot>, v: nat, end: nat, p: nat, attr: Attr, pool: seq<nat>)
    requires TableWf(t, 3) && |t| == ENTRIES && RangeOk(v, end) && PageAligned(p) && p + (end - v) <= CANON
    requires Mapped(t, Low(v), Plan(v, end, p), p, attr)
    ensures PlanOk(Low(v), Plan(v, end, p))
    ensures var r, r' := UnmapsRun(t, v, end, pool), DropPlan(t, Low(v), Plan(v, end, p), pool);
      r.table == r'.table && r.pool == r'.pool
    decreases end - v
  {
    hide Low, FitAll, Size, Multiple, TableWf, DropPage, Plan, LeafAt, LeafFor, PhysAt;
    PlanCovers(v, end, p);
    PlanUnfold(v, end, p);
    if v == end {
    } else {
      FirstPage(v, end, p);
      PlanHead(v, end, p);
      SameLevel(t, v, end, p, attr);
      var l := FitAll(v, end, p);
      DropPageWf(t, 3, Low(v), l, pool);
      var r := DropPage(t, 3, Low(v), l, pool);
      MappedAfter(t, v, end, p, attr, pool);
      UnmapsIsPlan(r.table, v + Size(l), end, p + Size(l), attr, r.pool);
      if v + Size(l) == end { PlanUnfold(end, end, p + Size(l)); }
    }
  }

  lemma MappedAfter(t: seq<Slot>, v: nat, end: nat, p: nat, attr: Attr, pool: seq<nat>)
    requires TableWf(t, 3) && |t| == ENTRIES && RangeOk(v, end) && v < end && PageAligned(p)
    requires Mapped(t, Low(v), Plan(v, end, p), p, attr)
    ensures var l := FitAll(v, end, p);
      && v + Size(l) <= end && RangeOk(v + Size(l), end) && PageAligned(p + Size(l))
      && Mapped(DropPage(t, 3, Low(v), l, pool).table, Low(v + Size(l)),
                Plan(v + Size(l), end, p + Size(l)), p + Size(l), attr)
  {
    hide Low, FitAll, Multiple, TableWf, DropPage, Plan, LeafAt, LeafFor;
    FirstPage(v, end, p);
    PlanHead(v, end, p);
    var l := FitAll(v, end, p);
    var t' := DropPage(t, 3, Low(v), l, pool).table;
    if v + Size(l) == end {
      PlanUnfold(end, end, p + Size(l));
    } else {
      assert LeafAt(t, 3, Low(v)) == Some(Hit(l, LeafFor(p, attr, l)));
      var plan := Plan(v + Size(l), end, p + Size(l));
      forall w | Low(v) + Size(l) <= w < Low(v) + Size(l) + Len(plan) && w < CANON
        ensures SameAt(t, t', w)
      {
        DropPageLookup(t, 3, Low(v), l, pool, w);
      }
      MappedFrame(t, t', Low(v) + Size(l), plan, p + Size(l), attr);
    }
  }

  // -------------------------------------------------------------- main theorems

  /**
   After a successful `maps`, every address of the range translates to the physical start plus
   its offset, with the rights asked for, for any mix of page sizes; only where `LARGE_PAT` was
   asked for, a 4 KiB page with an even frame translates one page further.
   */
  lemma MapsTranslates(t: seq<Slot>, v: nat, end: nat, p: nat, attr: Attr, pool: seq<nat>, x: nat)
    requires TableWf(t, 3) && RangeOk(v, end) && PageAligned(p) && p + (end - v) <= CANON
    requires MapsRun(t, v, end, p, attr, pool).error.None? && v <= x < end
    ensures Translated(MapsRun(t, v, end, p, attr, pool).table, x, p + (x - v), attr)
  {
    assert PageRange(v, end);
    hide *;
    MapsIsPlan(t, v, end, p, attr, pool);
    MapPlanMaps(t, Low(v), Plan(v, end, p), p, attr, pool);
    MappedQuery(MapsRun(t, v, end, p, attr, pool).table, v, end, p, attr, x);
  }

  /** Address `x` is mapped by a leaf of some level and translates to `target`, but for the shift `LARGE_PAT` causes. */
  ghost predicate Translated(t: seq<Slot>, x: nat, target: nat, attr: Attr)
    requires |t| == ENTRIES
  {
    var q, hit := Query(t, x), LeafAt(t, 3, Low(x));
    && q.Some? && hit.Some? && SameRights(q.value.1, attr)
    && q.value.0 == target + (x - Low(x)) + PatShift(target, attr, hit.value.level)
  }

  lemma {:induction false} MappedQuery(t: seq<Slot>, v: nat, end: nat, p: nat, attr: Attr, x: nat)
    requires |t| == ENTRIES && RangeOk(v, end) && PageAligned(p) && p + (end - v) <= CANON
    requires Mapped(t, Low(v), Plan(v, end, p), p, attr) && v <= x < end
    ensures Translated(t, x, p + (x - v), attr)
    decreases end - v
  {
    hide Plan, FitAll, Multiple, LeafAt;
    FirstPage(v, end, p);
    PlanHead(v, end, p);
    var l := FitAll(v, end, p);
    if x < v + Size(l) {
      if x > v { LowStep(v, x - v); }
      assert LeafAt(t, 3, Low(x)) == Some(Hit(l, LeafFor(p, attr, l)));
      EntryRoundTrip(p, attr, l);
      RestInPage(l, Low(v), Low(x));
      if l == 0 { SameFrame(p, x - v); }
    } else {
      MappedQuery(t, v + Size(l), end, p + Size(l), attr, x);
    }
  }

  lemma SameFrame(p: nat, d: nat)
    requires PageAligned(p) && d < PAGE
    ensures (p + d) / PAGE == p / PAGE
  {
  }

  /** A successful `maps` changes no translation outside the range. */
  lemma MapsElsewhere(t: seq<Slot>, v: nat, end: nat, p: nat, attr: Attr, pool: seq<nat>, x: nat)
    requires TableWf(t, 3) && |t| == ENTRIES && RangeOk(v, end) && PageAligned(p)
    requires MapsRun(t, v, end, p, attr, pool).error.None?
    requires !(Low(v) <= Low(x) < Low(v) + (end - v))
    ensures Query(MapsRun(t, v, end, p, attr, pool).table, x) == Query(t, x)
  {
    hide Low, LeafAt, Plan, TableWf, MapPlan, MapsRun;
    MapsIsPlan(t, v, end, p, attr, pool);
    PlanCovers(v, end, p);
    MapPlanOutside(t, Low(v), Plan(v, end, p), p, attr, pool, Low(x));
  }

  /** The fresh range is unmapped in `t`. */
  ghost predicate RangeClear(t: seq<Slot>, v: nat, end: nat)
    requires |t| == ENTRIES && v <= end
  {
    Clear(t, Low(v), Low(v) + (end - v))
  }

  /**
   Mapping a clear range of a tree without idle tables and unmapping it again gives
   back exactly the same tree, tables in the same pages, and the allocator has every
   page it had before.
   */
  lemma MapsUnmapsRestores(t: seq<Slot>, v: nat, end: nat, p: nat, attr: Attr, pool: seq<nat>)
    requires TableWf(t, 3) && |t| == ENTRIES && Tight(t, 3) && RangeOk(v, end) && PageAligned(p)
    requires p + (end - v) <= CANON && RangeClear(t, v, end)
    requires MapsRun(t, v, end, p, attr, pool).error.None?
    ensures var m := MapsRun(t, v, end, p, attr, pool);
      var u := UnmapsRun(m.table, v, end, m.pool);
      u.table == t && multiset(u.pool) == multiset(pool)
  {
    hide Low, LeafAt, Plan, TableWf, MapPlan, DropPlan, MapsRun, UnmapsRun;
    hide Tight, Extends, TablePages, PlanOk, Mapped, LeafFor;
    var plan, o := Plan(v, end, p), Low(v);
    var m := MapsRun(t, v, end, p, attr, pool);
    PlanCovers(v, end, p);
    MapsIsPlan(t, v, end, p, attr, pool);
    MapPlanMaps(t, o, plan, p, attr, pool);
    MapPlanShape(t, o, plan, p, attr, pool);
    forall w | 0 <= w < CANON && !(o <= w < o + Len(plan))
      ensures SameAt(t, m.table, w)
    {
      MapPlanOutside(t, o, plan, p, attr, pool, w);
    }
    DropPlanRestores(t, m.table, o, plan, p, attr, m.pool);
    UnmapsIsPlan(m.table, v, end, p, attr, m.pool);
    var u := UnmapsRun(m.table, v, end, m.pool);
    SameHoldings(TablePages(t, 3), multiset(u.pool), multiset(pool));
  }

  lemma SameHoldings(a: multiset<nat>, b: multiset<nat>, c: multiset<nat>)
    requires a + b == a + c
    ensures b == c
  {
    forall n: nat
      ensures b[n] == c[n]
    {
      assert (a + b)[n] == (a + c)[n];
    }
  }

  // -------------------------------------------------------------------- methods

  datatype MapError = Misaligned(vstart: bool, vend: bool, phys: bool) | RangeEmpty | Page(error: Error)

  function Check(v: nat, end: nat, phys: Option<nat>): (r: Option<MapError>)
    ensures r.None? <==> PageAligned(v) && PageAligned(end) && (phys.Some? ==> PageAligned(phys.value)) && v < end
    ensures r.Some? && r.value != RangeEmpty ==>
      r.value == Misaligned(v % PAGE != 0, end % PAGE != 0, phys.Some? && phys.value % PAGE != 0)
    ensures r == Some(RangeEmpty) ==> PageAligned(v) && PageAligned(end) && v >= end
  {
    var a, b, c := !PageAligned(v), !PageAligned(end), phys.Some? && !PageAligned(phys.value);
    if a || b || c then Some(Misaligned(a, b, c)) else if v >= end then Some(RangeEmpty) else None
  }

  class AddressSpace {
    var root: seq<Slot>
    var pool: seq<nat>     // what the page allocator can still supply

    ghost predicate Valid()
      reads this
    {
      |root| == ENTRIES && TableWf(root, 3)
    }

    constructor (pool: seq<nat>)
      ensures Valid() && root == Zeroed() && this.pool == pool
    {
      root := Zeroed();
      this.pool := pool;
    }

    /** Reads one hardware entry per level, down to a leaf or to an entry without a table. */
    method QueryAddr(v: nat) returns (r: Option<(nat, Attr)>)
      requires Valid()
      ensures r == Query(root, v)
    {
      var table, l: Level := root, 3;
      while true
        invariant TableWf(table, l) && v % Cover(l) < Cover(l)
        invariant LeafAt(table, l, v % Cover(l)) == LeafAt(root, 3, Low(v))
        decreases l
      {
        AddrIndexes(l, v);
        var slot := table[AddrIndex(l, v)];
        assert SlotWf(slot, l);
        RawKinds(slot, l);
        var item := Raw(slot);
        if IsLeaf(item, l) { return Some((PhysOf(item, l) + Rest(l, v) + (v - Low(v)), AttrOf(item))); }
        if !HasTable(item, l) { return None; }
        table, l := slot.table, l - 1;
      }
    }

    method Unmaps(v: nat, end: nat) returns (r: Result<(), MapError>)
      requires Valid()
      modifies this
      ensures Valid()
      ensures r == match Check(v, end, None) case Some(e) => Err(e) case None => Ok(())
      ensures r.Err? ==> root == old(root) && pool == old(pool)
      ensures r.Ok? ==> PageRange(v, end) && UnmapsTo(old(root), old(pool), v, end, root, pool)
    {
      hide TableWf, DropPage, FitAll, Low, Size, Multiple, PhysAt;
      var bad := Check(v, end, None);
      if bad.Some? { return Err(bad.value); }
      AlignedSum(end, v);
      ghost var goal := UnmapsRun(root, v, end, pool);
      var cur := v;
      while cur < end
        invariant Valid() && v <= cur <= end && PageRange(cur, end)
        invariant goal == UnmapsRun(root, cur, end, pool)
        decreases end - cur
      {
        PhysAtAligned(root, cur);
        var phys := PhysAt(root, cur);
        FirstPage(cur, end, phys);
        var l := FitAll(cur, end, phys);
        DropPageWf(root, 3, Low(cur), l, pool);
        var d := DropPage(root, 3, Low(cur), l, pool);
        root, pool := d.table, d.pool;
        cur := cur + Size(l);
      }
      return Ok(());
    }

    /** On failure, what was mapped so far is unmapped again. */
    method Maps(v: nat, end: nat, phys: nat, attr: Attr) returns (r: Result<(), MapError>)
      requires Valid()
      modifies this
      ensures Valid()
      ensures var bad := Check(v, end, Some(phys));
        && (bad.Some? ==> r == Err(bad.value) && root == old(root) && pool == old(pool))
        && (bad.None? ==> PageRange(v, end) && MapsTo(old(root), old(pool), v, end, phys, attr, r, root, pool))
    {
      hide TableWf, NewPage, FitAll, Low, Size, Multiple, NewEntry, LeafAttr, UnmapsRun;
      var bad := Check(v, end, Some(phys));
      if bad.Some? { return Err(bad.value); }
      AlignedSum(end, v);
      MapsStops(root, v, end, phys, attr, pool);
      ghost var goal := MapsRun(root, v, end, phys, attr, pool);
      var cur: nat, p: nat, err: Option<Error> := v, phys, None;
      while cur < end && err.None?
        invariant Valid() && v <= cur <= end && PageRange(cur, end) && PageAligned(p)
        invariant goal == (if err.None? then MapsRun(root, cur, end, p, attr, pool) else Progress(root, pool, cur, err))
        decreases end - cur, err.None?
      {
        FirstPage(cur, end, p);
        var l := FitAll(cur, end, p);
        var leaf := NewEntry(p, LeafAttr(l, attr), l);
        LeafIsLeaf(p, attr, l);
        NewPageWf(root, 3, Low(cur), l, leaf, pool);
        var d := NewPage(root, 3, Low(cur), l, leaf, pool);
        root, pool, err := d.table, d.pool, d.error;
        if err.None? { cur, p := cur + Size(l), p + Size(l); }
      }
      if err.None? { return Ok(()); }
      UnmapsNothing(root, v, pool);
      if v < cur {
        AlignedSum(v, cur - v);
        var _ := Unmaps(v, cur);
      }
      return Err(Page(err.value));
    }
  }

  /** The state `unmaps` leaves. */
  ghost predicate UnmapsTo(t: seq<Slot>, pool: seq<nat>, v: nat, end: nat, t': seq<Slot>, pool': seq<nat>)
    requires TableWf(t, 3) && PageRange(v, end)
  {
    var u := UnmapsRun(t, v, end, pool);
    t' == u.table && pool' == u.pool
  }

  /** The result and state `maps` leaves, including the rollback. */
  ghost predicate MapsTo(t: seq<Slot>, pool: seq<nat>, v: nat, end: nat, p: nat, attr: Attr,
                         r: Result<(), MapError>, t': seq<Slot>, pool': seq<nat>)
    requires TableWf(t, 3) && PageRange(v, end) && PageAligned(p)
  {
    var m := MapsRun(t, v, end, p, attr, pool);
    if m.error.None? then r == Ok(()) && t' == m.table && pool' == m.pool
    else r == Err(Page(m.error.value)) && PageRange(v, m.at) && UnmapsTo(m.table, m.pool, v, m.at, t', pool')
  }

  lemma UnmapsNothing(t: seq<Slot>, v: nat, pool: seq<nat>)
    requires TableWf(t, 3) && PageRange(v, v)
    ensures UnmapsTo(t, pool, v, v, t, pool)
  {
  }
}
