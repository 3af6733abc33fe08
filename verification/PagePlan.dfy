/**
 A plan is the list of page levels a range is cut into.  Mapping and dropping
 along a plan are studied here free of how the plan was chosen.
 */
module PagePlan {
  import opened Types
  import opened PageEntry
  import opened PageTree

  function Len(plan: seq<Level>): nat {
    if plan == [] then 0 else Size(plan[0]) + Len(plan[1..])
  }

  /** Every page of the plan is aligned, is not a P4 page, and lies below 2^48. */
  ghost predicate PlanOk(o: nat, plan: seq<Level>)
    decreases |plan|
  {
    plan == [] || (
      && plan[0] <= 2 && Multiple(o, plan[0]) && o + Size(plan[0]) <= CANON
      && PlanOk(o + Size(plan[0]), plan[1..]))
  }

  function LeafFor(p: nat, attr: Attr, l: Level): (e: Entry)
    ensures IsLeaf(e, l)
  {
    NewEntry(p, LeafAttr(l, attr), l)
  }

  function MapPlan(t: seq<Slot>, o: nat, plan: seq<Level>, p: nat, attr: Attr, pool: seq<nat>): (r: Outcome)
    requires TableWf(t, 3) && PlanOk(o, plan)
    ensures TableWf(r.table, 3) && |r.table| == ENTRIES
    decreases |plan|
  {
    if plan == [] then Outcome(t, pool, None)
    else
      var l := plan[0];
      NewPageWf(t, 3, o, l, LeafFor(p, attr, l), pool);
      var r := NewPage(t, 3, o, l, LeafFor(p, attr, l), pool);
      if r.error.Some? then r else MapPlan(r.table, o + Size(l), plan[1..], p + Size(l), attr, r.pool)
  }

  function DropPlan(t: seq<Slot>, o: nat, plan: seq<Level>, pool: seq<nat>): (r: Outcome)
    requires TableWf(t, 3) && PlanOk(o, plan)
    ensures TableWf(r.table, 3) && |r.table| == ENTRIES
    decreases |plan|
  {
    if plan == [] then Outcome(t, pool, None)
    else
      DropPageWf(t, 3, o, plan[0], pool);
      var r := DropPage(t, 3, o, plan[0], pool);
      DropPlan(r.table, o + Size(plan[0]), plan[1..], r.pool)
  }

  /** The offsets `[o, o + Size(l))` are mapped by one leaf of level `l`. */
  ghost predicate PageIs(t: seq<Slot>, o: nat, l: Level, leaf: Entry)
    requires |t| == ENTRIES
  {
    forall w :: o <= w < o + Size(l) && w < CANON ==> LeafAt(t, 3, w) == Some(Hit(l, leaf))
  }

  /** The planned pages are mapped, to `p` onwards. */
  ghost predicate Mapped(t: seq<Slot>, o: nat, plan: seq<Level>, p: nat, attr: Attr)
    requires |t| == ENTRIES
    decreases |plan|
  {
    plan == [] || (
      && PageIs(t, o, plan[0], LeafFor(p, attr, plan[0]))
      && Mapped(t, o + Size(plan[0]), plan[1..], p + Size(plan[0]), attr))
  }

  /** The two trees map offset `w` alike. */
  ghost predicate SameAt(t: seq<Slot>, t': seq<Slot>, w: nat)
    requires |t| == |t'| == ENTRIES && w < CANON
  {
    LeafAt(t, 3, w) == LeafAt(t', 3, w)
  }

  lemma {:induction false} MapPlanOutside(t: seq<Slot>, o: nat, plan: seq<Level>, p: nat, attr: Attr,
                                          pool: seq<nat>, w: nat)
    requires TableWf(t, 3) && PlanOk(o, plan) && w < CANON && !(o <= w < o + Len(plan))
    requires MapPlan(t, o, plan, p, attr, pool).error.None?
    ensures SameAt(t, MapPlan(t, o, plan, p, attr, pool).table, w)
    decreases |plan|
  {
    hide TableWf, LeafAt, NewPage, DropPage, Multiple, Size, Tight, Extends, TablePages, LeafFor;
    if plan == [] {
    } else {
      var l := plan[0];
      var leaf := LeafFor(p, attr, l);
      NewPageWf(t, 3, o, l, leaf, pool);
      NewPageLookup(t, 3, o, l, leaf, pool, w);
      var r := NewPage(t, 3, o, l, leaf, pool);
      MapPlanOutside(r.table, o + Size(l), plan[1..], p + Size(l), attr, r.pool, w);
    }
  }

  lemma {:induction false} MapPlanMaps(t: seq<Slot>, o: nat, plan: seq<Level>, p: nat, attr: Attr, pool: seq<nat>)
    requires TableWf(t, 3) && PlanOk(o, plan)
    requires MapPlan(t, o, plan, p, attr, pool).error.None?
    ensures Mapped(MapPlan(t, o, plan, p, attr, pool).table, o, plan, p, attr)
    decreases |plan|
  {
    hide TableWf, LeafAt, NewPage, DropPage, Multiple, Size, Tight, Extends, TablePages, LeafFor;
    if plan == [] {
    } else {
      var l := plan[0];
      var leaf := LeafFor(p, attr, l);
      NewPageWf(t, 3, o, l, leaf, pool);
      var r := NewPage(t, 3, o, l, leaf, pool);
      MapPlanMaps(r.table, o + Size(l), plan[1..], p + Size(l), attr, r.pool);
      var t' := MapPlan(t, o, plan, p, attr, pool).table;
      forall w | o <= w < o + Size(l) && w < CANON
        ensures LeafAt(t', 3, w) == Some(Hit(l, leaf))
      {
        NewPageLookup(t, 3, o, l, leaf, pool, w);
        MapPlanOutside(r.table, o + Size(l), plan[1..], p + Size(l), attr, r.pool, w);
      }
    }
  }

  ghost predicate Clear(t: seq<Slot>, lo: nat, hi: nat)
    requires |t| == ENTRIES
  {
    forall w :: lo <= w < hi && w < CANON ==> LeafAt(t, 3, w).None?
  }

  ghost function Holdings(t: seq<Slot>, pool: seq<nat>): multiset<nat> { TablePages(t, 3) + multiset(pool) }

  /** The first page of a clear stretch: what it adds fits the tree, and the rest stays clear. */
  lemma FirstShape(t: seq<Slot>, o: nat, hi: nat, l: Level, leaf: Entry, pool: seq<nat>)
    requires TableWf(t, 3) && Tight(t, 3) && l <= 2 && Multiple(o, l) && o + Size(l) <= hi <= CANON && Clear(t, o, hi)
    requires NewPage(t, 3, o, l, leaf, pool).error.None?
    ensures var r := NewPage(t, 3, o, l, leaf, pool);
      && Tight(r.table, 3) && Extends(t, r.table, 3) && Clear(r.table, o + Size(l), hi)
      && Holdings(r.table, r.pool) == Holdings(t, pool)
  {
    assert Unmapped(t, 3, o, l);
    NewPageShape(t, 3, o, l, leaf, pool);
    NewPagePages(t, 3, o, l, leaf, pool);
    var t' := NewPage(t, 3, o, l, leaf, pool).table;
    forall w | o + Size(l) <= w < hi && w < CANON
      ensures LeafAt(t', 3, w).None?
    {
      NewPageLookup(t, 3, o, l, leaf, pool, w);
    }
  }

  /** Mapping a clear stretch adds no idle table, keeps the old tree and loses no page. */
  lemma {:induction false} MapPlanShape(t: seq<Slot>, o: nat, plan: seq<Level>, p: nat, attr: Attr, pool: seq<nat>)
    requires TableWf(t, 3) && Tight(t, 3) && PlanOk(o, plan) && Clear(t, o, o + Len(plan)) && o + Len(plan) <= CANON
    requires MapPlan(t, o, plan, p, attr, pool).error.None?
    ensures var r := MapPlan(t, o, plan, p, attr, pool);
      Tight(r.table, 3) && Extends(t, r.table, 3) && Holdings(r.table, r.pool) == Holdings(t, pool)
    decreases |plan|
  {
    hide TableWf, LeafAt, NewPage, DropPage, Multiple, Size, Tight, Extends, TablePages, LeafFor;
    if plan == [] {
      ExtendsSelf(t, 3);
    } else {
      var l := plan[0];
      var leaf := LeafFor(p, attr, l);
      NewPageWf(t, 3, o, l, leaf, pool);
      FirstShape(t, o, o + Len(plan), l, leaf, pool);
      var r := NewPage(t, 3, o, l, leaf, pool);
      MapPlanShape(r.table, o + Size(l), plan[1..], p + Size(l), attr, r.pool);
      ExtendsTrans(t, r.table, MapPlan(t, o, plan, p, attr, pool).table, 3);
    }
  }

  /** Being mapped is a property of the lookups of the planned pages only. */
  lemma {:induction false} MappedFrame(t: seq<Slot>, t': seq<Slot>, o: nat, plan: seq<Level>, p: nat, attr: Attr)
    requires |t| == |t'| == ENTRIES && Mapped(t, o, plan, p, attr)
    requires forall w :: o <= w < o + Len(plan) && w < CANON ==> SameAt(t, t', w)
    ensures Mapped(t', o, plan, p, attr)
    decreases |plan|
  {
    hide LeafAt, Size, LeafFor;
    if plan == [] {
    } else {
      forall w | o <= w < o + Size(plan[0]) && w < CANON
        ensures LeafAt(t', 3, w) == Some(Hit(plan[0], LeafFor(p, attr, plan[0])))
      {
        assert SameAt(t, t', w);
      }
      MappedFrame(t, t', o + Size(plan[0]), plan[1..], p + Size(plan[0]), attr);
    }
  }

  /** The state in which `unmaps` has come down to offset `o`: the rest of the plan is all that `t` has over `t0`. */
  ghost predicate Over(t0: seq<Slot>, t: seq<Slot>, o: nat, plan: seq<Level>, p: nat, attr: Attr) {
    && TableWf(t0, 3) && TableWf(t, 3) && |t0| == |t| == ENTRIES
    && Tight(t0, 3) && Tight(t, 3) && Extends(t0, t, 3)
    && PlanOk(o, plan) && Mapped(t, o, plan, p, attr) && Clear(t0, o, o + Len(plan))
    && forall w :: 0 <= w < CANON && !(o <= w < o + Len(plan)) ==> SameAt(t0, t, w)
  }

  lemma FirstDrop(t0: seq<Slot>, t: seq<Slot>, o: nat, plan: seq<Level>, p: nat, attr: Attr, pool: seq<nat>)
    requires plan != [] && Over(t0, t, o, plan, p, attr)
    ensures var r := DropPage(t, 3, o, plan[0], pool);
      && Over(t0, r.table, o + Size(plan[0]), plan[1..], p + Size(plan[0]), attr)
      && Holdings(r.table, r.pool) == Holdings(t, pool)
  {
    hide TableWf, LeafAt, DropPage, Tight, Extends, TablePages, LeafFor, Multiple;
    var l := plan[0];
    var r := DropPage(t, 3, o, l, pool);
    assert LeafAt(t, 3, o) == Some(Hit(l, LeafFor(p, attr, l))) && LeafAt(t0, 3, o).None?;
    DropPageWf(t, 3, o, l, pool);
    DropPageShape(t, 3, o, l, pool);
    DropPagePages(t, 3, o, l, pool);
    DropPageExtends(t0, t, 3, o, l, pool);
    forall w | 0 <= w < CANON && !(o <= w < o + Size(l))
      ensures SameAt(t, r.table, w)
    {
      DropPageLookup(t, 3, o, l, pool, w);
    }
    MappedFrame(t, r.table, o + Size(l), plan[1..], p + Size(l), attr);
    forall w | 0 <= w < CANON && !(o + Size(l) <= w < o + Len(plan))
      ensures SameAt(t0, r.table, w)
    {
      DropPageLookup(t, 3, o, l, pool, w);
      if o <= w < o + Size(l) { assert LeafAt(t0, 3, w).None?; } else { assert SameAt(t0, t, w); }
    }
  }

  /** Dropping the planned pages, first to last, brings back the old tree and every page. */
  lemma {:induction false} DropPlanRestores(t0: seq<Slot>, t: seq<Slot>, o: nat, plan: seq<Level>, p: nat,
                                            attr: Attr, pool: seq<nat>)
    requires Over(t0, t, o, plan, p, attr)
    ensures var r := DropPlan(t, o, plan, pool);
      r.table == t0 && Holdings(r.table, r.pool) == Holdings(t, pool)
    decreases |plan|
  {
    hide TableWf, LeafAt, DropPage, Tight, Extends, TablePages, LeafFor, Multiple, Size;
    if plan == [] {
      forall w | 0 <= w < CANON
        ensures LeafAt(t, 3, w) == LeafAt(t0, 3, w)
      {
        assert SameAt(t0, t, w);
      }
      ExtensionIsSame(t0, t, 3);
    } else {
      FirstDrop(t0, t, o, plan, p, attr, pool);
      var r := DropPage(t, 3, o, plan[0], pool);
      DropPlanRestores(t0, r.table, o + Size(plan[0]), plan[1..], p + Size(plan[0]), attr, r.pool);
    }
  }
}
