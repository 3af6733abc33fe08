/**
 Page tables as a tree: each table has 512 slots, and a slot that points to a
 lower table carries that table and the physical page it lives in.  Offsets are
 relative to the table: slot `i` of a level-`l` table covers `[i * Size(l), (i + 1) * Size(l))`.
 */
module PageTree {
  import opened Types
  import opened PageEntry
  import Bits

  datatype Slot = Absent | Leaf(entry: Entry) | Next(page: nat, table: seq<Slot>)

  datatype Error = OutOfMemory | EntryExistent(leaf: bool)

  /** The state after a step on a table: the table, the pages left to allocate, and what went wrong. */
  datatype Outcome = Outcome(table: seq<Slot>, pool: seq<nat>, error: Option<Error>)

  function Zeroed(): (t: seq<Slot>)
    ensures |t| == ENTRIES && forall i :: 0 <= i < ENTRIES ==> t[i] == Absent
  {
    seq(ENTRIES, _ => Absent)
  }

  /** Bytes covered by a level-`l` table. */
  function Cover(l: Level): nat {
    match l
    case 0 => 0x20_0000
    case 1 => 0x4000_0000
    case 2 => 0x80_0000_0000
    case 3 => CANON
  }

  function Index(l: Level, o: nat): (i: nat)
    requires o < Cover(l)
    ensures i < ENTRIES
  {
    o / Size(l)
  }

  function Rest(l: Level, o: nat): (r: nat)
    ensures r < Size(l)
  {
    o % Size(l)
  }

  /** The entry word the hardware sees in a slot. */
  function Raw(s: Slot): Entry {
    match s
    case Absent => Entry(0, Attr(false, false, false, false, false, false, 0))
    case Leaf(e) => e
    case Next(page, _) => NewEntry(page * PAGE, INTERMEDIATE, 0)
  }

  ghost predicate SlotWf(s: Slot, l: Level)
    decreases l, 0
  {
    match s
    case Absent => true
    case Leaf(e) => IsLeaf(e, l)
    case Next(_, t) => l > 0 && TableWf(t, l - 1)
  }

  ghost predicate TableWf(t: seq<Slot>, l: Level)
    decreases l, 1
  {
    |t| == ENTRIES && forall i :: 0 <= i < ENTRIES ==> SlotWf(t[i], l)
  }

  /** The tests the source makes on entry words tell the three kinds of slot apart, and find the table's page. */
  lemma RawKinds(s: Slot, l: Level)
    requires SlotWf(s, l)
    ensures IsLeaf(Raw(s), l) <==> s.Leaf?
    ensures HasTable(Raw(s), l) <==> s.Next?
    ensures s.Next? && s.page < FRAMES ==> PhysOf(Raw(s), 0) == s.page * PAGE
  {
  }

  // ------------------------------------------------------------------ lookups

  datatype Hit = Hit(level: Level, entry: Entry)

  function LeafAt(t: seq<Slot>, l: Level, o: nat): Option<Hit>
    requires |t| == ENTRIES && o < Cover(l)
    decreases l, 1
  {
    SlotHit(t[Index(l, o)], l, Rest(l, o))
  }

  function SlotHit(s: Slot, l: Level, r: nat): Option<Hit>
    requires r < Size(l)
    decreases l, 0
  {
    match s
    case Absent => None
    case Leaf(e) => Some(Hit(l, e))
    case Next(_, t) => if l == 0 || |t| != ENTRIES then None else LeafAt(t, l - 1, r)
  }

  function Translate(h: Option<Hit>, o: nat): Option<(nat, Attr)> {
    match h
    case None => None
    case Some(Hit(l, e)) => Some((PhysOf(e, l) + Rest(l, o), AttrOf(e)))
  }

  predicate IsEmpty(t: seq<Slot>) { forall i :: 0 <= i < |t| ==> t[i].Absent? }

  // -------------------------------------------------------------- operations

  /** A lower table to walk into, the page it lives in, and the pages left. */
  datatype Child = Child(page: nat, table: seq<Slot>, pool: seq<nat>)

  function CreateTable(s: Slot, pool: seq<nat>): Result<Child, Error> {
    match s
    case Next(page, t) => Ok(Child(page, t, pool))
    case Leaf(_) => Err(EntryExistent(true))
    case Absent => if pool == [] then Err(OutOfMemory) else Ok(Child(pool[0], Zeroed(), pool[1..]))
  }

  /** Walks down to `level`, creating missing tables, and installs `leaf` there. */
  function NewPage(t: seq<Slot>, l: Level, o: nat, level: Level, leaf: Entry, pool: seq<nat>): (r: Outcome)
    requires TableWf(t, l) && o < Cover(l) && level <= l
    ensures |r.table| == ENTRIES
    decreases l
  {
    var i := Index(l, o);
    assert SlotWf(t[i], l);
    if l == level then
      if t[i].Leaf? then Outcome(t, pool, Some(EntryExistent(true)))
      else Outcome(t[i := Leaf(leaf)], pool, None)
    else
      match CreateTable(t[i], pool)
      case Err(e) => Outcome(t, pool, Some(e))
      case Ok(c) =>
        var r := NewPage(c.table, l - 1, Rest(l, o), level, leaf, c.pool);
        Outcome(t[i := Next(c.page, r.table)], r.pool, r.error)
  }

  function SplitItem(e: Entry, l: Level, i: nat): Slot
    requires l > 0
  {
    Leaf(NewEntry(PhysOf(e, 0) + i * Size(l - 1), LeafAttr(l - 1, AttrOf(e).(largePat := false)), l - 1))
  }

  /** The table that replaces a large leaf: 512 leaves of the next level. */
  function SplitItems(e: Entry, l: Level): (t: seq<Slot>)
    requires l > 0
    ensures |t| == ENTRIES && forall i :: 0 <= i < ENTRIES ==> t[i] == SplitItem(e, l, i)
  {
    seq(ENTRIES, (i: nat) => SplitItem(e, l, i))
  }

  lemma SplitItemsWf(e: Entry, l: Level)
    requires l > 0 && IsLeaf(e, l)
    ensures TableWf(SplitItems(e, l), l - 1)
  {
  }

  function GetOrSplit(s: Slot, l: Level, pool: seq<nat>): Result<Child, Error>
    requires l > 0
  {
    match s
    case Next(page, t) => Ok(Child(page, t, pool))
    case Leaf(e) => if pool == [] then Err(OutOfMemory) else Ok(Child(pool[0], SplitItems(e, l), pool[1..]))
    case Absent => Err(EntryExistent(false))
  }

  /**
   Walks down to `level`, splitting larger leaves, and clears the leaf there; tables
   left empty are unlinked and their pages returned.  The split of a leaf clears its
   entry before asking for a page, so it is lost when there is none.
   */
  function DropPage(t: seq<Slot>, l: Level, o: nat, level: Level, pool: seq<nat>): (r: Outcome)
    requires TableWf(t, l) && o < Cover(l) && level <= l
    ensures |r.table| == ENTRIES
    decreases l
  {
    var i := Index(l, o);
    assert SlotWf(t[i], l);
    if l == level then
      if t[i].Leaf? then Outcome(t[i := Absent], pool, None)
      else Outcome(t, pool, Some(EntryExistent(false)))
    else
      match GetOrSplit(t[i], l, pool)
      case Err(e) => Outcome(if e.OutOfMemory? then t[i := Absent] else t, pool, Some(e))
      case Ok(c) =>
        if t[i].Leaf? then
          SplitItemsWf(t[i].entry, l);
          Prune(t, i, c.page, DropPage(c.table, l - 1, Rest(l, o), level, c.pool))
        else Prune(t, i, c.page, DropPage(c.table, l - 1, Rest(l, o), level, c.pool))
  }

  function Prune(t: seq<Slot>, i: nat, page: nat, r: Outcome): (r': Outcome)
    requires i < |t|
    ensures |r'.table| == |t|
  {
    if r.error.None? && IsEmpty(r.table)
    then Outcome(t[i := Absent], r.pool + [page], None)
    else Outcome(t[i := Next(page, r.table)], r.pool, r.error)
  }

  // --------------------------------------------------------------- arithmetic

  lemma Sizes(l: Level)
    ensures Cover(l) == ENTRIES * Size(l)
    ensures l > 0 ==> Cover(l - 1) == Size(l) == ENTRIES * Size(l - 1)
    ensures Size(l) > 0
  {
  }

  /** The table index `addr_idx` takes straight from an address. */
  function AddrIndex(l: Level, v: nat): nat { v / Size(l) % ENTRIES }

  /** Walking down level by level uses those indices, and ends at the address's page offset. */
  lemma AddrIndexes(l: Level, v: nat)
    ensures v % Cover(l) < Cover(l) && AddrIndex(l, v) == Index(l, v % Cover(l))
    ensures Rest(l, v % Cover(l)) == Rest(l, v) && Rest(l, v % CANON) == Rest(l, v)
    ensures l > 0 ==> Rest(l, v) == v % Cover(l - 1)
  {
    Sizes(l);
    PageNumber(v, Cover(l), Size(l), ENTRIES);
    Bits.ModUnique(v / Size(l), ENTRIES, v / Cover(l), (v % Cover(l)) / Size(l));
    var k := CANON / Size(l);
    assert CANON == Size(l) * k by { match l case 0 => case 1 => case 2 => case 3 => }
    PageNumber(v, CANON, Size(l), k);
  }

  lemma PageNumber(w: nat, d: nat, e: nat, k: nat)
    requires e > 0 && d == e * k && d > 0
    ensures w / e == k * (w / d) + (w % d) / e && (w % d) % e == w % e && (w % d) / e < k
  {
    var q, r := w / d, w % d;
    var x, y := r / e, r % e;
    PageParts(w, d, e, k, q, r, x, y);
    Bits.ModUnique(w, e, k * q + x, y);
  }

  lemma PageParts(w: nat, d: nat, e: nat, k: nat, q: nat, r: nat, x: nat, y: nat)
    requires d == e * k && w == d * q + r && r == e * x + y && r < d
    ensures w == e * (k * q + x) + y && x < k
  {
    MulAssoc(e, k, q);
    if x >= k { Bits.MulLe(e, k, x); }
  }

  lemma MultipleIsMod(x: nat, l: Level)
    ensures Multiple(x, l) <==> x % Size(l) == 0
  {
  }

  /** Same level: a page is one slot. */
  lemma OneSlot(l: Level, o: nat, w: nat)
    requires o < Cover(l) && w < Cover(l) && Multiple(o, l)
    ensures Rest(l, o) == 0
    ensures o <= w < o + Size(l) <==> Index(l, w) == Index(l, o)
  {
    MultipleIsMod(o, l);
    SlotBounds(Size(l), o, w);
  }

  lemma SlotBounds(s: nat, o: nat, w: nat)
    requires s > 0 && o % s == 0
    ensures o <= w < o + s <==> w / s == o / s
  {
    var q := o / s;
    assert o == s * q;
    if o <= w < o + s {
      Bits.ModUnique(w, s, q, w - o);
    }
    if w / s == q {
      assert w == s * q + w % s;
    }
  }

  /** Lower level: the page lies inside the slot, at the same place relative to it. */
  lemma InsideSlot(l: Level, m: Level, o: nat, w: nat)
    requires m < l && o < Cover(l) && w < Cover(l) && Multiple(o, m)
    ensures Multiple(Rest(l, o), m) && Rest(l, o) + Size(m) <= Size(l)
    ensures o <= w < o + Size(m) <==>
            Index(l, w) == Index(l, o) && Rest(l, o) <= Rest(l, w) < Rest(l, o) + Size(m)
  {
    Ratio(l, m);
    MultipleIsMod(o, m);
    MultipleIsMod(Rest(l, o), m);
    var k := Size(l) / Size(m);
    RestMultiple(o, Size(l), Size(m), k);
    NarrowRange(Size(l), Size(m), o, w);
  }

  lemma Ratio(l: Level, m: Level)
    requires m < l
    ensures Size(l) == Size(m) * (Size(l) / Size(m))
  {
    match l
    case 1 =>
    case 2 => if m == 0 {} else {}
    case 3 => if m == 0 {} else if m == 1 {} else {}
  }

  lemma RestMultiple(o: nat, d: nat, e: nat, k: nat)
    requires e > 0 && d == e * k && d > 0 && o % e == 0
    ensures (o % d) % e == 0 && o % d + e <= d
  {
    var q, r := o / d, o % d;
    var y := o / e;
    assert o == e * y;
    var x := y - k * q;
    assert r == e * x by {
      assert o == d * q + r;
      MulAssoc(e, k, q);
      assert e * x == e * y - e * (k * q);
    }
    if x < 0 {
      assert e * (-x) == -(e * x);
      Bits.MulAtLeast(e, -x);
    }
    Bits.ModUnique(r, e, x, 0);
    if x < k {
      assert e * (k - x) == e * k - e * x;
      Bits.MulAtLeast(e, k - x);
    }
  }

  lemma NarrowRange(d: nat, e: nat, o: nat, w: nat)
    requires d > 0 && o % d + e <= d
    ensures o <= w < o + e <==> w / d == o / d && o % d <= w % d < o % d + e
  {
    var q := o / d;
    assert o == d * q + o % d;
    if o <= w < o + e {
      Bits.ModUnique(w, d, q, o % d + (w - o));
    }
    if w / d == q {
      assert w == d * q + w % d;
    }
  }

  // ------------------------------------------------------- effect on lookups

  lemma UpdateHit(t: seq<Slot>, l: Level, i: nat, x: Slot, w: nat)
    requires |t| == ENTRIES && i < ENTRIES && w < Cover(l)
    ensures LeafAt(t[i := x], l, w) == if Index(l, w) == i then SlotHit(x, l, Rest(l, w)) else LeafAt(t, l, w)
  {
  }

  /** The table `create_table` walks into maps exactly what the slot did. */
  lemma ChildHit(s: Slot, l: Level, pool: seq<nat>, r: nat)
    requires SlotWf(s, l) && l > 0 && r < Size(l) && CreateTable(s, pool).Ok?
    ensures var c := CreateTable(s, pool).value;
      TableWf(c.table, l - 1) && LeafAt(c.table, l - 1, r) == SlotHit(s, l, r)
  {
  }

  lemma {:induction false} NewPageWf(t: seq<Slot>, l: Level, o: nat, level: Level, leaf: Entry, pool: seq<nat>)
    requires TableWf(t, l) && o < Cover(l) && level <= l && IsLeaf(leaf, level)
    ensures TableWf(NewPage(t, l, o, level, leaf, pool).table, l)
    decreases l
  {
    var i := Index(l, o);
    assert SlotWf(t[i], l);
    if l != level && CreateTable(t[i], pool).Ok? {
      var c := CreateTable(t[i], pool).value;
      NewPageWf(c.table, l - 1, Rest(l, o), level, leaf, c.pool);
    }
  }

  /** A successful `new_page` changes the lookups of its own page, whatever was below it, and no others. */
  lemma {:induction false} NewPageLookup(t: seq<Slot>, l: Level, o: nat, level: Level, leaf: Entry,
                                         pool: seq<nat>, w: nat)
    requires TableWf(t, l) && o < Cover(l) && w < Cover(l) && level <= l && Multiple(o, level)
    requires NewPage(t, l, o, level, leaf, pool).error.None?
    ensures LeafAt(NewPage(t, l, o, level, leaf, pool).table, l, w)
         == if o <= w < o + Size(level) then Some(Hit(level, leaf)) else LeafAt(t, l, w)
    decreases l
  {
    hide Multiple, Size, Cover, Index, Rest;
    Sizes(l);
    var i := Index(l, o);
    assert SlotWf(t[i], l);
    if l == level {
      OneSlot(l, o, w);
      UpdateHit(t, l, i, Leaf(leaf), w);
    } else {
      InsideSlot(l, level, o, w);
      var c := CreateTable(t[i], pool).value;
      var r := NewPage(c.table, l - 1, Rest(l, o), level, leaf, c.pool);
      UpdateHit(t, l, i, Next(c.page, r.table), w);
      if Index(l, w) == i {
        ChildHit(t[i], l, pool, Rest(l, w));
        NewPageLookup(c.table, l - 1, Rest(l, o), level, leaf, c.pool, Rest(l, w));
      }
    }
  }

  lemma {:induction false} DropPageWf(t: seq<Slot>, l: Level, o: nat, level: Level, pool: seq<nat>)
    requires TableWf(t, l) && o < Cover(l) && level <= l
    ensures TableWf(DropPage(t, l, o, level, pool).table, l)
    decreases l
  {
    var i := Index(l, o);
    assert SlotWf(t[i], l);
    if l != level && GetOrSplit(t[i], l, pool).Ok? {
      var c := GetOrSplit(t[i], l, pool).value;
      if t[i].Leaf? { SplitItemsWf(t[i].entry, l); }
      DropPageWf(c.table, l - 1, Rest(l, o), level, c.pool);
    }
  }

  /** Unlinking a table that became empty does not change any lookup. */
  lemma PruneHit(t: seq<Slot>, l: Level, i: nat, page: nat, r: Outcome, w: nat)
    requires |t| == |r.table| == ENTRIES && i < ENTRIES && l > 0 && w < Cover(l)
    ensures LeafAt(Prune(t, i, page, r).table, l, w)
         == if Index(l, w) == i then LeafAt(r.table, l - 1, Rest(l, w)) else LeafAt(t, l, w)
  {
  }

  /** Dropping a page that is mapped by a leaf of exactly that level unmaps it and nothing else. */
  lemma {:induction false} DropPageLookup(t: seq<Slot>, l: Level, o: nat, level: Level, pool: seq<nat>, w: nat)
    requires TableWf(t, l) && o < Cover(l) && w < Cover(l) && level <= l && Multiple(o, level)
    requires LeafAt(t, l, o).Some? && LeafAt(t, l, o).value.level == level
    ensures DropPage(t, l, o, level, pool).error.None?
    ensures LeafAt(DropPage(t, l, o, level, pool).table, l, w)
         == if o <= w < o + Size(level) then None else LeafAt(t, l, w)
    decreases l
  {
    hide Multiple, Size, Cover, Index, Rest;
    Sizes(l);
    var i := Index(l, o);
    if l == level {
      OneSlot(l, o, w);
      LevelBelow(t, l, o);
    } else {
      assert SlotWf(t[i], l);
      InsideSlot(l, level, o, w);
      var page, s := t[i].page, t[i].table;
      var r := DropPage(s, l - 1, Rest(l, o), level, pool);
      DropPageLookup(s, l - 1, Rest(l, o), level, pool, if Index(l, w) == i then Rest(l, w) else Rest(l, o));
      PruneHit(t, l, i, page, r, w);
    }
  }

  lemma {:induction false} LevelBelow(t: seq<Slot>, l: Level, o: nat)
    requires TableWf(t, l) && o < Cover(l) && LeafAt(t, l, o).Some?
    ensures LeafAt(t, l, o).value.level <= l
    ensures LeafAt(t, l, o).value.level == l ==> t[Index(l, o)].Leaf?
    decreases l
  {
    assert SlotWf(t[Index(l, o)], l);
    match t[Index(l, o)]
    case Next(_, s) => LevelBelow(s, l - 1, Rest(l, o));
    case _ =>
  }

  // -------------------------------------------------- shape: no idle tables

  ghost predicate SlotTight(s: Slot, l: Level)
    decreases l, 0
  {
    s.Next? ==> l > 0 && |s.table| == ENTRIES && !IsEmpty(s.table) && Tight(s.table, l - 1)
  }

  /** No table below this one is empty. */
  ghost predicate Tight(t: seq<Slot>, l: Level)
    decreases l, 1
  {
    forall i :: 0 <= i < |t| ==> SlotTight(t[i], l)
  }

  lemma JoinIndex(l: Level, i: nat, r: nat)
    requires i < ENTRIES && r < Size(l)
    ensures Size(l) * i + r < Cover(l)
    ensures Index(l, Size(l) * i + r) == i && Rest(l, Size(l) * i + r) == r
  {
    Sizes(l);
    assert Size(l) * (ENTRIES - 1 - i) >= 0;
    assert Size(l) * (ENTRIES - 1 - i) == Size(l) * ENTRIES - Size(l) - Size(l) * i;
    Bits.ModUnique(Size(l) * i + r, Size(l), i, r);
  }

  /** A tight table that is not empty maps something. */
  lemma {:induction false} MapsSomething(t: seq<Slot>, l: Level) returns (w: nat)
    requires TableWf(t, l) && Tight(t, l) && !IsEmpty(t)
    ensures w < Cover(l) && LeafAt(t, l, w).Some?
    decreases l
  {
    var i :| 0 <= i < |t| && !t[i].Absent?;
    assert SlotWf(t[i], l) && SlotTight(t[i], l);
    var r := 0;
    if t[i].Next? { r := MapsSomething(t[i].table, l - 1); Sizes(l); }
    JoinIndex(l, i, r);
    w := Size(l) * i + r;
  }

  /** Nothing is mapped in the page of size `Size(level)` at `o`. */
  ghost predicate Unmapped(t: seq<Slot>, l: Level, o: nat, level: Level)
    requires |t| == ENTRIES
  {
    forall w :: o <= w < o + Size(level) && w < Cover(l) ==> LeafAt(t, l, w).None?
  }

  lemma UnmappedBelow(t: seq<Slot>, l: Level, o: nat, level: Level)
    requires TableWf(t, l) && o < Cover(l) && level < l && Multiple(o, level) && Unmapped(t, l, o, level)
    requires t[Index(l, o)].Next?
    ensures Unmapped(t[Index(l, o)].table, l - 1, Rest(l, o), level)
  {
    var i := Index(l, o);
    var s, k: Level := t[i].table, l - 1;
    assert SlotWf(t[i], l);
    forall r | Rest(l, o) <= r < Rest(l, o) + Size(level) && r < Cover(k)
      ensures LeafAt(s, k, r).None?
    {
      Sizes(l);
      JoinIndex(l, i, r);
      InsideSlot(l, level, o, Size(l) * i + r);
      assert LeafAt(t, l, Size(l) * i + r).None?;
    }
  }

  lemma TableMaps(t: seq<Slot>, l: Level, i: nat) returns (w: nat)
    requires TableWf(t, l) && Tight(t, l) && i < ENTRIES && t[i].Next?
    ensures w < Cover(l) && Index(l, w) == i && LeafAt(t, l, w).Some?
  {
    assert SlotWf(t[i], l) && SlotTight(t[i], l);
    var r := MapsSomething(t[i].table, l - 1);
    Sizes(l);
    JoinIndex(l, i, r);
    w := Size(l) * i + r;
  }

  lemma NoTableThere(t: seq<Slot>, l: Level, o: nat)
    requires TableWf(t, l) && Tight(t, l) && o < Cover(l) && Multiple(o, l) && Unmapped(t, l, o, l)
    ensures t[Index(l, o)].Absent?
  {
    OneSlot(l, o, o);
    assert LeafAt(t, l, o).None?;
    if t[Index(l, o)].Next? {
      var w := TableMaps(t, l, Index(l, o));
      OneSlot(l, o, w);
    }
  }

  // ------------------------------------------------------ extension of a tree

  ghost predicate SlotExtends(s: Slot, s': Slot, l: Level)
    decreases l, 0
  {
    match s
    case Absent => true
    case Leaf(_) => s' == s
    case Next(page, t) => l > 0 && s'.Next? && s'.page == page && Extends(t, s'.table, l - 1)
  }

  /** Everything in `t` is still in `t'`: the same leaves, and the same tables in the same pages. */
  ghost predicate Extends(t: seq<Slot>, t': seq<Slot>, l: Level)
    decreases l, 1
  {
    |t'| == |t| && forall i :: 0 <= i < |t| ==> SlotExtends(t[i], t'[i], l)
  }

  lemma {:induction false} ExtendsSelf(t: seq<Slot>, l: Level)
    requires TableWf(t, l)
    ensures Extends(t, t, l)
    decreases l
  {
    forall i | 0 <= i < |t|
      ensures SlotExtends(t[i], t[i], l)
    {
      assert SlotWf(t[i], l);
      if t[i].Next? { ExtendsSelf(t[i].table, l - 1); }
    }
  }

  lemma {:induction false} ExtendsTrans(t: seq<Slot>, t': seq<Slot>, t'': seq<Slot>, l: Level)
    requires Extends(t, t', l) && Extends(t', t'', l)
    ensures Extends(t, t'', l)
    decreases l
  {
    forall i | 0 <= i < |t|
      ensures SlotExtends(t[i], t''[i], l)
    {
      assert SlotExtends(t[i], t'[i], l) && SlotExtends(t'[i], t''[i], l);
      if t[i].Next? { ExtendsTrans(t[i].table, t'[i].table, t''[i].table, l - 1); }
    }
  }

  /** An extension without idle tables that maps nothing more is the tree itself. */
  lemma {:induction false} ExtensionIsSame(t: seq<Slot>, t': seq<Slot>, l: Level)
    requires TableWf(t, l) && TableWf(t', l) && Tight(t', l) && Extends(t, t', l)
    requires forall w :: 0 <= w < Cover(l) ==> LeafAt(t', l, w) == LeafAt(t, l, w)
    ensures t' == t
    decreases l
  {
    forall i | 0 <= i < ENTRIES
      ensures t'[i] == t[i]
    {
      SlotIsSame(t, t', l, i);
    }
  }

  lemma {:induction false} SlotIsSame(t: seq<Slot>, t': seq<Slot>, l: Level, i: nat)
    requires TableWf(t, l) && TableWf(t', l) && Tight(t', l) && Extends(t, t', l) && i < ENTRIES
    requires forall w :: 0 <= w < Cover(l) ==> LeafAt(t', l, w) == LeafAt(t, l, w)
    ensures t'[i] == t[i]
    decreases l, 0
  {
    assert SlotWf(t[i], l) && SlotWf(t'[i], l) && SlotTight(t'[i], l) && SlotExtends(t[i], t'[i], l);
    JoinIndex(l, i, 0);
    assert LeafAt(t', l, Size(l) * i) == LeafAt(t, l, Size(l) * i);
    if t'[i].Next? {
      Sizes(l);
      var s', k: Level := t'[i].table, l - 1;
      forall r | 0 <= r < Cover(k)
        ensures LeafAt(s', k, r) == SlotHit(t[i], l, r)
      {
        JoinIndex(l, i, r);
        assert LeafAt(t', l, Size(l) * i + r) == LeafAt(t, l, Size(l) * i + r);
      }
      if t[i].Next? {
        ExtensionIsSame(t[i].table, s', k);
      } else {
        var _ := MapsSomething(s', k);
      }
    }
  }

  // ------------------------------------------------------------ page accounting

  ghost function SlotPages(s: Slot, l: Level): multiset<nat>
    decreases l, 0, 0
  {
    match s
    case Next(page, t) => multiset{page} + (if l == 0 then multiset{} else Pages(t, |t|, l - 1))
    case _ => multiset{}
  }

  /** The pages of all tables below the first `n` slots. */
  ghost function Pages(t: seq<Slot>, n: nat, l: Level): multiset<nat>
    requires n <= |t|
    decreases l, 1, n
  {
    if n == 0 then multiset{} else Pages(t, n - 1, l) + SlotPages(t[n - 1], l)
  }

  ghost function TablePages(t: seq<Slot>, l: Level): multiset<nat> { Pages(t, |t|, l) }

  lemma {:induction false} PagesPrefix(t: seq<Slot>, n: nat, l: Level, i: nat, x: Slot)
    requires n <= i < |t|
    ensures Pages(t[i := x], n, l) == Pages(t, n, l)
  {
    if n == 0 {
    } else {
      PagesPrefix(t, n - 1, l, i, x);
    }
  }

  lemma {:induction false} PagesUpdate(t: seq<Slot>, n: nat, l: Level, i: nat, x: Slot)
    requires i < n <= |t|
    ensures Pages(t[i := x], n, l) + SlotPages(t[i], l) == Pages(t, n, l) + SlotPages(x, l)
  {
    hide SlotPages;
    var t' := t[i := x];
    var a, b := Pages(t, n - 1, l), Pages(t', n - 1, l);
    assert Pages(t', n, l) == b + SlotPages(t'[n - 1], l);
    assert Pages(t, n, l) == a + SlotPages(t[n - 1], l);
    hide Pages;
    if i == n - 1 {
      PagesPrefix(t, n - 1, l, i, x);
    } else {
      PagesUpdate(t, n - 1, l, i, x);
      Swap(b, SlotPages(t[n - 1], l), SlotPages(t[i], l), a, SlotPages(x, l));
    }
  }

  lemma Swap(b: multiset<nat>, y: multiset<nat>, z: multiset<nat>, a: multiset<nat>, w: multiset<nat>)
    requires b + z == a + w
    ensures b + y + z == a + y + w
  {
    assert b + y + z == (b + z) + y;
    assert a + y + w == (a + w) + y;
  }

  lemma {:induction false} PagesNone(t: seq<Slot>, n: nat, l: Level)
    requires n <= |t| && IsEmpty(t)
    ensures Pages(t, n, l) == multiset{}
  {
    if n == 0 {
    } else {
      PagesNone(t, n - 1, l);
    }
  }

  // ------------------------------------ what the operations do to shape and pages

  ghost predicate Conserves(t: seq<Slot>, pool: seq<nat>, r: Outcome, l: Level) {
    TablePages(r.table, l) + multiset(r.pool) == TablePages(t, l) + multiset(pool)
  }

  lemma ExtendsUpdate(t: seq<Slot>, l: Level, i: nat, x: Slot)
    requires TableWf(t, l) && i < ENTRIES && SlotExtends(t[i], x, l)
    ensures Extends(t, t[i := x], l)
  {
    ExtendsSelf(t, l);
    forall j | 0 <= j < ENTRIES
      ensures SlotExtends(t[j], t[i := x][j], l)
    {
      assert SlotExtends(t[j], t[j], l);
    }
  }

  /** What `create_table` hands over is a tight table in which the page is still unmapped. */
  lemma ChildShape(t: seq<Slot>, l: Level, o: nat, level: Level, pool: seq<nat>)
    requires TableWf(t, l) && Tight(t, l) && o < Cover(l) && level < l && Multiple(o, level)
    requires Unmapped(t, l, o, level) && CreateTable(t[Index(l, o)], pool).Ok?
    ensures var c := CreateTable(t[Index(l, o)], pool).value;
      TableWf(c.table, l - 1) && Tight(c.table, l - 1) && Unmapped(c.table, l - 1, Rest(l, o), level)
  {
    var i := Index(l, o);
    assert SlotWf(t[i], l) && SlotTight(t[i], l);
    if t[i].Next? { UnmappedBelow(t, l, o, level); }
  }

  /** Mapping an unmapped page adds no idle table and keeps all tables and leaves. */
  lemma {:induction false} NewPageShape(t: seq<Slot>, l: Level, o: nat, level: Level, leaf: Entry, pool: seq<nat>)
    requires TableWf(t, l) && Tight(t, l) && o < Cover(l) && level <= l && Multiple(o, level)
    requires Unmapped(t, l, o, level) && NewPage(t, l, o, level, leaf, pool).error.None?
    ensures var t' := NewPage(t, l, o, level, leaf, pool).table;
      Tight(t', l) && !IsEmpty(t') && Extends(t, t', l)
    decreases l
  {
    hide Multiple, Size, Cover, Index, Rest;
    Sizes(l);
    var i := Index(l, o);
    assert SlotWf(t[i], l) && SlotTight(t[i], l);
    if l == level {
      NoTableThere(t, l, o);
      ExtendsUpdate(t, l, i, Leaf(leaf));
      assert t[i := Leaf(leaf)][i].Leaf?;
    } else {
      InsideSlot(l, level, o, o);
      ChildShape(t, l, o, level, pool);
      var c := CreateTable(t[i], pool).value;
      var s := NewPage(c.table, l - 1, Rest(l, o), level, leaf, c.pool).table;
      NewPageShape(c.table, l - 1, Rest(l, o), level, leaf, c.pool);
      ExtendsUpdate(t, l, i, Next(c.page, s));
      assert t[i := Next(c.page, s)][i].Next?;
    }
  }

  lemma Balance(p: multiset<nat>, p': multiset<nat>, s: multiset<nat>, x: multiset<nat>,
                q: multiset<nat>, q': multiset<nat>)
    requires p' + s == p + x && x + q' == s + q
    ensures p' + q' == p + q
  {
    forall n: nat
      ensures (p' + q')[n] == (p + q)[n]
    {
      assert (p' + s)[n] == (p + x)[n] && (x + q')[n] == (s + q)[n];
    }
  }

  lemma ChildPages(s: Slot, l: Level, pool: seq<nat>)
    requires l > 0 && CreateTable(s, pool).Ok?
    ensures var c := CreateTable(s, pool).value;
      SlotPages(Next(c.page, c.table), l) + multiset(c.pool) == SlotPages(s, l) + multiset(pool)
  {
    if s.Absent? {
      PoolHead(pool);
      EmptyLink(pool[0], Zeroed(), l);
    }
  }

  lemma PoolHead(pool: seq<nat>)
    requires pool != []
    ensures multiset{pool[0]} + multiset(pool[1..]) == multiset(pool)
  {
    assert pool == [pool[0]] + pool[1..];
  }

  lemma EmptyLink(page: nat, t: seq<Slot>, l: Level)
    requires l > 0 && IsEmpty(t)
    ensures SlotPages(Next(page, t), l) == multiset{page}
  {
    PagesNone(t, |t|, l - 1);
  }

  /** A balance inside a child table is a balance of the link to it. */
  lemma LinkPages(c: Child, r: Outcome, l: Level)
    requires l > 0 && Conserves(c.table, c.pool, r, l - 1)
    ensures SlotPages(Next(c.page, r.table), l) + multiset(r.pool)
         == SlotPages(Next(c.page, c.table), l) + multiset(c.pool)
  {
    var a, b := TablePages(r.table, l - 1), TablePages(c.table, l - 1);
    assert SlotPages(Next(c.page, r.table), l) == multiset{c.page} + a;
    assert SlotPages(Next(c.page, c.table), l) == multiset{c.page} + b;
    assert multiset{c.page} + a + multiset(r.pool) == multiset{c.page} + (a + multiset(r.pool));
  }

  /** Every page `new_page` takes from the allocator ends up in the tree. */
  lemma {:induction false} NewPagePages(t: seq<Slot>, l: Level, o: nat, level: Level, leaf: Entry, pool: seq<nat>)
    requires TableWf(t, l) && Tight(t, l) && o < Cover(l) && level <= l && Multiple(o, level)
    requires Unmapped(t, l, o, level) && NewPage(t, l, o, level, leaf, pool).error.None?
    ensures Conserves(t, pool, NewPage(t, l, o, level, leaf, pool), l)
    decreases l
  {
    hide Multiple, Size, Cover, Index, Rest, Pages;
    Sizes(l);
    var i := Index(l, o);
    var x, q' := Leaf(leaf), pool;
    if l == level {
      NoTableThere(t, l, o);
    } else {
      InsideSlot(l, level, o, o);
      ChildShape(t, l, o, level, pool);
      var c := CreateTable(t[i], pool).value;
      var r := NewPage(c.table, l - 1, Rest(l, o), level, leaf, c.pool);
      NewPagePages(c.table, l - 1, Rest(l, o), level, leaf, c.pool);
      ChildPages(t[i], l, pool);
      LinkPages(c, r, l);
      x, q' := Next(c.page, r.table), r.pool;
    }
    PagesUpdate(t, |t|, l, i, x);
    Balance(TablePages(t, l), TablePages(t[i := x], l), SlotPages(t[i], l), SlotPages(x, l),
            multiset(pool), multiset(q'));
  }

  /** Dropping a mapped page leaves no idle table behind. */
  lemma {:induction false} DropPageShape(t: seq<Slot>, l: Level, o: nat, level: Level, pool: seq<nat>)
    requires TableWf(t, l) && Tight(t, l) && o < Cover(l) && level <= l && Multiple(o, level)
    requires LeafAt(t, l, o).Some? && LeafAt(t, l, o).value.level == level
    ensures Tight(DropPage(t, l, o, level, pool).table, l)
    decreases l
  {
    hide Multiple, Size, Cover, Index, Rest;
    Sizes(l);
    var i := Index(l, o);
    assert SlotWf(t[i], l) && SlotTight(t[i], l);
    if l == level {
      LevelBelow(t, l, o);
    } else {
      InsideSlot(l, level, o, o);
      DropPageLookup(t[i].table, l - 1, Rest(l, o), level, pool, Rest(l, o));
      DropPageShape(t[i].table, l - 1, Rest(l, o), level, pool);
    }
  }

  /** Every table page `drop_page` unlinks goes back to the allocator. */
  lemma {:induction false} DropPagePages(t: seq<Slot>, l: Level, o: nat, level: Level, pool: seq<nat>)
    requires TableWf(t, l) && o < Cover(l) && level <= l && Multiple(o, level)
    requires LeafAt(t, l, o).Some? && LeafAt(t, l, o).value.level == level
    ensures Conserves(t, pool, DropPage(t, l, o, level, pool), l)
    decreases l
  {
    hide Multiple, Size, Cover, Index, Rest, Pages;
    Sizes(l);
    var i := Index(l, o);
    assert SlotWf(t[i], l);
    var x, q' := Absent, pool;
    if l == level {
      LevelBelow(t, l, o);
    } else {
      InsideSlot(l, level, o, o);
      var c := Child(t[i].page, t[i].table, pool);
      var r := DropPage(c.table, l - 1, Rest(l, o), level, pool);
      DropPageLookup(c.table, l - 1, Rest(l, o), level, pool, Rest(l, o));
      DropPagePages(c.table, l - 1, Rest(l, o), level, pool);
      LinkPages(c, r, l);
      if IsEmpty(r.table) {
        EmptyLink(c.page, r.table, l);
        q' := r.pool + [c.page];
        assert multiset(q') == multiset(r.pool) + multiset{c.page};
      } else {
        x, q' := Next(c.page, r.table), r.pool;
      }
    }
    PagesUpdate(t, |t|, l, i, x);
    Balance(TablePages(t, l), TablePages(t[i := x], l), SlotPages(t[i], l), SlotPages(x, l),
            multiset(pool), multiset(q'));
  }

  /** Dropping a page that the smaller tree `t0` does not map keeps all of `t0`. */
  lemma {:induction false} DropPageExtends(t0: seq<Slot>, t: seq<Slot>, l: Level, o: nat, level: Level, pool: seq<nat>)
    requires TableWf(t0, l) && TableWf(t, l) && Tight(t0, l) && Extends(t0, t, l)
    requires o < Cover(l) && level <= l && Multiple(o, level) && LeafAt(t0, l, o).None?
    requires LeafAt(t, l, o).Some? && LeafAt(t, l, o).value.level == level
    ensures Extends(t0, DropPage(t, l, o, level, pool).table, l)
    decreases l
  {
    hide Multiple, Size, Cover, Index, Rest;
    Sizes(l);
    var i := Index(l, o);
    var t' := DropPage(t, l, o, level, pool).table;
    assert SlotWf(t[i], l) && SlotWf(t0[i], l) && SlotTight(t0[i], l) && SlotExtends(t0[i], t[i], l);
    if l == level {
      LevelBelow(t, l, o);
    } else {
      InsideSlot(l, level, o, o);
      DropPageLookup(t[i].table, l - 1, Rest(l, o), level, pool, Rest(l, o));
      if t0[i].Next? {
        DropPageExtends(t0[i].table, t[i].table, l - 1, Rest(l, o), level, pool);
        StaysOccupied(t0[i].table, DropPage(t[i].table, l - 1, Rest(l, o), level, pool).table, l - 1);
      }
    }
    assert SlotExtends(t0[i], t'[i], l);
    forall j | 0 <= j < ENTRIES
      ensures SlotExtends(t0[j], t'[j], l)
    {
      assert SlotExtends(t0[j], t[j], l);
    }
  }

  lemma StaysOccupied(t: seq<Slot>, t': seq<Slot>, l: Level)
    requires Extends(t, t', l) && !IsEmpty(t)
    ensures !IsEmpty(t')
  {
    var j :| 0 <= j < |t| && !t[j].Absent?;
    assert SlotExtends(t[j], t'[j], l);
  }
}
