/** Randomised placement of a child in an address range: numbering every place where it fits. */
module Placement {
  import opened Types
  import opened Bits

  /** Addresses from `start` up to but not including `end`. */
  datatype Span = Span(start: nat, end: nat)

  function Up(x: nat, a: nat): nat
    requires a > 0
  {
    (x + a - 1) / a * a
  }

  function Down(x: nat, a: nat): nat
    requires a > 0
  {
    x / a * a
  }

  /** Children in address order, each starting where the one before has ended or later. */
  ghost predicate Sorted(children: seq<Span>, start: nat, end: nat) {
    if children == [] then start <= end
    else start <= children[0].start <= children[0].end && Sorted(children[1..], children[0].end, end)
  }

  /** The non-empty stretches between children. */
  ghost function Gaps(children: seq<Span>, start: nat, end: nat): seq<Span> {
    if children == [] then if start < end then [Span(start, end)] else []
    else if start < children[0].start then
      [Span(start, children[0].start)] + Gaps(children[1..], children[0].end, end)
    else Gaps(children[1..], children[0].end, end)
  }

  /** How many places the search counts in a gap; the subtraction of the rounded ends wraps. */
  function Room(g: Span, size: nat, a: nat): nat
    requires a > 0
  {
    Counted((Down(g.end, a) - Up(g.start, a)) % WORD, size, a)
  }

  function Counted(d: nat, size: nat, a: nat): nat
    requires a > 0
  {
    if size <= d then (d - size) / a + 1 else 0
  }

  /** The place the search takes for number `n`. */
  ghost function Nth(gs: seq<Span>, size: nat, a: nat, n: nat): Option<nat>
    requires a > 0
  {
    if gs == [] then None
    else if n < Room(gs[0], size, a) then Some(Up(gs[0].start, a) + n * a)
    else Nth(gs[1..], size, a, n - Room(gs[0], size, a))
  }

  ghost function Total(gs: seq<Span>, size: nat, a: nat): nat
    requires a > 0
  {
    if gs == [] then 0 else Room(gs[0], size, a) + Total(gs[1..], size, a)
  }

  ghost predicate Clear(children: seq<Span>, x: nat, size: nat) {
    forall i :: 0 <= i < |children| ==> x + size <= children[i].start || children[i].end <= x
  }

  /** An aligned address where `size` bytes lie in the range and overlap no child. */
  ghost predicate Fits(children: seq<Span>, range: Span, size: nat, a: nat, x: nat)
    requires a > 0
  {
    x % a == 0 && range.start <= x && x + size <= range.end && Clear(children, x, size)
  }

  // ----- rounding -----

  lemma MulMono(a: nat, x: int, y: int)
    requires a > 0
    ensures x <= y <==> a * x <= a * y
  {
    var d := y - x;
    assert a * y == a * x + a * d;
    if d >= 0 { assert a * d >= 0; } else { assert a * d < 0; }
  }

  /** Rounded addresses in multiples of the alignment. */
  ghost function UpIn(x: nat, a: nat): nat
    requires a > 0
  {
    (x + a - 1) / a
  }

  ghost function DownIn(x: nat, a: nat): nat
    requires a > 0
  {
    x / a
  }

  lemma Rounded(g: Span, a: nat)
    requires a > 0
    ensures Up(g.start, a) == a * UpIn(g.start, a) && Down(g.end, a) == a * DownIn(g.end, a)
  {
  }

  lemma UpLeast(x: nat, a: nat, y: nat)
    requires a > 0
    ensures x <= a * y <==> UpIn(x, a) <= y
  {
    var q, r := (x + a - 1) / a, (x + a - 1) % a;
    assert x + a - 1 == a * q + r;
    MulMono(a, q, y);
    MulMono(a, y + 1, q);
    assert a * (y + 1) == a * y + a;
  }

  lemma DownMost(x: nat, a: nat, y: nat)
    requires a > 0
    ensures a * y <= x <==> y <= DownIn(x, a)
  {
    var q, r := x / a, x % a;
    assert x == a * q + r;
    MulMono(a, y, q);
    MulMono(a, q + 1, y);
    assert a * (q + 1) == a * q + a;
  }

  /** Some aligned address lies in the gap or at its end. */
  ghost predicate Good(g: Span, a: nat)
    requires a > 0
  {
    UpIn(g.start, a) <= DownIn(g.end, a)
  }

  ghost predicate GapOk(g: Span, size: nat, a: nat, k: nat) {
    0 < a && 0 < k && size == a * k && g.start <= g.end < WORD && size + a <= WORD
  }

  /** How many aligned places there are in a gap. */
  ghost function TrueRoom(g: Span, a: nat, k: nat): nat
    requires a > 0
  {
    if UpIn(g.start, a) + k <= DownIn(g.end, a) then DownIn(g.end, a) - UpIn(g.start, a) - k + 1 else 0
  }

  lemma CountedExact(a: nat, m: nat, k: nat)
    requires a > 0
    ensures Counted(a * m, a * k, a) == if k <= m then m - k + 1 else 0
  {
    MulMono(a, k, m);
    if k <= m {
      assert a * m - a * k == a * (m - k);
      ModUnique(a * (m - k), a, m - k, 0);
    }
  }

  lemma CountedAbove(d: nat, size: nat, a: nat, n: nat)
    requires a > 0 && size + a * n <= d
    ensures n < Counted(d, size, a)
  {
    DownMost(d - size, a, n);
  }

  lemma Distribute(a: nat, u: nat, v: nat)
    requires u <= v
    ensures a * v - a * u == a * (v - u) && 0 <= a * (v - u) <= a * v
  {
    MulLe(a, u, v);
    MulLe(a, 0, u);
  }

  lemma RoomGood(g: Span, size: nat, a: nat, k: nat)
    requires GapOk(g, size, a, k) && Good(g, a)
    ensures Room(g, size, a) == TrueRoom(g, a, k)
  {
    hide UpIn, DownIn, Up, Down, Counted;
    var u, v := UpIn(g.start, a), DownIn(g.end, a);
    Rounded(g, a);
    Distribute(a, u, v);
    DownMost(g.end, a, v);
    Unwrapped(a * (v - u));
    CountedExact(a, v - u, k);
  }

  /** A gap without an aligned address spans less than one multiple. */
  lemma BadEnds(g: Span, a: nat)
    requires a > 0 && g.start <= g.end && !Good(g, a)
    ensures Up(g.start, a) == Down(g.end, a) + a && Down(g.end, a) == a * DownIn(g.end, a)
  {
    hide UpIn, DownIn, Up, Down;
    var v := DownIn(g.end, a);
    UpLeast(g.start, a, v + 1);
    DownMost(g.end, a, v + 1);
    Rounded(g, a);
    assert a * (v + 1) == a * v + a;
  }

  lemma RoomBad(g: Span, size: nat, a: nat, k: nat)
    requires GapOk(g, size, a, k) && !Good(g, a)
    ensures Room(g, size, a) == Counted(WORD - a, size, a) > 0 && TrueRoom(g, a, k) == 0
  {
    hide UpIn, DownIn, Up, Down, Counted;
    BadEnds(g, a);
    Wrapped(a);
    CountedAbove(WORD - a, size, a, 0);
  }

  lemma Wrapped(a: nat)
    requires 0 < a <= WORD
    ensures (0 - a) % WORD == WORD - a
  {
  }

  lemma Unwrapped(x: nat)
    requires x < WORD
    ensures x % WORD == x
  {
  }

  ghost predicate AllOk(gs: seq<Span>, size: nat, a: nat, k: nat) {
    forall i :: 0 <= i < |gs| ==> GapOk(gs[i], size, a, k)
  }

  ghost predicate AllGood(gs: seq<Span>, a: nat)
    requires a > 0
  {
    forall i :: 0 <= i < |gs| ==> Good(gs[i], a)
  }

  ghost function TrueTotal(gs: seq<Span>, a: nat, k: nat): nat
    requires a > 0
  {
    if gs == [] then 0 else TrueRoom(gs[0], a, k) + TrueTotal(gs[1..], a, k)
  }

  /** The count is the number of places exactly when no gap lacks an aligned address. */
  lemma {:induction false} CountExact(gs: seq<Span>, size: nat, a: nat, k: nat)
    requires a > 0 && AllOk(gs, size, a, k)
    ensures Total(gs, size, a) >= TrueTotal(gs, a, k)
    ensures Total(gs, size, a) == TrueTotal(gs, a, k) <==> AllGood(gs, a)
  {
    hide Room, TrueRoom, Good, GapOk;
    if gs == [] {
    } else {
      CountExact(gs[1..], size, a, k);
      if Good(gs[0], a) { RoomGood(gs[0], size, a, k); } else { RoomBad(gs[0], size, a, k); }
      assert AllGood(gs, a) <==> Good(gs[0], a) && AllGood(gs[1..], a) by {
        forall i | 0 < i < |gs|
          ensures gs[i] == gs[1..][i - 1]
        {
        }
      }
    }
  }

  // ----- the numbering -----

  ghost predicate Inside(g: Span, x: nat, size: nat) {
    g.start <= x && x + size <= g.end
  }

  ghost predicate InGaps(gs: seq<Span>, x: nat, size: nat) {
    gs != [] && (Inside(gs[0], x, size) || InGaps(gs[1..], x, size))
  }

  /** Gaps lie one after another, from `lo` on. */
  ghost predicate Ordered(gs: seq<Span>, lo: nat) {
    gs == [] || (lo <= gs[0].start <= gs[0].end && Ordered(gs[1..], gs[0].end))
  }

  lemma {:induction false} NthInRange(gs: seq<Span>, size: nat, a: nat, n: nat)
    requires a > 0
    ensures Nth(gs, size, a, n).Some? <==> n < Total(gs, size, a)
  {
    if gs != [] && n >= Room(gs[0], size, a) { NthInRange(gs[1..], size, a, n - Room(gs[0], size, a)); }
  }

  lemma Sum(a: nat, x: nat, y: nat)
    ensures a * (x + y) == a * x + y * a == a * x + a * y
  {
  }

  /** The `n`-th place of one gap, in multiples of the alignment. */
  lemma PlaceInGap(g: Span, size: nat, a: nat, k: nat, n: nat)
    requires GapOk(g, size, a, k) && Good(g, a) && n < Room(g, size, a)
    ensures var x := Up(g.start, a) + n * a; x % a == 0 && Inside(g, x, size)
  {
    RoomGood(g, size, a, k);
    hide UpIn, DownIn, Up, Down, Room;
    var u := UpIn(g.start, a);
    var y := u + n;
    Rounded(g, a);
    Sum(a, u, n);
    Sum(a, y, k);
    UpLeast(g.start, a, y);
    DownMost(g.end, a, y + k);
    ModUnique(a * y, a, y, 0);
  }

  /** Every aligned address in a gap has its number. */
  lemma NumberInGap(g: Span, size: nat, a: nat, k: nat, x: nat) returns (n: nat)
    requires GapOk(g, size, a, k) && x % a == 0 && Inside(g, x, size)
    ensures n < Room(g, size, a) && Up(g.start, a) + n * a == x
  {
    hide UpIn, DownIn, Up, Down, Room;
    var u, y := UpIn(g.start, a), x / a;
    Rounded(g, a);
    assert x == a * y;
    UpLeast(g.start, a, y);
    Sum(a, y, k);
    DownMost(g.end, a, y + k);
    RoomGood(g, size, a, k);
    n := y - u;
    Sum(a, u, n);
  }

  lemma {:induction false} NthFits(gs: seq<Span>, size: nat, a: nat, k: nat, n: nat)
    requires a > 0 && AllOk(gs, size, a, k) && AllGood(gs, a) && n < Total(gs, size, a)
    ensures Nth(gs, size, a, n).Some?
    ensures Nth(gs, size, a, n).value % a == 0 && InGaps(gs, Nth(gs, size, a, n).value, size)
  {
    hide Room, Good, GapOk, Up;
    if n < Room(gs[0], size, a) {
      PlaceInGap(gs[0], size, a, k, n);
    } else {
      NthFits(gs[1..], size, a, k, n - Room(gs[0], size, a));
    }
  }

  lemma {:induction false} NthCovers(gs: seq<Span>, size: nat, a: nat, k: nat, x: nat) returns (n: nat)
    requires a > 0 && AllOk(gs, size, a, k) && x % a == 0 && InGaps(gs, x, size)
    ensures n < Total(gs, size, a) && Nth(gs, size, a, n) == Some(x)
  {
    hide Room, Good, GapOk, Up;
    if Inside(gs[0], x, size) {
      n := NumberInGap(gs[0], size, a, k, x);
    } else {
      n := NthCovers(gs[1..], size, a, k, x);
      n := n + Room(gs[0], size, a);
    }
  }

  lemma {:induction false} InGapsFrom(gs: seq<Span>, lo: nat, x: nat, size: nat)
    requires Ordered(gs, lo) && InGaps(gs, x, size)
    ensures lo <= x
  {
    if Inside(gs[0], x, size) {
    } else {
      InGapsFrom(gs[1..], gs[0].end, x, size);
    }
  }

  /** Greater numbers mean higher addresses, so no place has two numbers. */
  lemma {:induction false} NthIncreases(gs: seq<Span>, lo: nat, size: nat, a: nat, k: nat, m: nat, n: nat)
    requires a > 0 && AllOk(gs, size, a, k) && AllGood(gs, a) && Ordered(gs, lo) && m < n < Total(gs, size, a)
    ensures Nth(gs, size, a, m).Some? && Nth(gs, size, a, n).Some?
    ensures Nth(gs, size, a, m).value < Nth(gs, size, a, n).value
  {
    hide Room, Good, Up;
    NthFits(gs, size, a, k, m);
    NthFits(gs, size, a, k, n);
    var r := Room(gs[0], size, a);
    if n < r {
      MulMono(a, n, m);
      assert n * a == a * n && m * a == a * m;
    } else if m < r {
      PlaceInGap(gs[0], size, a, k, m);
      NthFits(gs[1..], size, a, k, n - r);
      InGapsFrom(gs[1..], gs[0].end, Nth(gs, size, a, n).value, size);
      MulMono(a, 1, k);
    } else {
      NthIncreases(gs[1..], gs[0].end, size, a, k, m - r, n - r);
    }
  }

  // ----- gaps and children -----

  lemma {:induction false} GapsAreGaps(children: seq<Span>, start: nat, end: nat, x: nat, size: nat)
    requires Sorted(children, start, end) && size > 0
    ensures InGaps(Gaps(children, start, end), x, size)
        <==> start <= x && x + size <= end && Clear(children, x, size)
    decreases |children|
  {
    if children == [] {
      var gs := Gaps(children, start, end);
      assert start < end ==> gs[0] == Span(start, end) && gs[1..] == [];
    } else {
      var c, rest := children[0], children[1..];
      GapsAreGaps(rest, c.end, end, x, size);
      assert Clear(children, x, size) <==> (x + size <= c.start || c.end <= x) && Clear(rest, x, size) by {
        assert forall i :: 0 < i < |children| ==> children[i] == rest[i - 1];
      }
      if x + size <= c.start { ClearBefore(rest, c.end, end, x, size); }
      SortedEnds(rest, c.end, end);
      var gs := Gaps(children, start, end);
      if start < c.start { assert gs[0] == Span(start, c.start) && gs[1..] == Gaps(rest, c.end, end); }
    }
  }

  lemma {:induction false} SortedEnds(children: seq<Span>, start: nat, end: nat)
    requires Sorted(children, start, end)
    ensures start <= end
  {
    if children == [] {
    } else {
      SortedEnds(children[1..], children[0].end, end);
    }
  }

  lemma {:induction false} ClearBefore(children: seq<Span>, start: nat, end: nat, x: nat, size: nat)
    requires Sorted(children, start, end) && x + size <= start
    ensures Clear(children, x, size)
  {
    if children == [] {
    } else {
      ClearBefore(children[1..], children[0].end, end, x, size);
      assert forall i :: 0 < i < |children| ==> children[i] == children[1..][i - 1];
    }
  }

  lemma {:induction false} GapsOrdered(children: seq<Span>, start: nat, end: nat, lo: nat)
    requires Sorted(children, start, end) && lo <= start
    ensures Ordered(Gaps(children, start, end), lo)
    decreases |children|
  {
    if children == [] {
    } else {
      var c := children[0];
      if start < c.start {
        GapsOrdered(children[1..], c.end, end, c.start);
        assert Gaps(children, start, end)[1..] == Gaps(children[1..], c.end, end);
      } else {
        GapsOrdered(children[1..], c.end, end, lo);
      }
    }
  }

  /** What the search is asked: a padded size and an alignment that do not overflow an address. */
  ghost predicate Asked(children: seq<Span>, range: Span, size: nat, a: nat, k: nat) {
    && 0 < a && 0 < k && size == a * k && size + a <= WORD
    && Sorted(children, range.start, range.end) && range.end < WORD
  }

  lemma {:induction false} GapsOk(children: seq<Span>, start: nat, end: nat, size: nat, a: nat, k: nat)
    requires Asked(children, Span(start, end), size, a, k)
    ensures AllOk(Gaps(children, start, end), size, a, k)
    decreases |children|
  {
    if children == [] {
    } else {
      var c := children[0];
      GapsOk(children[1..], c.end, end, size, a, k);
      SortedEnds(children[1..], c.end, end);
    }
  }

  /** A whole-page alignment among page-aligned children leaves no gap without an aligned address. */
  lemma {:induction false} AlignedGapsGood(children: seq<Span>, start: nat, end: nat, a: nat)
    requires a > 0 && Sorted(children, start, end) && start % a == 0 && end % a == 0
    requires forall i :: 0 <= i < |children| ==> children[i].start % a == 0 && children[i].end % a == 0
    ensures AllGood(Gaps(children, start, end), a)
    decreases |children|
  {
    if children == [] {
      if start < end { GoodEnds(Span(start, end), a); }
    } else {
      var c := children[0];
      AlignedGapsGood(children[1..], c.end, end, a);
      if start < c.start { GoodEnds(Span(start, c.start), a); }
    }
  }

  lemma GoodEnds(g: Span, a: nat)
    requires a > 0 && g.start <= g.end && g.start % a == 0
    ensures Good(g, a)
  {
    var q := g.start / a;
    assert a * q == g.start;
    UpLeast(g.start, a, q);
    DownMost(g.end, a, q);
  }

  // ----- the search -----

  /** The search as it loops over the children, counting down the number it was given. */
  method TryFindAlloc(children: seq<Span>, range: Span, size: nat, a: nat, number: nat)
    returns (ret: Option<nat>, cnt: nat)
    requires a > 0
    ensures ret == Nth(Gaps(children, range.start, range.end), size, a, number)
    ensures ret.None? ==> cnt == Total(Gaps(children, range.start, range.end), size, a)
  {
    hide Room, Up, Gaps, Nth, Total;
    cnt := 0;
    var n: nat, start: nat := number, range.start;
    ghost var gs := Gaps(children, range.start, range.end);
    assert children[0..] == children;
    for i := 0 to |children|
      invariant Nth(gs, size, a, number) == Nth(Gaps(children[i..], start, range.end), size, a, n)
      invariant Total(gs, size, a) == cnt + Total(Gaps(children[i..], start, range.end), size, a)
    {
      var c := children[i];
      NextGap(children, i, start, range.end);
      if start < c.start {
        FirstGap(Span(start, c.start), Gaps(children[i + 1..], c.end, range.end), size, a, n);
        var room := Room(Span(start, c.start), size, a);
        cnt := cnt + room;
        if n < room { return Some(Up(start, a) + n * a), cnt; }
        n := n - room;
      }
      start := c.end;
    }
    ret := None;
    LastGap(start, range.end, size, a, n);
    assert children[|children|..] == [];
    if start < range.end {
      var room := Room(Span(start, range.end), size, a);
      cnt := cnt + room;
      if n < room { ret := Some(Up(start, a) + n * a); }
    }
  }

  lemma NextGap(children: seq<Span>, i: nat, start: nat, end: nat)
    requires i < |children|
    ensures Gaps(children[i..], start, end)
         == (if start < children[i].start then [Span(start, children[i].start)] else [])
            + Gaps(children[i + 1..], children[i].end, end)
    ensures start >= children[i].start ==>
      Gaps(children[i..], start, end) == Gaps(children[i + 1..], children[i].end, end)
  {
    assert children[i..][0] == children[i] && children[i..][1..] == children[i + 1..];
  }

  lemma LastGap(start: nat, end: nat, size: nat, a: nat, n: nat)
    requires a > 0
    ensures start >= end ==> Nth(Gaps([], start, end), size, a, n) == None && Total(Gaps([], start, end), size, a) == 0
    ensures start < end ==> Total(Gaps([], start, end), size, a) == Room(Span(start, end), size, a)
    ensures start < end ==>
      Nth(Gaps([], start, end), size, a, n)
      == if n < Room(Span(start, end), size, a) then Some(Up(start, a) + n * a) else None
  {
    if start < end {
      FirstGap(Span(start, end), [], size, a, n);
      assert [Span(start, end)] + [] == Gaps([], start, end);
    }
  }

  lemma FirstGap(g: Span, gs: seq<Span>, size: nat, a: nat, n: nat)
    requires a > 0
    ensures Total([g] + gs, size, a) == Room(g, size, a) + Total(gs, size, a)
    ensures Nth([g] + gs, size, a, n)
         == if n < Room(g, size, a) then Some(Up(g.start, a) + n * a) else Nth(gs, size, a, n - Room(g, size, a))
  {
    assert ([g] + gs)[1..] == gs;
  }

  /** Some number below the count stands for `x`. */
  ghost predicate Numbered(gs: seq<Span>, size: nat, a: nat, x: nat)
    requires a > 0
  {
    exists n: nat :: n < Total(gs, size, a) && Nth(gs, size, a, n) == Some(x)
  }

  /** Larger numbers stand for larger addresses. */
  ghost predicate Increasing(gs: seq<Span>, size: nat, a: nat)
    requires a > 0
  {
    forall m: nat, n: nat | m < n < Total(gs, size, a) ::
      && Nth(gs, size, a, m).Some? && Nth(gs, size, a, n).Some?
      && Nth(gs, size, a, m).value < Nth(gs, size, a, n).value
  }

  /**
   A number finds an address exactly when it is below the count, and every place where the child fits has
   a number; if no gap lacks an aligned address, the numbers name nothing else, in address order.
   */
  lemma PlacesAreNumbered(children: seq<Span>, range: Span, size: nat, a: nat, k: nat)
    requires Asked(children, range, size, a, k)
    ensures var gs := Gaps(children, range.start, range.end);
      && (forall n: nat :: Nth(gs, size, a, n).Some? <==> n < Total(gs, size, a))
      && (forall x: nat | Fits(children, range, size, a, x) :: Numbered(gs, size, a, x))
      && (AllGood(gs, a) ==>
            forall n: nat | n < Total(gs, size, a) :: Fits(children, range, size, a, Nth(gs, size, a, n).value))
      && (AllGood(gs, a) ==> Increasing(gs, size, a))
  {
    hide Gaps, Nth, Total, Good, InGaps;
    var gs := Gaps(children, range.start, range.end);
    GapsOk(children, range.start, range.end, size, a, k);
    GapsOrdered(children, range.start, range.end, 0);
    assert size > 0 by { MulMono(a, 1, k); }
    forall n: nat
      ensures Nth(gs, size, a, n).Some? <==> n < Total(gs, size, a)
      ensures AllGood(gs, a) && n < Total(gs, size, a) ==> Fits(children, range, size, a, Nth(gs, size, a, n).value)
    {
      NthInRange(gs, size, a, n);
      if AllGood(gs, a) && n < Total(gs, size, a) {
        NthFits(gs, size, a, k, n);
        GapsAreGaps(children, range.start, range.end, Nth(gs, size, a, n).value, size);
      }
    }
    if AllGood(gs, a) { NumbersIncrease(gs, size, a, k); }
    forall x: nat | Fits(children, range, size, a, x)
      ensures Numbered(gs, size, a, x)
    {
      GapsAreGaps(children, range.start, range.end, x, size);
      var n := NthCovers(gs, size, a, k, x);
    }
  }

  lemma NumbersIncrease(gs: seq<Span>, size: nat, a: nat, k: nat)
    requires a > 0 && AllOk(gs, size, a, k) && AllGood(gs, a) && Ordered(gs, 0)
    ensures Increasing(gs, size, a)
  {
    forall m: nat, n: nat | m < n < Total(gs, size, a)
      ensures Nth(gs, size, a, m).Some? && Nth(gs, size, a, n).Some?
      ensures Nth(gs, size, a, m).value < Nth(gs, size, a, n).value
    {
      NthInRange(gs, size, a, m);
      NthInRange(gs, size, a, n);
      NthIncreases(gs, 0, size, a, k, m, n);
    }
  }

  datatype Outcome = Found(base: nat) | DividesByZero

  /**
   Two attempts with random numbers; the second is reduced by the count the first one returned. An address
   is answered exactly when one exists or some gap lacks an aligned address, and in no other case is it wrong.
   */
  method FindAlloc(children: seq<Span>, range: Span, size: nat, a: nat, ghost k: nat, first: nat, second: nat)
    returns (r: Outcome)
    requires Asked(children, range, size, a, k)
    ensures var good := AllGood(Gaps(children, range.start, range.end), a);
      && (r.Found? <==> !good || exists x: nat :: Fits(children, range, size, a, x))
      && (r.Found? && good ==> Fits(children, range, size, a, r.base))
  {
    hide Gaps, Nth, Total, Good, Fits;
    PlacesAreNumbered(children, range, size, a, k);
    GapsOk(children, range.start, range.end, size, a, k);
    CountExact(Gaps(children, range.start, range.end), size, a, k);
    var ret, cnt := TryFindAlloc(children, range, size, a, first);
    if ret.Some? { return Found(ret.value); }
    if cnt == 0 { return DividesByZero; }
    var again, total := TryFindAlloc(children, range, size, a, second % cnt);
    r := Found(again.value);
  }

  // ----- larger alignments -----

  /** A gap without an aligned address offers numbers for addresses beyond the whole range. */
  lemma BadPlace(g: Span, size: nat, a: nat, k: nat, limit: nat) returns (n: nat)
    requires GapOk(g, size, a, k) && !Good(g, a) && g.end <= limit && limit + size + a < WORD
    ensures n < Room(g, size, a) && limit < Up(g.start, a) + n * a < WORD
  {
    RoomBad(g, size, a, k);
    BadEnds(g, a);
    hide UpIn, DownIn, Up, Down, Counted, Room;
    var v, y := DownIn(g.end, a), DownIn(limit, a);
    DownMost(g.end, a, v);
    DownMost(limit, a, v);
    DownMost(limit, a, y);
    DownMost(limit, a, y + 1);
    n := y - v;
    Sum(a, y, 1);
    Sum(a, v, n);
    CountedAbove(WORD - a, size, a, n);
  }

  lemma {:induction false} BadNumber(gs: seq<Span>, size: nat, a: nat, k: nat, limit: nat) returns (n: nat)
    requires a > 0 && AllOk(gs, size, a, k) && !AllGood(gs, a) && limit + size + a < WORD
    requires forall i :: 0 <= i < |gs| ==> gs[i].end <= limit
    ensures n < Total(gs, size, a) && Nth(gs, size, a, n).Some? && limit < Nth(gs, size, a, n).value < WORD
  {
    hide Room, Up, Good, GapOk;
    if Good(gs[0], a) {
      assert forall i :: 0 < i < |gs| ==> gs[i] == gs[1..][i - 1];
      n := BadNumber(gs[1..], size, a, k, limit);
      n := n + Room(gs[0], size, a);
    } else {
      n := BadPlace(gs[0], size, a, k, limit);
    }
  }

  lemma {:induction false} GapsBelow(children: seq<Span>, start: nat, end: nat)
    requires Sorted(children, start, end)
    ensures forall i :: 0 <= i < |Gaps(children, start, end)| ==> Gaps(children, start, end)[i].end <= end
    decreases |children|
  {
    if children == [] {
    } else {
      GapsBelow(children[1..], children[0].end, end);
      SortedEnds(children[1..], children[0].end, end);
    }
  }

  /**
   For any alignment: every number below the count names a place where the child fits if and only if no
   gap lacks an aligned address.
   */
  lemma NumbersFitIffGood(children: seq<Span>, range: Span, size: nat, a: nat, k: nat)
    requires Asked(children, range, size, a, k) && range.end + size + a < WORD
    ensures var gs := Gaps(children, range.start, range.end);
      (forall n: nat | n < Total(gs, size, a) ::
         Nth(gs, size, a, n).Some? && Fits(children, range, size, a, Nth(gs, size, a, n).value))
      <==> AllGood(gs, a)
  {
    hide Gaps, Nth, Total, Good;
    var gs := Gaps(children, range.start, range.end);
    GapsOk(children, range.start, range.end, size, a, k);
    GapsBelow(children, range.start, range.end);
    if AllGood(gs, a) {
      PlacesAreNumbered(children, range, size, a, k);
    } else {
      var n := BadNumber(gs, size, a, k, range.end);
    }
  }

  /** With an alignment above a page, one small gap makes the search answer an address outside the range. */
  lemma SmallGapMisleads(children: seq<Span>)
    requires children == [Span(0, 0x1000)]
    ensures Nth(Gaps(children, 0, 0x2000), 0x4000, 0x4000, 0) == Some(0x4000)
    ensures forall x: nat :: !Fits(children, Span(0, 0x2000), 0x4000, 0x4000, x)
  {
    assert children[1..] == [];
    assert Gaps(children, 0, 0x2000) == [Span(0x1000, 0x2000)];
  }
}
