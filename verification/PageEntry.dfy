/**
 Page-table levels, attributes and 64-bit entries.  An entry is kept as its bits
 12..47 read as a frame number and its remaining flag bits; bit 12 doubles as the
 `LARGE_PAT` attribute and as the lowest frame bit, as in the source.
 */
module PageEntry {
  import opened Types
  import Bits

  const PAGE: nat := 0x1000
  const ENTRIES: nat := 512
  const FRAMES: nat := 0x10_0000_0000          // frame numbers of 48-bit addresses
  const CANON: nat := 0x1_0000_0000_0000       // 2^48

  /** 0 = PT, 1 = PD, 2 = PDP, 3 = P4. */
  type Level = l: nat | l <= 3

  function Size(l: Level): (s: nat)
    ensures s >= PAGE
  {
    match l
    case 0 => 0x1000
    case 1 => 0x20_0000
    case 2 => 0x4000_0000
    case 3 => 0x80_0000_0000
  }

  /** Frames per page of a level. */
  function Span(l: Level): (s: nat)
    ensures s >= 1
  {
    match l
    case 0 => 1
    case 1 => 512
    case 2 => 0x4_0000
    case 3 => 0x800_0000
  }

  predicate Multiple(x: nat, l: Level) {
    match l
    case 0 => x % 0x1000 == 0
    case 1 => x % 0x20_0000 == 0
    case 2 => x % 0x4000_0000 == 0
    case 3 => x % 0x80_0000_0000 == 0
  }

  lemma MultipleDown(x: nat, l: Level, m: Level)
    requires m <= l && Multiple(x, l)
    ensures Multiple(x, m)
  {
    if m == l {
    } else {
      match l {
        case 1 => MultipleOf(x, 0x20_0000, 0x1000, 512);
        case 2 => MultipleOf(x, 0x4000_0000, 0x20_0000, 512);
        case 3 => MultipleOf(x, 0x80_0000_0000, 0x4000_0000, 512);
      }
      MultipleDown(x, l - 1, m);
    }
  }

  lemma MultipleOf(x: nat, d: nat, e: nat, k: nat)
    requires e > 0 && d == e * k && d > 0 && x % d == 0
    ensures x % e == 0
  {
    var q := x / d;
    assert x == e * (k * q) by {
      assert x == d * q;
      assert e * k * q == e * (k * q);
    }
    Bits.ModUnique(x, e, k * q, 0);
  }

  function Fit(val: nat): (r: Option<Level>)
    ensures r.Some? ==> r.value <= 2 && Multiple(val, r.value)
    ensures val % PAGE == 0 ==> r.Some?
  {
    if val % 0x4000_0000 == 0 then Some(2)
    else if val % 0x20_0000 == 0 then Some(1)
    else if val % 0x1000 == 0 then Some(0)
    else None
  }

  function Min(a: Level, b: Level): Level { if a <= b then a else b }

  predicate PageAligned(x: nat) { x % PAGE == 0 }

  /** The largest page that the start, the length and the physical start all allow. */
  function FitAll(start: nat, end: nat, phys: nat): (l: Level)
    requires start <= end && PageAligned(start) && PageAligned(end - start) && PageAligned(phys)
    ensures l <= 2 && Multiple(start, l) && Multiple(end - start, l) && Multiple(phys, l)
  {
    var a, b, c := Fit(start).value, Fit(end - start).value, Fit(phys).value;
    var l := Min(Min(a, b), c);
    MultipleDown(start, a, l);
    MultipleDown(end - start, b, l);
    MultipleDown(phys, c, l);
    l
  }

  lemma FitLargest(val: nat, m: Level)
    requires m <= 2 && Multiple(val, m)
    ensures Fit(val).Some? && m <= Fit(val).value
  {
    MultipleDown(val, m, 0);
  }

  /** No larger page is allowed by all three. */
  lemma FitAllLargest(start: nat, end: nat, phys: nat, m: Level)
    requires start <= end && PageAligned(start) && PageAligned(end - start) && PageAligned(phys)
    requires m <= 2 && Multiple(start, m) && Multiple(end - start, m) && Multiple(phys, m)
    ensures m <= FitAll(start, end, phys)
  {
    FitLargest(start, m);
    FitLargest(end - start, m);
    FitLargest(phys, m);
  }

  /** `other` holds the bits no operation here looks at (3-6 and 8-11). */
  datatype Attr = Attr(
    present: bool, writable: bool, user: bool, large: bool, largePat: bool, noExec: bool, other: nat)

  const INTERMEDIATE := Attr(true, true, true, false, false, false, 0)

  /** `large` is bit 7: "large page" above the lowest level, `PAT` in a caller's attributes. */
  function LeafAttr(l: Level, a: Attr): Attr {
    if l == 0 then a.(present := true)
    else a.(present := true, large := true, largePat := a.largePat || a.large)
  }

  datatype Entry = Entry(frame: nat, attr: Attr)

  /** Frame bits that level `l` keeps. */
  function MaskFrame(frame: nat, l: Level): (f: nat)
    ensures f <= frame
  {
    match l
    case 0 => frame
    case 1 => frame - frame % 512
    case 2 => frame - frame % 0x4_0000
    case 3 => frame - frame % 0x800_0000
  }

  function NewEntry(phys: nat, a: Attr, l: Level): Entry {
    var f := MaskFrame((phys / PAGE) % FRAMES, l);
    Entry(OrBit(f, a.largePat), a.(largePat := false))
  }

  function PhysOf(e: Entry, l: Level): nat { MaskFrame(e.frame, l) * PAGE }

  function AttrOf(e: Entry): Attr { e.attr.(largePat := e.frame % 2 == 1) }

  predicate IsLeaf(e: Entry, l: Level) { e.attr.present && (l == 0 || e.attr.large) }

  predicate HasTable(e: Entry, l: Level) { e.attr.present && l != 0 && !e.attr.large }

  /** Write, user and execute rights agree. */
  predicate SameRights(a: Attr, b: Attr) {
    a.writable == b.writable && a.user == b.user && a.noExec == b.noExec
  }

  /** How far `LARGE_PAT` moves the target of a page: bit 12 is a frame bit of a 4 KiB page. */
  function PatShift(phys: nat, a: Attr, l: Level): nat {
    if l == 0 && a.largePat && (phys / PAGE) % 2 == 0 then PAGE else 0
  }

  /**
   The rights survive the trip through an entry, and so does an aligned address below 2^48, except
   that `LARGE_PAT` on a 4 KiB page with an even frame moves it to the next page.
   */
  lemma EntryRoundTrip(phys: nat, a: Attr, l: Level)
    requires phys < CANON && Multiple(phys, l)
    ensures IsLeaf(NewEntry(phys, LeafAttr(l, a), l), l)
    ensures SameRights(AttrOf(NewEntry(phys, LeafAttr(l, a), l)), a)
    ensures PhysOf(NewEntry(phys, LeafAttr(l, a), l), l) == phys + PatShift(phys, a, l)
  {
    var f := phys / PAGE;
    MultipleDown(phys, l, 0);
    assert phys == f * PAGE;
    MaskOfMultiple(phys, f, l);
    assert f % FRAMES == f by { Bits.ModUnique(f, FRAMES, 0, f); }
    hide MaskFrame, Multiple;
  }

  /**
   The cache type survives: above the lowest level `PAT` moves to bit 12, its own bit saying that the page is
   large; at the lowest level bit 12 is a frame bit, and reads back as one.
   */
  lemma EntryKeepsCache(phys: nat, a: Attr, l: Level)
    requires phys < CANON && Multiple(phys, l)
    ensures var b := AttrOf(NewEntry(phys, LeafAttr(l, a), l));
      && b.other == a.other && b.large == (l > 0 || a.large)
      && b.largePat == if l > 0 then a.largePat || a.large else a.largePat || (phys / PAGE) % 2 == 1
  {
    var f, x := phys / PAGE, LeafAttr(l, a).largePat;
    MultipleDown(phys, l, 0);
    assert phys == f * PAGE;
    MaskOfMultiple(phys, f, l);
    assert f % FRAMES == f by { Bits.ModUnique(f, FRAMES, 0, f); }
    hide MaskFrame, Multiple;
    assert NewEntry(phys, LeafAttr(l, a), l).frame == OrBit(f, x);
    OrBitIs(f, x);
    hide OrBit;
  }

  /** The frame with bit 12 of the entry set if asked for. */
  function OrBit(f: nat, x: bool): nat { if x && f % 2 == 0 then f + 1 else f }

  lemma OrBitIs(f: nat, x: bool)
    ensures OrBit(f, x) % 2 == 1 <==> x || f % 2 == 1
  {
  }

  lemma MaskOfMultiple(phys: nat, f: nat, l: Level)
    requires phys == f * PAGE && Multiple(phys, l)
    ensures MaskFrame(f, l) == f && (l > 0 ==> f % 2 == 0 && MaskFrame(f + 1, l) == f)
    ensures l == 0 ==> MaskFrame(f + 1, l) == f + 1
  {
    match l
    case 0 =>
    case 1 => FrameMultiple(f, 512, 256);
    case 2 => FrameMultiple(f, 0x4_0000, 0x2_0000);
    case 3 => FrameMultiple(f, 0x800_0000, 0x400_0000);
  }

  lemma FrameMultiple(f: nat, k: nat, h: nat)
    requires k == 2 * h && h > 0 && (f * PAGE) % (PAGE * k) == 0
    ensures f % k == 0 && f % 2 == 0 && (f + 1) % k == 1
  {
    var x, d := f * PAGE, PAGE * k;
    var q := x / d;
    assert f == k * q by {
      assert x == d * q;
      MulAssoc(PAGE, k, q);
    }
    Bits.ModUnique(f, k, q, 0);
    Bits.ModUnique(f + 1, k, q, 1);
    MulAssoc(2, h, q);
  }

  lemma MulAssoc(a: nat, b: nat, c: nat)
    ensures (a * b) * c == a * (b * c)
  {
  }
}
