/** The boot image as a function of the directory tree, and where each part of it lies. */
module BootfsImage {
  import opened Types
  import opened BootfsBytes
  import opened BootfsTree

  const HEADER: nat := 128
  const ENTRY: nat := 128
  const MAX_NAME: nat := 64
  const VERSION: Bytes := [0xbb, 0xff, 0xee, 0xaa]

  /** An entry of the metadata table; `name` is the padded 64-byte field. */
  datatype Meta = Meta(name: Bytes, isDir: bool, offset: nat, len: nat)

  function PadName(name: Bytes): (r: Bytes)
    requires |name| < MAX_NAME
    ensures |r| == MAX_NAME
  {
    name + Zeros(MAX_NAME - |name|)
  }

  function MetaBytes(m: Meta): (b: Bytes)
    requires |m.name| == MAX_NAME
    ensures |b| == ENTRY
  {
    VERSION + m.name + [if m.isDir then 1 else 0] + Zeros(3) + Le(m.offset, WORD) + Le(m.len, WORD) + Zeros(40)
  }

  function HeaderBytes(count: nat, rootLen: nat): (b: Bytes)
    ensures |b| == HEADER
  {
    VERSION + Zeros(4) + Le(count, WORD) + Le(HEADER + WORD, WORD) + Le(rootLen, WORD) + Zeros(96)
  }

  function EntStart(n: nat): nat { RoundUp(HEADER + WORD * n) }

  function FileStart(n: nat): nat { EntStart(n) + RoundUp(ENTRY * n) }

  predicate NameOk(name: Bytes) { |name| < MAX_NAME }

  ghost predicate NamesOk(order: seq<Node>) {
    forall i :: 0 <= i < |order| ==> NameOk(order[i].name)
  }

  /** Bytes taken by the files among the first `i` entries, each rounded up to whole pages. */
  ghost function FilesBefore(order: seq<Node>, i: nat): nat
    requires i <= |order|
  {
    if i == 0 then 0
    else FilesBefore(order, i - 1) + (if order[i - 1].File? then RoundUp(|order[i - 1].data|) else 0)
  }

  ghost function FileOffset(order: seq<Node>, i: nat): nat
    requires i <= |order|
  {
    FileStart(|order|) + FilesBefore(order, i)
  }

  ghost function MetaOf(order: seq<Node>, i: nat): (m: Meta)
    requires i < |order| && NamesOk(order)
    ensures |m.name| == MAX_NAME
  {
    match order[i]
    case File(name, data) => Meta(PadName(name), false, FileOffset(order, i), |data|)
    case Dir(name, nodes) => Meta(PadName(name), true, HEADER + WORD * ChildStart(order, i), WORD * |nodes|)
  }

  /** The offset table: where each metadata entry is. */
  ghost function OffsetRows(n: nat, k: nat): (rows: seq<Bytes>)
    ensures |rows| == k && RowsOf(rows, WORD)
    ensures forall i :: 0 <= i < k ==> rows[i] == Le(EntStart(n) + ENTRY * i, WORD)
  {
    if k == 0 then [] else OffsetRows(n, k - 1) + [Le(EntStart(n) + ENTRY * (k - 1), WORD)]
  }

  ghost function MetaRows(order: seq<Node>, k: nat): (rows: seq<Bytes>)
    requires k <= |order| && NamesOk(order)
    ensures |rows| == k && RowsOf(rows, ENTRY)
    ensures forall i :: 0 <= i < k ==> rows[i] == MetaBytes(MetaOf(order, i))
  {
    if k == 0 then [] else MetaRows(order, k - 1) + [MetaBytes(MetaOf(order, k - 1))]
  }

  /** The contents of the files among the first `k` entries, each padded to whole pages. */
  ghost function FileArea(order: seq<Node>, k: nat): (b: Bytes)
    requires k <= |order|
    ensures |b| == FilesBefore(order, k)
  {
    if k == 0 then []
    else
      FileArea(order, k - 1) +
      match order[k - 1]
      case File(_, data) => data + Zeros(RoundUp(|data|) - |data|)
      case Dir(_, _) => []
  }

  ghost predicate HasFile(order: seq<Node>) { exists i :: 0 <= i < |order| && order[i].File? }

  ghost function RootLen(order: seq<Node>): nat
    requires order != []
  {
    match order[0]
    case File(_, data) => |data|
    case Dir(_, nodes) => WORD * |nodes|
  }

  /** Header, offset table and metadata table. */
  ghost function Tables(order: seq<Node>): (b: Bytes)
    requires order != [] && NamesOk(order)
    ensures |b| == EntStart(|order|) + ENTRY * |order|
  {
    var n := |order|;
    FlatRow(OffsetRows(n, n), WORD, 0);
    FlatRow(MetaRows(order, n), ENTRY, 0);
    HeaderBytes(n, RootLen(order)) + Flat(OffsetRows(n, n)) + Zeros(EntStart(n) - HEADER - WORD * n)
      + Flat(MetaRows(order, n))
  }

  ghost function Image(order: seq<Node>): Bytes
    requires order != [] && NamesOk(order)
  {
    var n := |order|;
    if HasFile(order)
    then Tables(order) + Zeros(FileStart(n) - EntStart(n) - ENTRY * n) + FileArea(order, n)
    else Tables(order)
  }

  // ------------------------------------------------------------ where things are

  lemma SliceMid(a: Bytes, b: Bytes, c: Bytes, off: nat, len: nat)
    requires |a| <= off && off + len <= |a| + |b|
    ensures Slice(a + b + c, off, len) == Some(b[off - |a|..off - |a| + len])
  {
    assert (a + b + c)[off..off + len] == b[off - |a|..off - |a| + len];
  }

  lemma SlicePrefix(a: Bytes, b: Bytes, off: nat, len: nat)
    requires a <= b && off + len <= |a|
    ensures Slice(b, off, len) == Slice(a, off, len)
  {
    assert b[off..off + len] == a[off..off + len];
  }

  lemma ImageStartsWithTables(order: seq<Node>)
    requires order != [] && NamesOk(order)
    ensures Tables(order) <= Image(order)
  {
    var n := |order|;
    if HasFile(order) {
      var a, b, c := Tables(order), Zeros(FileStart(n) - EntStart(n) - ENTRY * n), FileArea(order, n);
      assert a + b + c == a + (b + c);
    }
  }

  /** Word `i` of the offset table. */
  lemma OffsetAt(order: seq<Node>, i: nat)
    requires order != [] && NamesOk(order) && i < |order|
    ensures Slice(Image(order), HEADER + WORD * i, WORD) == Some(Le(EntStart(|order|) + ENTRY * i, WORD))
  {
    hide HeaderBytes, Flat, MetaRows, OffsetRows, Le, Image, Slice, NamesOk, RoundUp;
    var n := |order|;
    FlatRow(OffsetRows(n, n), WORD, i);
    FlatRow(MetaRows(order, n), ENTRY, 0);
    var a, b := HeaderBytes(n, RootLen(order)), Flat(OffsetRows(n, n));
    var c := Zeros(EntStart(n) - HEADER - WORD * n) + Flat(MetaRows(order, n));
    assert Tables(order) == a + b + c;
    SliceMid(a, b, c, HEADER + WORD * i, WORD);
    ImageStartsWithTables(order);
    SlicePrefix(Tables(order), Image(order), HEADER + WORD * i, WORD);
  }

  /** Entry `i` of the metadata table. */
  lemma MetaAt(order: seq<Node>, i: nat)
    requires order != [] && NamesOk(order) && i < |order|
    ensures Slice(Image(order), EntStart(|order|) + ENTRY * i, ENTRY) == Some(MetaBytes(MetaOf(order, i)))
  {
    hide HeaderBytes, Flat, MetaRows, OffsetRows, Image, Slice, NamesOk, RoundUp, MetaBytes, MetaOf;
    var n := |order|;
    FlatRow(OffsetRows(n, n), WORD, 0);
    FlatRow(MetaRows(order, n), ENTRY, i);
    var a := HeaderBytes(n, RootLen(order)) + Flat(OffsetRows(n, n)) + Zeros(EntStart(n) - HEADER - WORD * n);
    var b := Flat(MetaRows(order, n));
    assert Tables(order) == a + b + [];
    SliceMid(a, b, [], EntStart(n) + ENTRY * i, ENTRY);
    ImageStartsWithTables(order);
    SlicePrefix(Tables(order), Image(order), EntStart(n) + ENTRY * i, ENTRY);
  }

  lemma {:induction false} FilesMonotone(order: seq<Node>, i: nat, j: nat)
    requires i <= j <= |order|
    ensures FilesBefore(order, i) <= FilesBefore(order, j)
    ensures FilesBefore(order, i) % PAGE == 0
    decreases j
  {
    if i < j {
      FilesMonotone(order, i, j - 1);
    } else if i > 0 {
      FilesMonotone(order, i - 1, i - 1);
      var x, y := FilesBefore(order, i - 1), if order[i - 1].File? then RoundUp(|order[i - 1].data|) else 0;
      assert x % PAGE == 0 && y % PAGE == 0;
      assert (x + y) % PAGE == 0;
    }
  }

  lemma {:induction false} FileInArea(order: seq<Node>, i: nat, k: nat)
    requires i < k <= |order| && order[i].File?
    ensures FilesBefore(order, i) + RoundUp(|order[i].data|) <= FilesBefore(order, k)
    ensures Slice(FileArea(order, k), FilesBefore(order, i), |order[i].data|) == Some(order[i].data)
    decreases k
  {
    var data := order[i].data;
    if i < k - 1 {
      FileInArea(order, i, k - 1);
      assert FileArea(order, k - 1) <= FileArea(order, k);
      SlicePrefix(FileArea(order, k - 1), FileArea(order, k), FilesBefore(order, i), |data|);
    } else {
      var z := Zeros(RoundUp(|data|) - |data|);
      assert FileArea(order, k) == FileArea(order, i) + data + z;
      SliceMid(FileArea(order, i), data, z, FilesBefore(order, i), |data|);
    }
  }

  /** The contents of file entry `i` lie at its recorded offset. */
  lemma FileAt(order: seq<Node>, i: nat)
    requires order != [] && NamesOk(order) && i < |order| && order[i].File?
    ensures Slice(Image(order), FileOffset(order, i), |order[i].data|) == Some(order[i].data)
  {
    hide HeaderBytes, Flat, MetaRows, OffsetRows, NamesOk, RoundUp, FilesBefore, FileArea, Tables;
    var n := |order|;
    FileInArea(order, i, n);
    TablesLength(order);
    var a := Tables(order) + Zeros(FileStart(n) - EntStart(n) - ENTRY * n);
    assert Image(order) == a + FileArea(order, n) + [];
    SliceMid(a, FileArea(order, n), [], FileOffset(order, i), |order[i].data|);
  }

  lemma TablesLength(order: seq<Node>)
    requires order != [] && NamesOk(order)
    ensures |Tables(order)| == EntStart(|order|) + ENTRY * |order| <= FileStart(|order|)
    ensures FileStart(|order|) % PAGE == 0
  {
    hide Flat, RoundUp, HeaderBytes, MetaRows, OffsetRows, NamesOk, Le;
    var n := |order|;
    FlatRow(OffsetRows(n, n), WORD, 0);
    FlatRow(MetaRows(order, n), ENTRY, 0);
    PageSums(EntStart(n), RoundUp(ENTRY * n));
  }

  /**
   Layout: every file's page-rounded extent is page-aligned, lies inside the image
   and comes after the header and both tables.
   */
  lemma FileExtent(order: seq<Node>, i: nat)
    requires order != [] && NamesOk(order) && i < |order| && order[i].File?
    ensures FileOffset(order, i) % PAGE == 0 && |Tables(order)| <= FileOffset(order, i)
    ensures FileOffset(order, i) + RoundUp(|order[i].data|) <= |Image(order)|
  {
    hide Tables, FilesBefore, FileArea, RoundUp, NamesOk, FileStart;
    TablesLength(order);
    FilesMonotone(order, i, i);
    FileInArea(order, i, |order|);
    PageSums(FileStart(|order|), FilesBefore(order, i));
  }

  /** The page-rounded extents of different files never overlap; entries come in table order. */
  lemma FilesApart(order: seq<Node>, i: nat, j: nat)
    requires order != [] && NamesOk(order) && i < j < |order| && order[i].File? && order[j].File?
    ensures FileOffset(order, i) + RoundUp(|order[i].data|) <= FileOffset(order, j)
  {
    FileInArea(order, i, j);
  }

  lemma PageSums(a: nat, b: nat)
    requires a % PAGE == 0 && b % PAGE == 0
    ensures (a + b) % PAGE == 0
  {
  }
}
