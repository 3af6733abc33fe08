/** The image generator as the source runs it: a queue, running offsets and a growing output. */
module BootfsGen {
  import opened Types
  import opened BootfsBytes
  import opened BootfsTree
  import opened BootfsImage
  import Parse = BootfsParse

  /** Every name in the tree fits the name field; the source panics otherwise. */
  ghost predicate AllNamed(ns: seq<Node>)
    decreases ns, 0
  {
    ns != [] ==> Named(ns[0]) && AllNamed(ns[1..])
  }

  ghost predicate Named(n: Node)
    decreases n, 1
  {
    NameOk(n.name) && (n.Dir? ==> AllNamed(n.nodes))
  }

  lemma {:induction false} AllNamedConcat(a: seq<Node>, b: seq<Node>)
    requires AllNamed(a) && AllNamed(b)
    ensures AllNamed(a + b)
  {
    if a == [] {
      assert a + b == b;
    } else {
      AllNamedConcat(a[1..], b);
      assert (a + b)[1..] == a[1..] + b;
    }
  }

  lemma {:induction false} BfsNamed(q: seq<Node>)
    requires AllNamed(q)
    ensures NamesOk(Bfs(q))
    decreases Weight(q)
  {
    if q == [] {
    } else {
      QueueShrinks(q);
      AllNamedConcat(q[1..], Kids(q[0]));
      BfsNamed(q[1..] + Kids(q[0]));
    }
  }

  /** The entry before file offsets are known. */
  ghost function Draft(order: seq<Node>, i: nat): (m: Meta)
    requires i < |order| && NamesOk(order)
  {
    if order[i].File? then MetaOf(order, i).(offset := 0) else MetaOf(order, i)
  }

  /** `entries` are the drafts of the whole layout, in order. */
  ghost predicate Drafts(order: seq<Node>, entries: seq<Meta>)
    requires NamesOk(order)
  {
    |entries| == |order| && forall i :: 0 <= i < |entries| ==> entries[i] == Draft(order, i)
  }

  /** The contents of the files among the first `k` entries. */
  ghost function FilesIn(order: seq<Node>, k: nat): seq<Bytes>
    requires k <= |order|
  {
    if k == 0 then []
    else FilesIn(order, k - 1) + (if order[k - 1].File? then [order[k - 1].data] else [])
  }

  lemma QueueStep(order: seq<Node>, done: seq<Node>, q: seq<Node>)
    requires q != [] && order == done + Bfs(q)
    ensures |done| < |order| && order[|done|] == q[0]
    ensures order == (done + [q[0]]) + Bfs(q[1..] + Kids(q[0]))
    ensures ChildStart(order, |done| + 1) == ChildStart(order, |done|) + |Kids(q[0])|
    ensures FilesIn(order, |done| + 1) == FilesIn(order, |done|) + (if q[0].File? then [q[0].data] else [])
  {
    QueueShrinks(q);
  }

  /** Lays the tree out breadth first; a directory's offset comes from the index and the queue length. */
  method Split(root: Node) returns (entries: seq<Meta>, contents: seq<Bytes>)
    requires Named(root)
    ensures NamesOk(Bfs([root])) && Drafts(Bfs([root]), entries)
    ensures contents == FilesIn(Bfs([root]), |Bfs([root])|)
  {
    hide Bfs, ChildStart, FilesIn, PadName, FileOffset;
    ghost var order := Bfs([root]);
    BfsNamed([root]);
    var q, index := [root], 0;
    ghost var done: seq<Node> := [];
    entries, contents := [], [];
    StartOf(order);
    assert order == done + Bfs(q);
    while q != []
      invariant order == done + Bfs(q) && |done| == index == |entries|
      invariant index <= |order| && ChildStart(order, index) == index + |q|
      invariant forall i :: 0 <= i < index ==> entries[i] == Draft(order, i)
      invariant contents == FilesIn(order, index)
      decreases Weight(q)
    {
      QueueShrinks(q);
      QueueStep(order, done, q);
      var entry := q[0];
      assert NameOk(order[index].name);
      done := done + [entry];
      q := q[1..];
      match entry {
        case File(name, data) =>
          entries := entries + [Meta(PadName(name), false, 0, |data|)];
          contents := contents + [data];
          assert q + Kids(entry) == q;
        case Dir(name, nodes) =>
          entries := entries + [Meta(PadName(name), true, HEADER + (index + |q| + 1) * WORD, |nodes| * WORD)];
          q := q + nodes;
      }
      index := index + 1;
    }
    assert Bfs(q) == [] by { EmptyQueue(q); }
    assert order == done;
  }

  lemma StartOf(order: seq<Node>)
    ensures ChildStart(order, 0) == 1 && FilesIn(order, 0) == []
  {
  }

  lemma EmptyQueue(q: seq<Node>)
    requires q == []
    ensures Bfs(q) == []
  {
  }

  /** Appends zero bytes for the positions `[from, to)`. */
  method PadTo(out: Bytes, from: nat, to: nat) returns (r: Bytes)
    requires from <= to
    ensures r == out + Zeros(to - from)
  {
    r := out;
    for k := from to to
      invariant r == out + Zeros(k - from)
    {
      r := r + [0];
    }
  }

  /** Padded file contents laid end to end. */
  ghost function Packed(contents: seq<Bytes>): Bytes {
    if contents == [] then []
    else
      var c := contents[|contents| - 1];
      Packed(contents[..|contents| - 1]) + c + Zeros(RoundUp(|c|) - |c|)
  }

  lemma PackedPush(xs: seq<Bytes>, c: Bytes)
    ensures Packed(xs + [c]) == Packed(xs) + c + Zeros(RoundUp(|c|) - |c|)
  {
    assert (xs + [c])[..|xs|] == xs;
  }

  lemma NothingPacked()
    ensures Packed([]) == []
  {
  }

  lemma {:induction false} PackedIsArea(order: seq<Node>, k: nat)
    requires k <= |order|
    ensures Packed(FilesIn(order, k)) == FileArea(order, k)
  {
    hide RoundUp, Zeros, Packed;
    if k == 0 {
      NothingPacked();
    } else {
      PackedIsArea(order, k - 1);
      var xs := FilesIn(order, k - 1);
      if order[k - 1].File? {
        var c := order[k - 1].data;
        assert FilesIn(order, k) == xs + [c];
        PackedPush(xs, c);
      } else {
        assert FilesIn(order, k) == xs;
      }
    }
  }

  lemma {:induction false} SomeFile(order: seq<Node>, k: nat)
    requires k <= |order|
    ensures FilesIn(order, k) != [] <==> exists i :: 0 <= i < k && order[i].File?
  {
    if k == 0 {
    } else {
      SomeFile(order, k - 1);
    }
  }

  /** Where the `j`-th file goes, relative to the first. */
  ghost function Skip(contents: seq<Bytes>, j: nat): nat
    requires j <= |contents|
  {
    if j == 0 then 0 else Skip(contents, j - 1) + RoundUp(|contents[j - 1]|)
  }

  lemma {:induction false} SkipPrefix(a: seq<Bytes>, b: seq<Bytes>, j: nat)
    requires j <= |a|
    ensures Skip(a + b, j) == Skip(a, j)
  {
    if j == 0 {
    } else {
      SkipPrefix(a, b, j - 1);
    }
  }

  lemma {:induction false} SkipPages(contents: seq<Bytes>, j: nat)
    requires j <= |contents|
    ensures Skip(contents, j) % PAGE == 0
  {
    if j == 0 {
    } else {
      SkipPages(contents, j - 1);
      PageSums(Skip(contents, j - 1), RoundUp(|contents[j - 1]|));
    }
  }

  lemma {:induction false} SkipIsBefore(order: seq<Node>, k: nat)
    requires k <= |order|
    ensures Skip(FilesIn(order, k), |FilesIn(order, k)|) == FilesBefore(order, k)
  {
    if k == 0 {
    } else {
      SkipIsBefore(order, k - 1);
      var xs := FilesIn(order, k - 1);
      if order[k - 1].File? {
        SkipPrefix(xs, [order[k - 1].data], |xs|);
        assert FilesIn(order, k) == xs + [order[k - 1].data];
        assert FilesIn(order, k)[|xs|] == order[k - 1].data;
      } else {
        assert FilesIn(order, k) == xs;
      }
    }
  }

  /** The offsets of `xs` stay when one more file follows. */
  lemma SkipsKeep(xs: seq<Bytes>, c: Bytes, offsets: seq<nat>, start: nat)
    requires |offsets| == |xs| && forall j :: 0 <= j < |xs| ==> offsets[j] == start + Skip(xs, j)
    ensures var os := offsets + [start + Skip(xs, |xs|)];
      forall j :: 0 <= j < |os| ==> os[j] == start + Skip(xs + [c], j)
  {
    forall j | 0 <= j <= |xs|
      ensures Skip(xs + [c], j) == Skip(xs, j)
    {
      SkipPrefix(xs, [c], j);
    }
  }

  /** `offsets` places the files among the first `i` entries. */
  ghost predicate Placed(order: seq<Node>, i: nat, start: nat, offsets: seq<nat>)
    requires i <= |order|
  {
    && |offsets| == |FilesIn(order, i)|
    && forall j :: 0 <= j < |offsets| ==> offsets[j] == start + Skip(FilesIn(order, i), j)
  }

  lemma PlaceFile(order: seq<Node>, i: nat, start: nat, offsets: seq<nat>)
    requires i < |order| && order[i].File? && Placed(order, i, start, offsets)
    ensures Placed(order, i + 1, start, offsets + [start + FilesBefore(order, i)])
  {
    SkipIsBefore(order, i);
    SkipsKeep(FilesIn(order, i), order[i].data, offsets, start);
    assert FilesIn(order, i + 1) == FilesIn(order, i) + [order[i].data];
  }

  lemma PlaceDir(order: seq<Node>, i: nat, start: nat, offsets: seq<nat>)
    requires i < |order| && order[i].Dir? && Placed(order, i, start, offsets)
    ensures Placed(order, i + 1, start, offsets)
  {
    assert FilesIn(order, i + 1) == FilesIn(order, i);
  }

  /** The metadata table: fills in file offsets while writing. */
  method WriteMetas(drafts: seq<Meta>, start: nat, prefix: Bytes, ghost order: seq<Node>)
    returns (out: Bytes, offsets: seq<nat>)
    requires NamesOk(order) && Drafts(order, drafts) && start == FileStart(|order|)
    ensures out == prefix + Flat(MetaRows(order, |order|))
    ensures Placed(order, |order|, start, offsets)
  {
    hide MetaBytes, RoundUp, Flat, FileStart, NamesOk, PadName, Zeros, ChildStart, Placed, MetaRows;
    var offset := start;
    out, offsets := prefix, [];
    StartMetas(order, start);
    for i := 0 to |drafts|
      invariant offset == FileOffset(order, i)
      invariant out == prefix + Flat(MetaRows(order, i))
      invariant Placed(order, i, start, offsets)
    {
      var entry := drafts[i];
      assert entry == Draft(order, i);
      if !entry.isDir {
        entry := entry.(offset := offset);
        PlaceFile(order, i, start, offsets);
        offsets := offsets + [offset];
        offset := offset + RoundUp(entry.len);
      } else {
        PlaceDir(order, i, start, offsets);
      }
      assert entry == MetaOf(order, i);
      NextRow(order, i);
      out := out + MetaBytes(entry);
    }
  }

  lemma StartMetas(order: seq<Node>, start: nat)
    requires NamesOk(order)
    ensures Flat(MetaRows(order, 0)) == [] && Placed(order, 0, start, [])
  {
    FlatRow(MetaRows(order, 0), ENTRY, 0);
  }

  lemma NextRow(order: seq<Node>, i: nat)
    requires NamesOk(order) && i < |order|
    ensures Flat(MetaRows(order, i + 1)) == Flat(MetaRows(order, i)) + MetaBytes(MetaOf(order, i))
  {
    RowsExtend(MetaRows(order, i), MetaBytes(MetaOf(order, i)));
  }

  /** The offset table. */
  method WriteOffsets(n: nat, prefix: Bytes) returns (out: Bytes)
    ensures out == prefix + Flat(OffsetRows(n, n))
  {
    hide Flat, RoundUp, Le;
    assert Flat(OffsetRows(n, 0)) == [] by { FlatRow(OffsetRows(n, 0), WORD, 0); }
    out := prefix;
    var start := EntStart(n);
    for i := 0 to n
      invariant out == prefix + Flat(OffsetRows(n, i))
    {
      RowsExtend(OffsetRows(n, i), Le(start + ENTRY * i, WORD));
      out := out + Le(start + i * ENTRY, WORD);
    }
  }

  /** File contents, each followed by zeros up to the next file's offset or the rounded end. */
  method WriteFiles(contents: seq<Bytes>, offsets: seq<nat>, start: nat, prefix: Bytes) returns (out: Bytes)
    requires |offsets| == |contents| > 0 && start % PAGE == 0
    requires forall j :: 0 <= j < |contents| ==> offsets[j] == start + Skip(contents, j)
    ensures out == prefix + Packed(contents)
  {
    hide RoundUp, Zeros, Packed, Skip;
    var last := |contents| - 1;
    var end := RoundUp(offsets[last] + |contents[last]|);
    SkipPages(contents, last);
    PageSums(start, Skip(contents, last));
    RoundUpShift(offsets[last], |contents[last]|);
    out := prefix;
    PackNext(contents, 0);
    for j := 0 to |contents|
      invariant out == prefix + Packed(contents[..j])
    {
      PackNext(contents, j);
      var next := if j < last then offsets[j + 1] else end;
      var c := contents[j];
      assert next == offsets[j] + RoundUp(|c|);
      out := out + c;
      out := PadTo(out, offsets[j] + |c|, next);
    }
    assert contents[..|contents|] == contents;
  }

  lemma PackNext(contents: seq<Bytes>, j: nat)
    requires j < |contents|
    ensures Skip(contents, j + 1) == Skip(contents, j) + RoundUp(|contents[j]|) && Packed(contents[..0]) == []
    ensures Packed(contents[..j + 1])
         == Packed(contents[..j]) + contents[j] + Zeros(RoundUp(|contents[j]|) - |contents[j]|)
  {
    assert contents[..j + 1][..j] == contents[..j];
  }

  lemma RoundUpShift(a: nat, n: nat)
    requires a % PAGE == 0
    ensures RoundUp(a + n) == a + RoundUp(n)
  {
    var q := a / PAGE;
    assert a == PAGE * q;
    assert (a + n + PAGE - 1) / PAGE == q + (n + PAGE - 1) / PAGE;
  }

  /** The generator writes exactly the image of the breadth-first layout. */
  method Generate(root: Node) returns (out: Bytes)
    requires Named(root)
    ensures NamesOk(Bfs([root])) && Bfs([root]) != []
    ensures out == Image(Bfs([root]))
  {
    hide Flat, RoundUp, Le, OffsetRows, MetaRows, FileArea, Zeros, HeaderBytes, NamesOk, Packed, Skip, FilesIn, Bfs;
    ghost var order := Bfs([root]);
    BfsPrefix([root]);
    var entries, contents := Split(root);
    var n := |entries|;
    FlatRow(OffsetRows(n, n), WORD, 0);
    FlatRow(MetaRows(order, n), ENTRY, 0);
    assert entries[0] == Draft(order, 0);
    out := HeaderBytes(n, entries[0].len);
    out := WriteOffsets(n, out);
    var aligned := RoundUp(HEADER + WORD * n);
    out := PadTo(out, HEADER + WORD * n, aligned);
    var start := aligned + RoundUp(n * ENTRY);
    var offsets;
    out, offsets := WriteMetas(entries, start, out, order);
    assert out == Tables(order);
    SomeFile(order, n);
    PackedIsArea(order, n);
    if contents != [] {
      assert offsets[0] == start by { assert Skip(contents, 0) == 0 by { SkipZero(contents); } }
      out := PadTo(out, aligned + ENTRY * n, offsets[0]);
      PageSums(aligned, RoundUp(n * ENTRY));
      out := WriteFiles(contents, offsets, start, out);
    }
  }

  lemma SkipZero(contents: seq<Bytes>)
    ensures Skip(contents, 0) == 0
  {
  }

  /** Trees that come back unchanged meet what the generator asks of names. */
  lemma {:induction false} CleanIsNamed(n: Node)
    requires Parse.TreeClean(n)
    ensures Named(n)
    decreases n, 1
  {
    if n.Dir? { AllCleanNamed(n.nodes); }
  }

  lemma {:induction false} AllCleanNamed(ns: seq<Node>)
    requires Parse.AllClean(ns)
    ensures AllNamed(ns)
    decreases ns, 0
  {
    if ns == [] {
    } else {
      CleanIsNamed(ns[0]);
      AllCleanNamed(ns[1..]);
    }
  }

  /**
   Generating an image and parsing it: the whole tree comes back, to any depth, and looking up any
   list of path components finds what walking the tree finds.
   */
  method GenerateAndParse(root: Node) returns (image: Bytes, dir: Bytes)
    requires root.Dir? && Parse.TreeClean(root) && Parse.Fits(Bfs([root]))
    ensures Parse.Root(image) == Some(dir)
    ensures forall depth: nat | depth >= Parse.HeightAll(root.nodes) ::
      Parse.ReadAll(image, Parse.Entries(image, dir), depth) == Some(root.nodes)
    ensures forall names: seq<Bytes> :: Parse.FindIn(image, dir, names) == Parse.Walk(root.nodes, names)
  {
    hide Image, Bfs, Parse.ReadAll, Parse.Entries, Parse.FindIn, Parse.Walk;
    hide Parse.TreeClean, Parse.HeightAll, Parse.Root;
    CleanIsNamed(root);
    image := Generate(root);
    forall depth: nat | depth >= Parse.HeightAll(root.nodes)
      ensures Parse.Root(image).Some?
      ensures Parse.ReadAll(image, Parse.Entries(image, Parse.Root(image).value), depth) == Some(root.nodes)
    {
      Parse.ImageRoundTrip(root, depth);
    }
    forall names: seq<Bytes>
      ensures Parse.Root(image).Some?
      ensures Parse.FindIn(image, Parse.Root(image).value, names) == Parse.Walk(root.nodes, names)
    {
      Parse.FindAgrees(root, names);
    }
    Parse.FindAgrees(root, []);
    dir := Parse.Root(image).value;
  }
}
