/**
 Reading a boot image: directory iteration, lookup of a path, and reading the whole
 tree back.  A slice that is out of range, where the source panics, and an entry
 type other than the two defined read as `None`.
 */
module BootfsParse {
  import opened Types
  import opened BootfsBytes
  import opened BootfsTree
  import opened BootfsImage

  function ParseMeta(b: Bytes): Option<Meta>
    requires |b| == ENTRY
  {
    if b[..4] != VERSION || b[68] > 1 then None
    else Some(Meta(b[4..68], b[68] == 1, FromLe(b[72..80]), FromLe(b[80..88])))
  }

  lemma MetaRoundTrip(m: Meta)
    requires |m.name| == MAX_NAME && m.offset < LIMIT && m.len < LIMIT
    ensures ParseMeta(MetaBytes(m)) == Some(m)
  {
    hide Le, FromLe;
    var b := MetaBytes(m);
    WordRoundTrip(m.offset);
    WordRoundTrip(m.len);
    assert b[..4] == VERSION;
    assert b[4..68] == m.name;
    assert b[72..80] == Le(m.offset, WORD);
    assert b[80..88] == Le(m.len, WORD);
  }

  /**
   The converse: an entry is read only from the bytes that writing it gives, but for the padding; bytes of
   another version or of no known type are refused, and no entry is written so.
   */
  lemma MetaParsesOnly(b: Bytes)
    requires |b| == ENTRY
    ensures match ParseMeta(b)
      case Some(m) => |m.name| == MAX_NAME && MetaBytes(m)[..69] == b[..69] && MetaBytes(m)[72..88] == b[72..88]
      case None => forall m: Meta | |m.name| == MAX_NAME :: MetaBytes(m)[..69] != b[..69]
  {
    hide Le, FromLe;
    match ParseMeta(b)
    case Some(m) =>
      LeInverse(b[72..80]);
      LeInverse(b[80..88]);
      var w := MetaBytes(m);
      assert w[..4] == b[..4] && w[4..68] == b[4..68] && w[68] == b[68];
      assert w[..69] == w[..4] + w[4..68] + [w[68]] && b[..69] == b[..4] + b[4..68] + [b[68]];
      assert w[72..80] == b[72..80] && w[80..88] == b[80..88];
      assert w[72..88] == w[72..80] + w[80..88] && b[72..88] == b[72..80] + b[80..88];
    case None =>
      forall m: Meta | |m.name| == MAX_NAME
        ensures MetaBytes(m)[..69] != b[..69]
      {
        var w := MetaBytes(m);
        assert w[..4] == VERSION && w[68] <= 1 && w[..69][..4] == w[..4] && w[..69][68] == w[68];
        assert b[..69][..4] == b[..4] && b[..69][68] == b[68];
      }
  }

  /** An image is accepted exactly when its header is there, of this version, and points inside it. */
  lemma RootIff(image: Bytes)
    ensures Root(image).Some? <==>
      |image| >= 128 && image[..4] == VERSION && FromLe(image[16..24]) + FromLe(image[24..32]) <= |image|
  {
  }

  /** The offsets of the root directory's slice of the offset table. */
  function Root(image: Bytes): Option<Bytes> {
    if |image| < HEADER || image[..4] != VERSION then None
    else Slice(image, FromLe(image[16..24]), FromLe(image[24..32]))
  }

  /** One step of the directory iterator: the entry, and the rest of the offsets. */
  function NextEntry(image: Bytes, rem: Bytes): Option<(Meta, Bytes)> {
    if |rem| < WORD then None
    else
      match Slice(image, FromLe(rem[..WORD]), ENTRY)
      case None => None
      case Some(b) =>
        match ParseMeta(b)
        case None => None
        case Some(m) => Some((m, rem[WORD..]))
  }

  /** All entries a directory iterator yields. */
  function Entries(image: Bytes, rem: Bytes): seq<Meta>
    decreases |rem|
  {
    match NextEntry(image, rem)
    case None => []
    case Some((m, rest)) => [m] + Entries(image, rest)
  }

  /** The bytes an entry refers to: file contents, or a slice of the offset table. */
  function Content(image: Bytes, m: Meta): Option<Bytes> { Slice(image, m.offset, m.len) }

  function TrimName(name: Bytes): Bytes {
    if name == [] || name[0] == 0 then [] else [name[0]] + TrimName(name[1..])
  }

  /** Reads the entry and everything below it, `depth` levels down. */
  function ReadNode(image: Bytes, m: Meta, depth: nat): Option<Node>
    decreases depth, 1, 0
  {
    match Content(image, m)
    case None => None
    case Some(b) =>
      if !m.isDir then Some(File(TrimName(m.name), b))
      else if depth == 0 then None
      else
        match ReadAll(image, Entries(image, b), depth - 1)
        case None => None
        case Some(nodes) => Some(Dir(TrimName(m.name), nodes))
  }

  function ReadAll(image: Bytes, ms: seq<Meta>, depth: nat): Option<seq<Node>>
    decreases depth, 2, |ms|
  {
    if ms == [] then Some([])
    else
      match (ReadNode(image, ms[0], depth), ReadAll(image, ms[1..], depth))
      case (Some(x), Some(xs)) => Some([x] + xs)
      case _ => None
  }

  // --------------------------------------------------------------- round trip

  ghost predicate NulFree(b: Bytes) { forall i :: 0 <= i < |b| ==> b[i] != 0 }

  lemma {:induction false} TrimPad(name: Bytes, k: nat)
    requires NulFree(name) && k > 0
    ensures TrimName(name + Zeros(k)) == name
  {
    if name == [] {
    } else {
      assert (name + Zeros(k))[1..] == name[1..] + Zeros(k);
      TrimPad(name[1..], k);
    }
  }

  /** Names that survive the trip: under 64 bytes and without NUL. */
  ghost predicate CleanNode(n: Node) {
    NameOk(n.name) && NulFree(n.name)
  }

  ghost predicate Clean(order: seq<Node>) {
    forall i :: 0 <= i < |order| ==> CleanNode(order[i])
  }

  /** The image is addressable with 64-bit offsets. */
  ghost predicate Fits(order: seq<Node>) {
    FileStart(|order|) + FilesBefore(order, |order|) < LIMIT
  }

  /** `order` is a breadth-first layout: every directory's children are where its entry says. */
  ghost predicate Laid(order: seq<Node>) {
    && order != [] && NamesOk(order) && Clean(order) && Fits(order)
    && forall i :: 0 <= i < |order| ==> KidsAt(order, i)
  }

  ghost function Metas(order: seq<Node>, lo: nat, hi: nat): (ms: seq<Meta>)
    requires lo <= hi <= |order| && NamesOk(order)
    ensures |ms| == hi - lo
    decreases hi - lo
  {
    if lo == hi then [] else [MetaOf(order, lo)] + Metas(order, lo + 1, hi)
  }

  lemma EntryAddressable(order: seq<Node>, i: nat)
    requires Laid(order) && i < |order|
    ensures EntStart(|order|) + ENTRY * i < LIMIT && MetaOf(order, i).offset < LIMIT && MetaOf(order, i).len < LIMIT
  {
    assert KidsAt(order, i);
    if order[i].File? { FileInArea(order, i, |order|); }
  }

  /** The slice of the offset table for entries `lo..hi` iterates as exactly those entries. */
  lemma {:induction false} EntriesOfRange(order: seq<Node>, lo: nat, hi: nat)
    requires Laid(order) && lo <= hi <= |order|
    ensures HEADER + WORD * hi <= |Image(order)|
    ensures Entries(Image(order), Image(order)[HEADER + WORD * lo..HEADER + WORD * hi]) == Metas(order, lo, hi)
    decreases hi - lo
  {
    hide Image, MetaBytes, ParseMeta, MetaOf, Clean, Fits, KidsAt, NamesOk, FromLe, Le, RoundUp;
    var image := Image(order);
    TableEnd(order, hi);
    if lo == hi {
    } else {
      EntriesOfRange(order, lo + 1, hi);
      var rem := image[HEADER + WORD * lo..HEADER + WORD * hi];
      OffsetAt(order, lo);
      MetaAt(order, lo);
      EntryAddressable(order, lo);
      WordRoundTrip(EntStart(|order|) + ENTRY * lo);
      MetaRoundTrip(MetaOf(order, lo));
      assert rem[..WORD] == image[HEADER + WORD * lo..HEADER + WORD * lo + WORD];
      assert rem[WORD..] == image[HEADER + WORD * (lo + 1)..HEADER + WORD * hi];
    }
  }

  lemma TableEnd(order: seq<Node>, hi: nat)
    requires Laid(order) && hi <= |order|
    ensures HEADER + WORD * hi <= |Image(order)|
  {
    ImageStartsWithTables(order);
  }

  ghost function Height(n: Node): nat
    decreases n, 1
  {
    match n
    case File(_, _) => 0
    case Dir(_, nodes) => 1 + HeightAll(nodes)
  }

  ghost function HeightAll(ns: seq<Node>): nat
    decreases ns, 0
  {
    if ns == [] then 0
    else
      var a, b := Height(ns[0]), HeightAll(ns[1..]);
      if a > b then a else b
  }

  /** Reading entry `i` gives the `i`-th node of the layout, with everything below it. */
  lemma {:induction false} ReadsNode(order: seq<Node>, i: nat, depth: nat)
    requires Laid(order) && i < |order| && depth >= Height(order[i])
    ensures ReadNode(Image(order), MetaOf(order, i), depth) == Some(order[i])
    decreases depth, 1, 0
  {
    hide Image, Clean, Fits, NamesOk, Entries, RoundUp, KidsAt, TrimName, PadName;
    hide FilesBefore, FileStart, ChildStart, Slice, HeightAll;
    NameReads(order, i);
    match order[i] {
      case File(_, data) => FileReads(order, i);
      case Dir(_, nodes) =>
        var c := ChildStart(order, i);
        DirReads(order, i);
        ReadsRange(order, c, c + |nodes|, depth - 1);
    }
  }

  lemma FileReads(order: seq<Node>, i: nat)
    requires Laid(order) && i < |order| && order[i].File?
    ensures Content(Image(order), MetaOf(order, i)) == Some(order[i].data)
  {
    hide Image, RoundUp;
    FileAt(order, i);
  }

  /** A directory's content is its range of the offset table, and those entries are its children's. */
  lemma DirReads(order: seq<Node>, i: nat)
    requires Laid(order) && i < |order| && order[i].Dir?
    ensures var c := ChildStart(order, i); var hi := c + |order[i].nodes|;
      && hi <= |order| && order[c..hi] == order[i].nodes && HEADER + WORD * hi <= |Image(order)|
      && Content(Image(order), MetaOf(order, i)) == Some(Image(order)[HEADER + WORD * c..HEADER + WORD * hi])
      && Entries(Image(order), Image(order)[HEADER + WORD * c..HEADER + WORD * hi]) == Metas(order, c, hi)
  {
    hide Image, RoundUp, Entries, KidsAt, ChildStart, Metas, NamesOk, Clean, Fits, PadName, FileOffset;
    var c := ChildStart(order, i);
    KidsThere(order, i);
    TableEnd(order, c + |order[i].nodes|);
    EntriesOfRange(order, c, c + |order[i].nodes|);
  }

  lemma NameReads(order: seq<Node>, i: nat)
    requires Laid(order) && i < |order|
    ensures NameOk(order[i].name) && TrimName(PadName(order[i].name)) == order[i].name
  {
    assert CleanNode(order[i]);
    TrimPad(order[i].name, MAX_NAME - |order[i].name|);
  }

  lemma KidsThere(order: seq<Node>, i: nat)
    requires Laid(order) && i < |order|
    ensures var c := ChildStart(order, i);
      c + |Kids(order[i])| <= |order| && order[c..c + |Kids(order[i])|] == Kids(order[i])
  {
    assert KidsAt(order, i);
  }

  lemma {:induction false} ReadsRange(order: seq<Node>, lo: nat, hi: nat, depth: nat)
    requires Laid(order) && lo <= hi <= |order| && depth >= HeightAll(order[lo..hi])
    ensures ReadAll(Image(order), Metas(order, lo, hi), depth) == Some(order[lo..hi])
    decreases depth, 2, hi - lo
  {
    hide Image, Clean, Fits, NamesOk, KidsAt, ReadNode, MetaOf;
    if lo == hi {
    } else {
      assert order[lo..hi][1..] == order[lo + 1..hi];
      ReadsNode(order, lo, depth);
      ReadsRange(order, lo + 1, hi, depth);
      assert order[lo..hi] == [order[lo]] + order[lo + 1..hi];
    }
  }

  // ------------------------------------------------------------- whole images

  /** Every name in the tree is NUL-free and shorter than 64 bytes. */
  ghost predicate TreeClean(n: Node)
    decreases n, 1
  {
    CleanNode(n) && (n.Dir? ==> AllClean(n.nodes))
  }

  ghost predicate AllClean(ns: seq<Node>)
    decreases ns, 0
  {
    ns != [] ==> TreeClean(ns[0]) && AllClean(ns[1..])
  }

  lemma {:induction false} AllCleanConcat(a: seq<Node>, b: seq<Node>)
    requires AllClean(a) && AllClean(b)
    ensures AllClean(a + b)
  {
    if a == [] {
      assert a + b == b;
    } else {
      AllCleanConcat(a[1..], b);
      assert (a + b)[1..] == a[1..] + b;
    }
  }

  lemma {:induction false} BfsClean(q: seq<Node>)
    requires AllClean(q)
    ensures Clean(Bfs(q))
    decreases Weight(q)
  {
    if q == [] {
    } else {
      QueueShrinks(q);
      AllCleanConcat(q[1..], Kids(q[0]));
      BfsClean(q[1..] + Kids(q[0]));
    }
  }

  lemma BfsLaid(root: Node)
    requires TreeClean(root) && Fits(Bfs([root]))
    ensures Laid(Bfs([root])) && Bfs([root])[0] == root
  {
    var order := Bfs([root]);
    BfsClean([root]);
    assert forall i :: 0 <= i < |order| ==> CleanNode(order[i]);
    BfsPrefix([root]);
    forall i | 0 <= i < |order|
      ensures KidsAt(order, i)
    {
      BfsLayout(root, i);
    }
  }

  lemma RootAt(order: seq<Node>)
    requires Laid(order) && order[0].Dir?
    ensures HEADER + WORD * (1 + |order[0].nodes|) <= |Image(order)|
    ensures Root(Image(order)) == Some(Image(order)[HEADER + WORD..HEADER + WORD * (1 + |order[0].nodes|)])
  {
    hide Clean, Fits, NamesOk, KidsAt, Flat, OffsetRows, MetaRows, FileArea, Le, FromLe, RoundUp, Image;
    var image, m := Image(order), |order[0].nodes|;
    KidsThere(order, 0);
    TableEnd(order, 1 + m);
    ImageStartsWithTables(order);
    EntryAddressable(order, 0);
    var h := HeaderBytes(|order|, RootLen(order));
    assert h <= Tables(order) <= image;
    assert image[..4] == h[..4] == VERSION;
    assert image[16..24] == h[16..24] == Le(HEADER + WORD, WORD);
    assert image[24..32] == h[24..32] == Le(WORD * m, WORD);
    WordRoundTrip(HEADER + WORD);
    WordRoundTrip(WORD * m);
  }

  /** Round trip: reading a generated image gives back the root directory's whole tree. */
  lemma ImageRoundTrip(root: Node, depth: nat)
    requires root.Dir? && TreeClean(root) && Fits(Bfs([root])) && depth >= HeightAll(root.nodes)
    ensures Laid(Bfs([root]))
    ensures var image := Image(Bfs([root]));
      Root(image).Some? && ReadAll(image, Entries(image, Root(image).value), depth) == Some(root.nodes)
  {
    hide Image, Laid, Entries, ReadAll, Root, HeightAll;
    var order := Bfs([root]);
    BfsLaid(root);
    RootAt(order);
    KidsThere(order, 0);
    EntriesOfRange(order, 1, 1 + |root.nodes|);
    ReadsRange(order, 1, 1 + |root.nodes|, depth);
  }

  // -------------------------------------------------------------------- lookup

  predicate NameEq(field: Bytes, c: Bytes)
    requires |field| == MAX_NAME
  {
    var len := Min(|c|, MAX_NAME - 1);
    field[..len] == c && field[len] == 0
  }

  /** `c` is the name, possibly followed by NULs, and fits the field. */
  predicate Matches(name: Bytes, c: Bytes) {
    name <= c && |c| < MAX_NAME && forall i :: |name| <= i < |c| ==> c[i] == 0
  }

  /** The comparison accepts exactly the name itself and the name with trailing NULs. */
  lemma NameEqIff(name: Bytes, c: Bytes)
    requires NameOk(name) && NulFree(name)
    ensures NameEq(PadName(name), c) <==> Matches(name, c)
  {
    var field := PadName(name);
    if NameEq(field, c) {
      assert |c| < MAX_NAME;
      assert forall i :: 0 <= i < |c| ==> c[i] == field[i];
    }
    if Matches(name, c) {
      assert field[..|c|] == c;
    }
  }

  lemma EndsInNul(name: Bytes, c: Bytes)
    requires Matches(name, c) && |name| < |c|
    ensures !NulFree(c)
  {
    assert c[|name|] == 0;
  }

  /** A path component without NULs matches by plain equality. */
  lemma NameEqPlain(name: Bytes, c: Bytes)
    requires NameOk(name) && NulFree(name) && NulFree(c)
    ensures NameEq(PadName(name), c) <==> name == c
  {
    NameEqIff(name, c);
    if Matches(name, c) && |name| < |c| { EndsInNul(name, c); }
  }

  /** First entry of a directory whose name matches. */
  function Get(image: Bytes, rem: Bytes, c: Bytes): (r: Option<Meta>)
    decreases |rem|
  {
    match NextEntry(image, rem)
    case None => None
    case Some((m, rest)) => if |m.name| == MAX_NAME && NameEq(m.name, c) then Some(m) else Get(image, rest, c)
  }

  function FindIn(image: Bytes, dir: Bytes, names: seq<Bytes>): Option<Bytes>
    decreases |names|
  {
    if names == [] then None
    else
      match Get(image, dir, names[0])
      case None => None
      case Some(m) =>
        match Content(image, m)
        case None => None
        case Some(b) => if m.isDir then FindIn(image, b, names[1..]) else Some(b)
  }

  /** The pieces of a path between separators; always at least one. */
  function SplitPath(path: Bytes, sep: Byte): (r: seq<Bytes>)
    ensures |r| > 0
  {
    if path == [] then [[]]
    else
      var rest := SplitPath(path[1..], sep);
      if path[0] == sep then [[]] + rest else [[path[0]] + rest[0]] + rest[1..]
  }

  function Join(pieces: seq<Bytes>, sep: Byte): Bytes
    requires |pieces| > 0
  {
    if |pieces| == 1 then pieces[0] else pieces[0] + [sep] + Join(pieces[1..], sep)
  }

  /** Splitting is the inverse of joining, and no piece holds a separator. */
  lemma {:induction false} SplitJoins(path: Bytes, sep: Byte)
    ensures Join(SplitPath(path, sep), sep) == path
    ensures forall i :: 0 <= i < |SplitPath(path, sep)| ==> sep !in SplitPath(path, sep)[i]
  {
    if path == [] {
    } else {
      SplitJoins(path[1..], sep);
      var rest, r := SplitPath(path[1..], sep), SplitPath(path, sep);
      assert r[1..] == if path[0] == sep then rest else rest[1..];
      assert path == [path[0]] + path[1..];
    }
  }

  // ------------------------------------------- lookup agrees with the source tree

  function FirstMatch(nodes: seq<Node>, c: Bytes): Option<Node> {
    if nodes == [] then None
    else if Matches(nodes[0].name, c) then Some(nodes[0])
    else FirstMatch(nodes[1..], c)
  }

  /** Walking the source tree by first matching child until the first file. */
  function Walk(nodes: seq<Node>, names: seq<Bytes>): Option<Bytes>
    decreases |names|
  {
    if names == [] then None
    else
      match FirstMatch(nodes, names[0])
      case None => None
      case Some(File(_, data)) => Some(data)
      case Some(Dir(_, ns)) => Walk(ns, names[1..])
  }

  /** The first matching entry of a laid-out directory is the metadata of the first matching child. */
  lemma {:induction false} GetInRange(order: seq<Node>, lo: nat, hi: nat, c: Bytes) returns (i: nat)
    requires Laid(order) && lo <= hi <= |order|
    ensures HEADER + WORD * hi <= |Image(order)|
    ensures var r := Get(Image(order), Image(order)[HEADER + WORD * lo..HEADER + WORD * hi], c);
      match FirstMatch(order[lo..hi], c)
      case None => r.None?
      case Some(n) => lo <= i < hi && order[i] == n && r == Some(MetaOf(order, i))
    decreases hi - lo
  {
    hide Image, MetaBytes, ParseMeta, Clean, Fits, KidsAt, NamesOk, FromLe, Le, RoundUp, NameEq, Matches;
    var image := Image(order);
    TableEnd(order, hi);
    i := lo;
    if lo == hi {
    } else {
      var rem := image[HEADER + WORD * lo..HEADER + WORD * hi];
      StepAt(order, lo, hi);
      NameReads(order, lo);
      NameEqAt(order, lo, c);
      assert order[lo..hi][1..] == order[lo + 1..hi];
      if !Matches(order[lo].name, c) { i := GetInRange(order, lo + 1, hi, c); }
    }
  }

  lemma NameEqAt(order: seq<Node>, i: nat, c: Bytes)
    requires Laid(order) && i < |order|
    ensures NameEq(MetaOf(order, i).name, c) <==> Matches(order[i].name, c)
  {
    assert CleanNode(order[i]);
    NameEqIff(order[i].name, c);
  }

  /** One iterator step over a laid-out range. */
  lemma StepAt(order: seq<Node>, lo: nat, hi: nat)
    requires Laid(order) && lo < hi <= |order|
    ensures HEADER + WORD * hi <= |Image(order)|
    ensures NextEntry(Image(order), Image(order)[HEADER + WORD * lo..HEADER + WORD * hi])
         == Some((MetaOf(order, lo), Image(order)[HEADER + WORD * (lo + 1)..HEADER + WORD * hi]))
  {
    hide Image, MetaBytes, ParseMeta, MetaOf, Clean, Fits, KidsAt, NamesOk, FromLe, Le, RoundUp;
    var image := Image(order);
    TableEnd(order, hi);
    var rem := image[HEADER + WORD * lo..HEADER + WORD * hi];
    OffsetAt(order, lo);
    MetaAt(order, lo);
    EntryAddressable(order, lo);
    WordRoundTrip(EntStart(|order|) + ENTRY * lo);
    MetaRoundTrip(MetaOf(order, lo));
    assert rem[..WORD] == image[HEADER + WORD * lo..HEADER + WORD * lo + WORD];
    assert rem[WORD..] == image[HEADER + WORD * (lo + 1)..HEADER + WORD * hi];
  }

  lemma {:induction false} FindInRange(order: seq<Node>, lo: nat, hi: nat, names: seq<Bytes>)
    requires Laid(order) && lo <= hi <= |order|
    ensures HEADER + WORD * hi <= |Image(order)|
    ensures FindIn(Image(order), Image(order)[HEADER + WORD * lo..HEADER + WORD * hi], names)
         == Walk(order[lo..hi], names)
    decreases |names|
  {
    hide Image, Clean, Fits, NamesOk, Get, FirstMatch, RoundUp, KidsAt;
    TableEnd(order, hi);
    if names == [] {
    } else {
      var i := GetInRange(order, lo, hi, names[0]);
      match FirstMatch(order[lo..hi], names[0])
      case None =>
      case Some(File(_, _)) => FileAt(order, i);
      case Some(Dir(_, nodes)) =>
        var c := ChildStart(order, i);
        KidsThere(order, i);
        FindInRange(order, c, c + |nodes|, names[1..]);
    }
  }

  /** `find` on a generated image agrees with walking the source tree. */
  lemma FindAgrees(root: Node, names: seq<Bytes>)
    requires root.Dir? && TreeClean(root) && Fits(Bfs([root]))
    ensures Laid(Bfs([root]))
    ensures var image := Image(Bfs([root]));
      Root(image).Some? && FindIn(image, Root(image).value, names) == Walk(root.nodes, names)
  {
    hide Image, Laid, FindIn, Walk, Root;
    var order := Bfs([root]);
    BfsLaid(root);
    RootAt(order);
    KidsThere(order, 0);
    FindInRange(order, 1, 1 + |root.nodes|, names);
  }

  /** The next piece of a path, and what follows the separator after it. */
  function CutPath(path: Bytes, sep: Byte): (Bytes, Option<Bytes>) {
    if path == [] then ([], None)
    else if path[0] == sep then ([], Some(path[1..]))
    else
      var (piece, rest) := CutPath(path[1..], sep);
      ([path[0]] + piece, rest)
  }

  /** The pieces the iterator over a path still has to give. */
  function Remaining(rest: Option<Bytes>, sep: Byte): seq<Bytes> {
    match rest
    case None => []
    case Some(path) => SplitPath(path, sep)
  }

  lemma {:induction false} CutIsSplit(path: Bytes, sep: Byte)
    ensures SplitPath(path, sep) == [CutPath(path, sep).0] + Remaining(CutPath(path, sep).1, sep)
  {
    if path == [] || path[0] == sep {
    } else {
      CutIsSplit(path[1..], sep);
    }
  }

  /** `dir` is the root directory of the image generated from `tree`. */
  ghost predicate Generated(image: Bytes, dir: Bytes, tree: Node) {
    && tree.Dir? && TreeClean(tree) && Fits(Bfs([tree]))
    && Laid(Bfs([tree])) && image == Image(Bfs([tree])) && Root(image) == Some(dir)
  }

  /** `find`: on a generated image, what walking the source tree along the pieces of the path finds. */
  method Find(image: Bytes, root: Bytes, path: Bytes, sep: Byte) returns (r: Option<Bytes>)
    ensures r == FindIn(image, root, SplitPath(path, sep))
    ensures forall tree :: Generated(image, root, tree) ==> r == Walk(tree.nodes, SplitPath(path, sep))
  {
    hide Get, Content, CutPath, SplitPath, Walk, TreeClean, Fits, Laid, Image, Root, Bfs;
    ghost var names := SplitPath(path, sep);
    forall tree | Generated(image, root, tree)
      ensures FindIn(image, root, names) == Walk(tree.nodes, names)
    {
      GeneratedAgrees(image, root, tree, names);
    }
    var dir, rest := root, Some(path);
    while rest.Some?
      invariant FindIn(image, root, names) == FindIn(image, dir, Remaining(rest, sep))
      decreases |Remaining(rest, sep)|
    {
      CutIsSplit(rest.value, sep);
      var (name, next) := CutPath(rest.value, sep);
      assert Remaining(rest, sep)[1..] == Remaining(next, sep);
      var entry := Get(image, dir, name);
      match entry
      case None => return None;
      case Some(m) =>
        match Content(image, m) {
          case None => return None;
          case Some(b) =>
            if !m.isDir { return Some(b); }
            dir, rest := b, next;
        }
    }
    return None;
  }

  lemma GeneratedAgrees(image: Bytes, dir: Bytes, tree: Node, names: seq<Bytes>)
    requires Generated(image, dir, tree)
    ensures FindIn(image, dir, names) == Walk(tree.nodes, names)
  {
    hide Image, Laid, FindIn, Walk, Root, TreeClean, Fits;
    FindAgrees(tree, names);
  }
}
