/**
 The bucket array of the concurrent hash map: linear probing with tombstones.
 The hash is an arbitrary function; a probe for a key visits the slots from
 `hash % capacity` on, wrapping round, each exactly once.
 */
module Buckets {
  import opened Types
  import Bits

  datatype Entry<K, V> = Empty | Data(key: K, value: V) | Removed {
    predicate IsFree() { Empty? || Removed? }

    function Get(): Option<(K, V)> {
      match this
      case Data(k, v) => Some((k, v))
      case _ => None
    }
  }

  function Start(h: nat, cap: nat): (s: nat)
    requires cap > 0
    ensures s < cap
  {
    h % cap
  }

  /** The `i`-th slot of the cycle that starts at `start`. */
  function Wrap(start: nat, i: nat, cap: nat): (s: nat)
    requires start < cap && i < cap
    ensures s < cap
  {
    if start + i < cap then start + i else start + i - cap
  }

  /** How many steps after `start` the cycle reaches `idx`. */
  function Dist(start: nat, idx: nat, cap: nat): (d: nat)
    requires start < cap && idx < cap
    ensures d < cap && Wrap(start, d, cap) == idx
  {
    if start <= idx then idx - start else idx + cap - start
  }

  predicate HasKey<K(==), V>(e: Entry<K, V>, key: K) { e.Data? && e.key == key }

  ghost predicate Unique<K, V>(b: seq<Entry<K, V>>) {
    forall i, j :: 0 <= i < j < |b| && b[i].Data? && b[j].Data? ==> b[i].key != b[j].key
  }

  /** No `Empty` slot lies among the first `n` slots of the cycle from `start`. */
  ghost predicate Solid<K, V>(b: seq<Entry<K, V>>, start: nat, n: nat) {
    start < |b| && n <= |b| && forall m :: 0 <= m < n ==> !b[Wrap(start, m, |b|)].Empty?
  }

  ghost predicate Reachable<K, V>(b: seq<Entry<K, V>>, hash: K -> nat, idx: nat) {
    idx < |b| && (b[idx].Data? ==>
      Solid(b, Start(hash(b[idx].key), |b|), Dist(Start(hash(b[idx].key), |b|), idx, |b|)))
  }

  /** Every key sits on its probe path before any `Empty` slot. */
  ghost predicate PathOk<K, V>(b: seq<Entry<K, V>>, hash: K -> nat) {
    forall idx :: 0 <= idx < |b| ==> Reachable(b, hash, idx)
  }

  ghost predicate Wf<K, V>(b: seq<Entry<K, V>>, hash: K -> nat) {
    |b| > 0 && Unique(b) && PathOk(b, hash)
  }

  // ----------------------------------------------------------------- contents

  ghost function Contents<K, V>(b: seq<Entry<K, V>>): map<K, V> {
    if b == [] then map[]
    else
      var c := Contents(b[..|b| - 1]);
      match b[|b| - 1]
      case Data(k, v) => c[k := v]
      case _ => c
  }

  ghost function Count<K, V>(b: seq<Entry<K, V>>): nat {
    if b == [] then 0 else Count(b[..|b| - 1]) + (if b[|b| - 1].Data? then 1 else 0)
  }

  ghost predicate Holds<K, V>(b: seq<Entry<K, V>>, i: nat, k: K, v: V) {
    i < |b| && b[i] == Data(k, v)
  }

  lemma {:induction false} ContentsHas<K, V>(b: seq<Entry<K, V>>, i: nat)
    requires Unique(b) && i < |b| && b[i].Data?
    ensures b[i].key in Contents(b) && Contents(b)[b[i].key] == b[i].value
  {
    if i < |b| - 1 {
      assert b[..|b| - 1][i] == b[i];
      ContentsHas(b[..|b| - 1], i);
    }
  }

  lemma {:induction false} ContentsOnly<K, V>(b: seq<Entry<K, V>>, k: K) returns (i: nat)
    requires Unique(b) && k in Contents(b)
    ensures Holds(b, i, k, Contents(b)[k])
  {
    var n := |b| - 1;
    if b[n].Data? && b[n].key == k {
      i := n;
    } else {
      i := ContentsOnly(b[..n], k);
    }
  }

  lemma {:induction false} CountIsSize<K, V>(b: seq<Entry<K, V>>)
    requires Unique(b)
    ensures |Contents(b)| == Count(b)
  {
    if b == [] {
    } else {
      var n := |b| - 1;
      CountIsSize(b[..n]);
      if b[n].Data? && b[n].key in Contents(b[..n]) {
        var _ := ContentsOnly(b[..n], b[n].key);
      }
    }
  }

  lemma {:induction false} CountUpdate<K, V>(b: seq<Entry<K, V>>, i: nat, e: Entry<K, V>)
    requires i < |b|
    ensures Count(b[i := e]) == Count(b) - (if b[i].Data? then 1 else 0) + (if e.Data? then 1 else 0)
  {
    var n := |b| - 1;
    if i == n {
      assert b[i := e][..n] == b[..n];
    } else {
      assert b[i := e][..n] == b[..n][i := e];
      CountUpdate(b[..n], i, e);
    }
  }

  lemma {:induction false} CountBounds<K, V>(b: seq<Entry<K, V>>)
    ensures Count(b) <= |b|
    ensures Count(b) == |b| <==> forall i :: 0 <= i < |b| ==> b[i].Data?
  {
    if b == [] {
    } else {
      CountBounds(b[..|b| - 1]);
      assert forall i :: 0 <= i < |b| - 1 ==> b[..|b| - 1][i] == b[i];
    }
  }

  /** Filling a slot that is free or already holds the key sets the key. */
  lemma ContentsPut<K, V>(b: seq<Entry<K, V>>, i: nat, k: K, v: V)
    requires Unique(b) && i < |b| && (b[i].IsFree() || HasKey(b[i], k))
    requires forall j :: 0 <= j < |b| && j != i ==> !HasKey(b[j], k)
    ensures Unique(b[i := Data(k, v)])
    ensures Contents(b[i := Data(k, v)]) == Contents(b)[k := v]
  {
    var b' := b[i := Data(k, v)];
    ContentsHas(b', i);
    var c, c' := Contents(b)[k := v], Contents(b');
    forall x | x in c'
      ensures x in c && c'[x] == c[x]
    {
      if x != k {
        var j := ContentsOnly(b', x);
        ContentsHas(b, j);
      }
    }
    forall x | x in c
      ensures x in c'
    {
      if x != k {
        var j := ContentsOnly(b, x);
        ContentsHas(b', j);
      }
    }
    assert c.Keys == c'.Keys;
  }

  lemma ContentsRemove<K, V>(b: seq<Entry<K, V>>, i: nat)
    requires Unique(b) && i < |b| && b[i].Data?
    ensures Unique(b[i := Removed])
    ensures Contents(b[i := Removed]) == Contents(b) - {b[i].key}
  {
    var b' := b[i := Removed];
    var k := b[i].key;
    var c, c' := Contents(b) - {k}, Contents(b');
    forall x | x in c'
      ensures x in c && c'[x] == c[x]
    {
      var j := ContentsOnly(b', x);
      ContentsHas(b, j);
    }
    forall x | x in c
      ensures x in c'
    {
      var j := ContentsOnly(b, x);
      ContentsHas(b', j);
    }
    assert c.Keys == c'.Keys;
  }

  /** Replacing a slot by a non-`Empty` entry on the key's solid path keeps all paths. */
  lemma PathUpdate<K, V>(b: seq<Entry<K, V>>, hash: K -> nat, i: nat, e: Entry<K, V>)
    requires |b| > 0 && PathOk(b, hash) && i < |b| && !e.Empty?
    requires e.Data? ==> Solid(b, Start(hash(e.key), |b|), Dist(Start(hash(e.key), |b|), i, |b|))
    ensures PathOk(b[i := e], hash)
  {
    var b' := b[i := e];
    forall idx | 0 <= idx < |b'|
      ensures Reachable(b', hash, idx)
    {
      assert Reachable(b, hash, idx);
    }
  }

  // ------------------------------------------------------------------ probing

  /** Looks at every slot, whatever it holds, until one has the key. */
  method FindRead<K(==), V>(b: seq<Entry<K, V>>, hash: K -> nat, key: K) returns (r: Option<nat>)
    requires |b| > 0
    ensures r.Some? ==> r.value < |b| && HasKey(b[r.value], key)
    ensures r.None? ==> forall j :: 0 <= j < |b| ==> !HasKey(b[j], key)
  {
    var start := Start(hash(key), |b|);
    for i := 0 to |b|
      invariant forall m :: 0 <= m < i ==> !HasKey(b[Wrap(start, m, |b|)], key)
    {
      var idx := Wrap(start, i, |b|);
      if HasKey(b[idx], key) { return Some(idx); }
    }
    forall j | 0 <= j < |b|
      ensures !HasKey(b[j], key)
    {
      var m := Dist(start, j, |b|);
      assert !HasKey(b[Wrap(start, m, |b|)], key);
    }
    return None;
  }

  /** What the slot returned by `Locate` means for a key that is absent. */
  ghost predicate Vacant<K, V>(b: seq<Entry<K, V>>, hash: K -> nat, key: K, i: nat) {
    && i < |b| && b[i].IsFree()
    && Solid(b, Start(hash(key), |b|), Dist(Start(hash(key), |b|), i, |b|))
  }

  /** Every slot of the key's path before `i` holds data. */
  ghost predicate FirstFree<K, V>(b: seq<Entry<K, V>>, hash: K -> nat, key: K, i: nat) {
    && i < |b| && var start := Start(hash(key), |b|);
       forall m :: 0 <= m < Dist(start, i, |b|) ==> b[Wrap(start, m, |b|)].Data?
  }

  ghost predicate Absent<K, V>(b: seq<Entry<K, V>>, key: K) {
    forall j :: 0 <= j < |b| ==> !HasKey(b[j], key)
  }

  lemma FreeFound<K, V>(b: seq<Entry<K, V>>, hash: K -> nat, key: K, i: nat)
    requires i < |b| && b[Wrap(Start(hash(key), |b|), i, |b|)].IsFree()
    requires forall m :: 0 <= m < i ==> b[Wrap(Start(hash(key), |b|), m, |b|)].Data?
    ensures var idx := Wrap(Start(hash(key), |b|), i, |b|);
      Vacant(b, hash, key, idx) && FirstFree(b, hash, key, idx)
  {
  }

  /** Who has gone round the whole table has seen every slot. */
  lemma AllSeen<K, V>(b: seq<Entry<K, V>>, start: nat, key: K)
    requires start < |b| && forall m :: 0 <= m < |b| ==> !HasKey(b[Wrap(start, m, |b|)], key)
    ensures Absent(b, key)
    ensures (forall m :: 0 <= m < |b| ==> b[Wrap(start, m, |b|)].Data?) ==> forall j :: 0 <= j < |b| ==> b[j].Data?
  {
    forall j | 0 <= j < |b|
      ensures !HasKey(b[j], key)
    {
      assert !HasKey(b[Wrap(start, Dist(start, j, |b|), |b|)], key);
    }
    if forall m :: 0 <= m < |b| ==> b[Wrap(start, m, |b|)].Data? {
      forall j | 0 <= j < |b|
        ensures b[j].Data?
      {
        assert b[Wrap(start, Dist(start, j, |b|), |b|)].Data?;
      }
    }
  }

  /**
   Stops at the key or at the first `Empty` slot, remembering the first tombstone.
   Finds the key's slot exactly when the key is present; otherwise offers a slot
   that keeps the key reachable, the first free one on its path, or nothing when every slot holds data.
   */
  method Locate<K(==), V>(b: seq<Entry<K, V>>, hash: K -> nat, key: K) returns (r: Option<nat>)
    requires Wf(b, hash)
    ensures !Absent(b, key) ==> r.Some? && r.value < |b| && HasKey(b[r.value], key)
    ensures Absent(b, key) && r.Some? ==> Vacant(b, hash, key, r.value) && FirstFree(b, hash, key, r.value)
    ensures r.None? ==> forall j :: 0 <= j < |b| ==> b[j].Data?
  {
    hide Vacant, FirstFree, Wrap, Start;
    var start := Start(hash(key), |b|);
    var free: Option<nat> := None;
    for i := 0 to |b|
      invariant forall m :: 0 <= m < i ==> !HasKey(b[Wrap(start, m, |b|)], key)
      invariant free.Some? ==> Vacant(b, hash, key, free.value) && FirstFree(b, hash, key, free.value)
      invariant free.None? ==> forall m :: 0 <= m < i ==> b[Wrap(start, m, |b|)].Data?
    {
      var idx := Wrap(start, i, |b|);
      match b[idx]
      case Empty =>
        StopsAtEmpty(b, hash, key, i);
        if free.None? { FreeFound(b, hash, key, i); }
        return if free.Some? then free else Some(idx);
      case Data(k, _) => if k == key { return Some(idx); }
      case Removed =>
        if free.None? {
          FreeFound(b, hash, key, i);
          free := Some(idx);
        }
    }
    AllSeen(b, start, key);
    return free;
  }

  /** A key not met before the first `Empty` slot of its path is nowhere. */
  lemma StopsAtEmpty<K, V>(b: seq<Entry<K, V>>, hash: K -> nat, key: K, i: nat)
    requires Wf(b, hash) && i < |b| && b[Wrap(Start(hash(key), |b|), i, |b|)].Empty?
    requires forall m :: 0 <= m < i ==> !HasKey(b[Wrap(Start(hash(key), |b|), m, |b|)], key)
    ensures Absent(b, key)
  {
    var start := Start(hash(key), |b|);
    forall j | 0 <= j < |b|
      ensures !HasKey(b[j], key)
    {
      var m := Dist(start, j, |b|);
      assert Reachable(b, hash, j);
      if m < i { assert !HasKey(b[Wrap(start, m, |b|)], key); }
    }
  }

  lemma ModWrap(h: nat, i: nat, cap: nat)
    requires i < cap
    ensures (h + i) % cap == Wrap(Start(h, cap), i, cap)
  {
    var q, s := h / cap, h % cap;
    if s + i < cap {
      Bits.ModUnique(h + i, cap, q, s + i);
    } else {
      assert cap * (q + 1) == cap * q + cap;
      Bits.ModUnique(h + i, cap, q + 1, s + i - cap);
    }
  }

  /** First free slot on the key's path. */
  method FindFree<K, V>(b: seq<Entry<K, V>>, hash: K -> nat, key: K) returns (r: Option<nat>)
    requires |b| > 0
    ensures r.Some? ==> Vacant(b, hash, key, r.value) && FirstFree(b, hash, key, r.value)
    ensures r.None? ==> Count(b) == |b|
  {
    var h := hash(key);
    var start := Start(h, |b|);
    for i := 0 to |b|
      invariant forall m :: 0 <= m < i ==> b[Wrap(start, m, |b|)].Data?
    {
      var idx := (h + i) % |b|;
      ModWrap(h, i, |b|);
      if b[idx].IsFree() { return Some(idx); }
    }
    forall j | 0 <= j < |b|
      ensures b[j].Data?
    {
      var m := Dist(start, j, |b|);
      assert b[Wrap(start, m, |b|)].Data?;
    }
    CountBounds(b);
    return None;
  }

  function WithCapacity<K, V>(cap: nat): (b: seq<Entry<K, V>>)
    ensures |b| == cap && forall i :: 0 <= i < cap ==> b[i] == Empty
  {
    seq(cap, _ => Empty)
  }

  lemma {:induction false} NothingIn<K, V>(b: seq<Entry<K, V>>)
    requires forall i :: 0 <= i < |b| ==> !b[i].Data?
    ensures Contents(b) == map[] && Count(b) == 0
  {
    if b == [] {
    } else {
      NothingIn(b[..|b| - 1]);
    }
  }

  /** A key that no slot holds is not in the contents, and conversely. */
  lemma AbsentIsMissing<K, V>(b: seq<Entry<K, V>>, key: K)
    requires Unique(b)
    ensures Absent(b, key) <==> key !in Contents(b)
  {
    if key in Contents(b) { var _ := ContentsOnly(b, key); }
    forall j | 0 <= j < |b| && HasKey(b[j], key)
      ensures key in Contents(b)
    {
      ContentsHas(b, j);
    }
  }

  /** Putting a new key into a vacant slot keeps the table well-formed. */
  lemma PutVacant<K, V>(b: seq<Entry<K, V>>, hash: K -> nat, i: nat, k: K, v: V)
    requires Wf(b, hash) && Absent(b, k) && Vacant(b, hash, k, i)
    ensures Wf(b[i := Data(k, v)], hash)
    ensures Contents(b[i := Data(k, v)]) == Contents(b)[k := v]
    ensures Count(b[i := Data(k, v)]) == Count(b) + 1
  {
    ContentsPut(b, i, k, v);
    PathUpdate(b, hash, i, Data(k, v));
    CountUpdate(b, i, Data(k, v));
  }

  /** The slots whose data fits into a table of `cap` slots when moved in order. */
  ghost function Fitting<K, V>(b: seq<Entry<K, V>>, cap: nat): (r: seq<Entry<K, V>>)
    ensures Count(r) == Min(Count(b), cap) && r <= b
  {
    if Count(b) <= cap then b else Fitting(b[..|b| - 1], cap)
  }

  /** One more slot: its data still fits exactly when fewer than `cap` came before. */
  lemma FittingStep<K, V>(b: seq<Entry<K, V>>, i: nat, cap: nat)
    requires i < |b|
    ensures var p, p' := b[..i], b[..i + 1];
      match b[i]
      case Data(k, v) =>
        && Count(p') == Count(p) + 1
        && (Count(p) < cap ==> Fitting(p, cap) == p && Contents(Fitting(p', cap)) == Contents(p)[k := v])
        && (Count(p) >= cap ==> Fitting(p', cap) == Fitting(p, cap))
      case _ => Count(p') == Count(p) && Contents(Fitting(p', cap)) == Contents(Fitting(p, cap))
  {
    assert b[..i + 1][..i] == b[..i];
  }

  lemma EmptyTable<K, V>(b: seq<Entry<K, V>>, hash: K -> nat)
    requires |b| > 0 && forall i :: 0 <= i < |b| ==> b[i] == Empty
    ensures Wf(b, hash) && Contents(b) == map[] && Count(b) == 0
  {
    NothingIn(b);
  }

  /** Rehashes the data of `prev` into a fresh table: all of it, or else the first `cap` entries of it. */
  method MoveFrom<K(==), V>(prev: seq<Entry<K, V>>, hash: K -> nat, cap: nat) returns (b: seq<Entry<K, V>>)
    requires Unique(prev) && cap > 0
    ensures |b| == cap && Wf(b, hash)
    ensures Contents(b) == Contents(Fitting(prev, cap)) && Count(b) == Min(Count(prev), cap)
  {
    b := WithCapacity(cap);
    EmptyTable(b, hash);
    for i := 0 to |prev|
      invariant |b| == cap && Wf(b, hash)
      invariant Contents(b) == Contents(Fitting(prev[..i], cap)) && Count(b) == Min(Count(prev[..i]), cap)
    {
      hide PathOk, Unique, Vacant, Absent, Contents, Count, Fitting;
      FittingStep(prev, i, cap);
      match prev[i]
      case Data(k, v) =>
        NotBefore(prev, i);
        AbsentIsMissing(b, k);
        CountBounds(b);
        var r := FindFree(b, hash, k);
        if r.Some? {
          VacantIsFree(b, hash, k, r.value);
          PutVacant(b, hash, r.value, k, v);
          b := b[r.value := Data(k, v)];
        }
      case _ =>
    }
    assert prev[..|prev|] == prev;
  }

  lemma VacantIsFree<K, V>(b: seq<Entry<K, V>>, hash: K -> nat, key: K, i: nat)
    requires Vacant(b, hash, key, i)
    ensures Count(b) < |b|
  {
    CountBounds(b);
  }

  lemma NotBefore<K, V>(b: seq<Entry<K, V>>, i: nat)
    requires Unique(b) && i < |b| && b[i].Data?
    ensures b[i].key !in Contents(b[..i])
  {
    if b[i].key in Contents(b[..i]) { var _ := ContentsOnly(b[..i], b[i].key); }
  }
}
