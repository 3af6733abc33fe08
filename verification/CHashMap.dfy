/**
 The hash map itself, each call as one step: it agrees with a plain finite map on
 every run, through tombstones, growth, shrinking and a table that is completely full.
 */
module CHashMap {
  import opened Types
  import opened Buckets

  const GROW_FACTOR: nat := 2
  const LOAD_FACTOR_N: nat := 70
  const LOAD_FACTOR_D: nat := 100
  const MIN_CAPACITY: nat := 8

  function Lookup<K, V>(m: map<K, V>, key: K): Option<V> {
    if key in m then Some(m[key]) else None
  }

  function LookupEntry<K, V>(m: map<K, V>, key: K): Option<(K, V)> {
    if key in m then Some((key, m[key])) else None
  }

  /** What `retain_mut` leaves: the values as the predicate rewrote them, where it said so. */
  ghost function Retained<K, V>(m: map<K, V>, keep: (K, V) -> (bool, V)): map<K, V> {
    map k | k in m && keep(k, m[k]).0 :: keep(k, m[k]).1
  }

  /** The capacity after a new key joins `n` others: a full table is quadrupled, one 70% full doubled beyond need. */
  function Grown(n: nat, cap: nat): nat {
    if n == cap then 4 * n else if (n + 1) * 100 >= cap * 70 then 2 * (n + 1) else cap
  }

  /** The capacity after a key has left `n` others: a table less than 35% full becomes just large enough. */
  function Shrunk(n: nat, cap: nat): nat {
    if n * 200 >= cap * 70 then cap else if n < 8 then 8 else n
  }

  class HashMap<K(==), V> {
    const hash: K -> nat
    var data: seq<Entry<K, V>>
    var len: nat

    ghost predicate Valid()
      reads this
    {
      |data| >= MIN_CAPACITY && Wf(data, hash) && len == Count(data)
    }

    ghost function Map(): map<K, V>
      reads this
    {
      Contents(data)
    }

    /** At least 35% full, or as small as can be. */
    ghost predicate NotSparse()
      reads this
    {
      len * 200 >= |data| * 70 || |data| == 8
    }

    constructor (hash: K -> nat)
      ensures Valid() && Map() == map[] && this.hash == hash
    {
      this.hash := hash;
      data := WithCapacity(MIN_CAPACITY);
      len := 0;
      new;
      NothingIn(data);
    }

    method Len() returns (n: nat)
      requires Valid()
      ensures n == |Map()|
    {
      CountIsSize(data);
      return len;
    }

    method Grow(n: nat)
      requires Valid()
      modifies this`data
      ensures Valid() && Map() == old(Map())
      ensures |data| == (if |old(data)| < n * GROW_FACTOR then n * GROW_FACTOR else |old(data)|)
      ensures |old(data)| >= n * GROW_FACTOR ==> data == old(data)
    {
      var cap := n * GROW_FACTOR;
      if |data| < cap {
        CountBounds(data);
        data := MoveFrom(data, hash, cap);
      }
    }

    /**
     The table shrinks to exactly `n` slots (but at least 8): with `n == len` it ends up full.  With fewer
     slots than entries, the entries past the first `n` are dropped while `len` still counts them.
     */
    method Shrink(n: nat)
      requires Valid()
      modifies this`data
      ensures |data| == (if |old(data)| > n then (if n < MIN_CAPACITY then MIN_CAPACITY else n) else |old(data)|)
      ensures Wf(data, hash) && Map() == Contents(Fitting(old(data), |data|))
      ensures |old(data)| <= n ==> data == old(data)
      ensures Map() == old(Map()) <==> len <= |data|
      ensures Valid() <==> len <= |data|
    {
      CountBounds(data);
      CountIsSize(data);
      if |data| > n {
        data := MoveFrom(data, hash, if n < MIN_CAPACITY then MIN_CAPACITY else n);
        CountIsSize(data);
      }
    }

    method Get(key: K) returns (r: Option<V>)
      requires Valid()
      ensures r == Lookup(Map(), key)
    {
      var i := FindRead(data, hash, key);
      AbsentIsMissing(data, key);
      match i
      case Some(idx) =>
        ContentsHas(data, idx);
        r := Some(data[idx].value);
      case None => r := None;
    }

    /**
     Retries after growing when the table is full; the retry always finds a slot. A new key leaves the
     table less than 70% full.
     */
    method Insert(key: K, value: V) returns (r: Option<(K, V)>)
      requires Valid()
      modifies this`data, this`len
      ensures Valid() && Map() == old(Map())[key := value]
      ensures r == LookupEntry(old(Map()), key)
      ensures r.None? ==> |data| == Grown(old(len), |old(data)|) && len * 100 < |data| * 70
      ensures r.Some? ==> |data| == |old(data)|
    {
      while true
        invariant Valid() && Map() == old(Map()) && len == old(len)
        invariant |data| == |old(data)| || (len == |old(data)| && |data| == 4 * len && key !in Map())
        decreases |data| == len
      {
        CountBounds(data);
        AbsentIsMissing(data, key);
        var slot := Locate(data, hash, key);
        match slot
        case Some(i) =>
          var prev := data[i];
          ghost var b := data;
          data := data[i := Data(key, value)];
          CountUpdate(b, i, Data(key, value));
          if prev.IsFree() {
            PutVacant(b, hash, i, key, value);
            len := len + 1;
            if len * LOAD_FACTOR_D >= |data| * LOAD_FACTOR_N { Grow(len); }
          } else {
            ContentsHas(b, i);
            OverwriteKeeps(b, hash, i, value);
          }
          return prev.Get();
        case None =>
          Grow(len * GROW_FACTOR);
      }
    }

    method RemoveEntryIf(key: K, wanted: V -> bool) returns (r: Option<(K, V)>)
      requires Valid()
      modifies this`data, this`len
      ensures Valid()
      ensures var hit := key in old(Map()) && wanted(old(Map())[key]);
        && r == (if hit then Some((key, old(Map())[key])) else None)
        && Map() == (if hit then old(Map()) - {key} else old(Map()))
        && |data| == (if hit then Shrunk(len, |old(data)|) else |old(data)|) && (hit ==> NotSparse())
    {
      AbsentIsMissing(data, key);
      var slot := Locate(data, hash, key);
      if slot.None? { CountBounds(data); return None; }
      var entry := data[slot.value];
      match entry
      case Data(k, v) =>
        ContentsHas(data, slot.value);
        if !wanted(v) { return None; }
        RemoveAt(slot.value);
        return Some((k, v));
      case _ => return None;
    }

    method TryRemoveEntry<E>(key: K, check: V -> Result<(), E>) returns (r: Result<(K, V), Option<E>>)
      requires Valid()
      modifies this`data, this`len
      ensures Valid()
      ensures match Lookup(old(Map()), key)
        case None => r == Err(None) && Map() == old(Map())
        case Some(v) => match check(v)
          case Ok(_) =>
            r == Ok((key, v)) && Map() == old(Map()) - {key} && |data| == Shrunk(len, |old(data)|) && NotSparse()
          case Err(e) => r == Err(Some(e)) && Map() == old(Map())
    {
      AbsentIsMissing(data, key);
      var slot := Locate(data, hash, key);
      if slot.None? { return Err(None); }
      var entry := data[slot.value];
      match entry
      case Data(k, v) =>
        ContentsHas(data, slot.value);
        match check(v) {
          case Ok(_) =>
            RemoveAt(slot.value);
            return Ok((k, v));
          case Err(e) => return Err(Some(e));
        }
      case _ => return Err(None);
    }

    /** Leaves a tombstone, and shrinks a table that has become too sparse. */
    method RemoveAt(i: nat)
      requires Valid() && i < |data| && data[i].Data?
      modifies this`data, this`len
      ensures Valid() && Map() == old(Map()) - {old(data[i].key)}
      ensures |data| == Shrunk(len, |old(data)|) && NotSparse()
    {
      ContentsRemove(data, i);
      PathUpdate(data, hash, i, Removed);
      CountUpdate(data, i, Removed);
      data := data[i := Removed];
      len := len - 1;
      if len * GROW_FACTOR * LOAD_FACTOR_D < |data| * LOAD_FACTOR_N { Shrink(len); }
    }

    method RetainMut(keep: (K, V) -> (bool, V))
      requires Valid()
      modifies this`data, this`len
      ensures Valid() && Map() == Retained(old(Map()), keep)
    {
      for i := 0 to |data|
        invariant Valid() && |data| == |old(data)|
        invariant forall j :: i <= j < |data| ==> data[j] == old(data)[j]
        invariant forall j :: 0 <= j < i ==> Swept(old(data)[j], data[j], keep)
      {
        match data[i]
        case Data(k, v) =>
          var (stay, v') := keep(k, v);
          if stay {
            OverwriteKeeps(data, hash, i, v');
            CountUpdate(data, i, Data(k, v'));
            data := data[i := Data(k, v')];
          } else {
            ContentsRemove(data, i);
            PathUpdate(data, hash, i, Removed);
            CountUpdate(data, i, Removed);
            data := data[i := Removed];
            len := len - 1;
          }
        case _ =>
      }
      SweptIsRetained(old(data), data, keep);
    }

    /** Hands the whole table over and starts again with an empty one. */
    method Take() returns (r: HashMap<K, V>)
      requires Valid()
      modifies this`data, this`len
      ensures fresh(r) && r.Valid() && r.Map() == old(Map()) && r.hash == hash
      ensures Valid() && Map() == map[]
    {
      r := new HashMap(hash);
      r.data, r.len := data, len;
      data, len := WithCapacity(MIN_CAPACITY), 0;
      NothingIn(data);
    }
  }

  lemma OverwriteKeeps<K, V>(b: seq<Entry<K, V>>, hash: K -> nat, i: nat, v: V)
    requires Wf(b, hash) && i < |b| && b[i].Data?
    ensures Wf(b[i := Data(b[i].key, v)], hash)
    ensures Contents(b[i := Data(b[i].key, v)]) == Contents(b)[b[i].key := v]
  {
    assert Reachable(b, hash, i);
    ContentsPut(b, i, b[i].key, v);
    PathUpdate(b, hash, i, Data(b[i].key, v));
  }

  /** The effect of one `retain_mut` iteration on a slot. */
  ghost predicate Swept<K, V>(e: Entry<K, V>, e': Entry<K, V>, keep: (K, V) -> (bool, V)) {
    match e
    case Data(k, v) => e' == (if keep(k, v).0 then Data(k, keep(k, v).1) else Removed)
    case _ => e' == e
  }

  lemma SweptIsRetained<K, V>(b: seq<Entry<K, V>>, b': seq<Entry<K, V>>, keep: (K, V) -> (bool, V))
    requires Unique(b) && Unique(b') && |b'| == |b|
    requires forall j :: 0 <= j < |b| ==> Swept(b[j], b'[j], keep)
    ensures Contents(b') == Retained(Contents(b), keep)
  {
    var m, m' := Contents(b), Contents(b');
    forall k | k in m'
      ensures k in Retained(m, keep) && m'[k] == Retained(m, keep)[k]
    {
      var j := ContentsOnly(b', k);
      assert Swept(b[j], b'[j], keep);
      ContentsHas(b, j);
    }
    forall k | k in Retained(m, keep)
      ensures k in m'
    {
      var j := ContentsOnly(b, k);
      assert Swept(b[j], b'[j], keep);
      ContentsHas(b', j);
    }
    assert m'.Keys == Retained(m, keep).Keys;
  }

  // --------------------------------------------------------------- whole runs

  /** `E` is what the check of `try_remove_entry` fails with. */
  datatype Op<!K, !V, !E> =
    | Insert(key: K, value: V)
    | Get(key: K)
    | RemoveIf(key: K, wanted: V -> bool)
    | TryRemove(key: K, check: V -> Result<(), E>)
    | Retain(keep: (K, V) -> (bool, V))
    | Take
    | Len

  datatype Out<K, V, E> =
    | Entry(entry: Option<(K, V)>)
    | Tried(result: Result<(K, V), Option<E>>)
    | Value(value: Option<V>)
    | Size(size: nat)
    | Done

  /** The same call on a plain map. */
  ghost function Ideal<K, V, E>(m: map<K, V>, op: Op<K, V, E>): (map<K, V>, Out<K, V, E>) {
    match op
    case Insert(k, v) => (m[k := v], Entry(LookupEntry(m, k)))
    case Get(k) => (m, Value(Lookup(m, k)))
    case RemoveIf(k, wanted) =>
      if k in m && wanted(m[k]) then (m - {k}, Entry(Some((k, m[k])))) else (m, Entry(None))
    case TryRemove(k, check) =>
      if k !in m then (m, Tried(Err(None)))
      else (
        match check(m[k])
        case Ok(_) => (m - {k}, Tried(Ok((k, m[k]))))
        case Err(e) => (m, Tried(Err(Some(e)))))
    case Retain(keep) => (Retained(m, keep), Done)
    case Take => (map[], Size(|m|))
    case Len => (m, Size(|m|))
  }

  ghost function IdealRun<K, V, E>(m: map<K, V>, ops: seq<Op<K, V, E>>): (map<K, V>, seq<Out<K, V, E>>) {
    if ops == [] then (m, [])
    else
      var n := |ops| - 1;
      var (m1, outs) := IdealRun(m, ops[..n]);
      var (m2, out) := Ideal(m1, ops[n]);
      (m2, outs + [out])
  }

  method Perform<K(==), V, E>(h: HashMap<K, V>, op: Op<K, V, E>) returns (out: Out<K, V, E>)
    requires h.Valid()
    modifies h
    ensures h.Valid()
    ensures (h.Map(), out) == Ideal(old(h.Map()), op)
  {
    match op
    case Insert(k, v) => var r := h.Insert(k, v); out := Entry(r);
    case Get(k) => var r := h.Get(k); out := Value(r);
    case RemoveIf(k, wanted) => var r := h.RemoveEntryIf(k, wanted); out := Entry(r);
    case TryRemove(k, check) => var r := h.TryRemoveEntry(k, check); out := Tried(r);
    case Retain(keep) => h.RetainMut(keep); out := Done;
    case Take =>
      var taken := h.Take();
      var n := taken.Len();
      out := Size(n);
    case Len => var n := h.Len(); out := Size(n);
  }

  /** Refinement: over any sequence of calls, every result and the final contents are those of a plain map. */
  method PerformAll<K(==), V, E>(h: HashMap<K, V>, ops: seq<Op<K, V, E>>) returns (outs: seq<Out<K, V, E>>)
    requires h.Valid()
    modifies h
    ensures h.Valid()
    ensures (h.Map(), outs) == IdealRun(old(h.Map()), ops)
  {
    outs := [];
    for i := 0 to |ops|
      invariant h.Valid() && (h.Map(), outs) == IdealRun(old(h.Map()), ops[..i])
    {
      assert ops[..i + 1][..i] == ops[..i];
      var out := Perform(h, ops[i]);
      outs := outs + [out];
    }
    assert ops[..|ops|] == ops;
  }
}
