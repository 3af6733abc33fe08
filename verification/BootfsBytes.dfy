/** Byte-level layout of a boot image: little-endian words, padding, and tables of fixed-size records. */
module BootfsBytes {
  import opened Types

  type Byte = b: nat | b < 256
  type Bytes = seq<Byte>

  const PAGE: nat := 4096
  const WORD: nat := 8
  const LIMIT: nat := 0x1_0000_0000_0000_0000

  function RoundUp(n: nat): (r: nat)
    ensures r % PAGE == 0 && n <= r < n + PAGE
  {
    (n + PAGE - 1) / PAGE * PAGE
  }

  function Zeros(n: nat): (z: Bytes)
    ensures |z| == n && forall i :: 0 <= i < n ==> z[i] == 0
  {
    seq(n, _ => 0)
  }

  /** The `k` low bytes of `n`, lowest first. */
  function Le(n: nat, k: nat): (b: Bytes)
    ensures |b| == k
  {
    if k == 0 then [] else [n % 256] + Le(n / 256, k - 1)
  }

  function FromLe(b: Bytes): nat {
    if b == [] then 0 else b[0] + 256 * FromLe(b[1..])
  }

  function Bound(k: nat): (p: nat)
    ensures p > 0
  {
    if k == 0 then 1 else 256 * Bound(k - 1)
  }

  lemma {:induction false} LeRoundTrip(n: nat, k: nat)
    requires n < Bound(k)
    ensures FromLe(Le(n, k)) == n
  {
    if k == 0 {
    } else {
      LeRoundTrip(n / 256, k - 1);
      assert Le(n, k)[1..] == Le(n / 256, k - 1);
    }
  }

  lemma {:induction false} LeInverse(b: Bytes)
    ensures Le(FromLe(b), |b|) == b
  {
    if b == [] {
    } else {
      LeInverse(b[1..]);
      assert FromLe(b) % 256 == b[0] && FromLe(b) / 256 == FromLe(b[1..]);
    }
  }

  lemma WordRoundTrip(n: nat)
    requires n < LIMIT
    ensures FromLe(Le(n, WORD)) == n
  {
    assert Bound(8) == LIMIT by {
      assert Bound(2) == 0x1_0000;
      assert Bound(4) == 0x1_0000_0000;
      assert Bound(6) == 0x1_0000_0000_0000;
    }
    LeRoundTrip(n, WORD);
  }

  /** The bytes `[off, off + len)`; `None` where the source's slicing panics. */
  function Slice(image: Bytes, off: nat, len: nat): Option<Bytes> {
    if off + len <= |image| then Some(image[off..off + len]) else None
  }

  // ------------------------------------------------------------------- tables

  /** Records of one size laid end to end. */
  function Flat(rows: seq<Bytes>): Bytes {
    if rows == [] then [] else Flat(rows[..|rows| - 1]) + rows[|rows| - 1]
  }

  ghost predicate RowsOf(rows: seq<Bytes>, size: nat) {
    forall i :: 0 <= i < |rows| ==> |rows[i]| == size
  }

  lemma {:induction false} FlatRow(rows: seq<Bytes>, size: nat, i: nat)
    requires RowsOf(rows, size)
    ensures |Flat(rows)| == |rows| * size
    ensures i < |rows| ==> (i + 1) * size <= |rows| * size && Flat(rows)[i * size..(i + 1) * size] == rows[i]
  {
    if rows == [] {
    } else {
      var n := |rows| - 1;
      FlatRow(rows[..n], size, i);
      assert |rows| * size == n * size + size;
      if i < n {
        assert Flat(rows)[i * size..(i + 1) * size] == Flat(rows[..n])[i * size..(i + 1) * size];
      } else if i == n {
        assert (i + 1) * size == i * size + size;
      }
    }
  }

  lemma RowsExtend(rows: seq<Bytes>, row: Bytes)
    ensures Flat(rows + [row]) == Flat(rows) + row
  {
    assert (rows + [row])[..|rows|] == rows;
  }
}
