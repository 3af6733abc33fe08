/**
 Powers of two and the bitwise operations the kernel uses on addresses and
 page numbers, defined on unbounded naturals one bit at a time.
 */
module Bits {

  function Pow2(k: nat): (p: nat)
    ensures p >= 1
  {
    if k == 0 then 1 else 2 * Pow2(k - 1)
  }

  lemma {:induction false} Pow2Mono(a: nat, b: nat)
    requires a <= b
    ensures Pow2(a) <= Pow2(b)
  {
    if a < b { Pow2Mono(a, b - 1); }
  }

  /** `a` is a multiple of `2^k`: its `k` low bits are clear. */
  predicate Aligned(a: nat, k: nat) {
    k == 0 || (a % 2 == 0 && Aligned(a / 2, k - 1))
  }

  predicate IsPow2(n: nat) {
    n == 1 || (n > 1 && n % 2 == 0 && IsPow2(n / 2))
  }

  function And(a: nat, b: nat): (r: nat)
    ensures r <= a && r <= b
  {
    if a == 0 || b == 0 then 0 else (if a % 2 == 1 && b % 2 == 1 then 1 else 0) + 2 * And(a / 2, b / 2)
  }

  function Xor(a: nat, b: nat): nat {
    if a == 0 then b else if b == 0 then a else (a + b) % 2 + 2 * Xor(a / 2, b / 2)
  }

  /** Masking with `n - 1` is reduction modulo `n` when `n` is a power of two. */
  lemma {:induction false} MaskIsMod(i: nat, n: nat)
    requires IsPow2(n)
    ensures And(i, n - 1) == i % n
  {
    if n <= 1 {
    } else {
      var h := n / 2;
      AndHalves(i, h);
      MaskIsMod(i / 2, h);
      HalveMod(i, h);
    }
  }

  lemma AndHalves(i: nat, h: nat)
    requires h > 0
    ensures And(i, 2 * h - 1) == i % 2 + 2 * And(i / 2, h - 1)
  {
    var m := 2 * h - 1;
    assert m / 2 == h - 1 && m % 2 == 1;
    if i > 0 {
      assert And(i, m) == (if i % 2 == 1 && m % 2 == 1 then 1 else 0) + 2 * And(i / 2, m / 2);
    }
  }

  lemma HalveMod(i: nat, h: nat)
    requires h > 0
    ensures i % (2 * h) == i % 2 + 2 * ((i / 2) % h)
  {
    var q, r := i / 2 / h, (i / 2) % h;
    var d := 2 * h;
    assert i == d * q + (2 * r + i % 2) by {
      assert i / 2 == h * q + r;
      assert d * q == 2 * (h * q);
    }
    ModUnique(i, d, q, 2 * r + i % 2);
  }

  lemma MulAtLeast(d: nat, x: int)
    requires x >= 1
    ensures d * x >= d
  {
    assert d * x == d * (x - 1) + d;
  }

  lemma MulLe(a: nat, x: nat, y: nat)
    requires x <= y
    ensures a * x <= a * y
  {
    assert a * y == a * x + a * (y - x);
  }

  lemma ModUnique(a: nat, d: nat, q: nat, r: nat)
    requires 0 <= r < d && a == d * q + r
    ensures a % d == r && a / d == q
  {
    var q', r' := a / d, a % d;
    assert a == d * q' + r';
    var x := q - q';
    assert d * x == d * q - d * q';
    if x >= 1 {
      MulAtLeast(d, x);
    } else if x <= -1 {
      assert d * (-x) == -(d * x);
      MulAtLeast(d, -x);
    }
  }

  // ------------------------------------------------------------ aligned blocks

  /** Having `k` low zero bits is being a multiple of `2^k`. */
  lemma {:induction false} AlignedIsMultiple(a: nat, k: nat)
    ensures Aligned(a, k) <==> a % Pow2(k) == 0
  {
    if k == 0 {
    } else {
      AlignedIsMultiple(a / 2, k - 1);
      HalveMod(a, Pow2(k - 1));
    }
  }

  lemma {:induction false} AlignedMono(a: nat, k: nat, j: nat)
    requires k <= j && Aligned(a, j)
    ensures Aligned(a, k)
  {
    if k == 0 {
    } else {
      AlignedMono(a / 2, k - 1, j - 1);
    }
  }

  /** Two different multiples of `2^k` are at least `2^k` apart. */
  lemma {:induction false} AlignedGap(a: nat, b: nat, k: nat)
    requires Aligned(a, k) && Aligned(b, k) && a < b
    ensures a + Pow2(k) <= b
  {
    if k == 0 {
    } else {
      AlignedGap(a / 2, b / 2, k - 1);
    }
  }

  lemma {:induction false} AlignedAdd(a: nat, b: nat, k: nat)
    requires Aligned(a, k) && Aligned(b, k)
    ensures Aligned(a + b, k)
    ensures a >= b ==> Aligned(a - b, k)
  {
    if k == 0 {
    } else {
      AlignedAdd(a / 2, b / 2, k - 1);
      assert (a + b) / 2 == a / 2 + b / 2;
      assert a >= b ==> (a - b) / 2 == a / 2 - b / 2;
    }
  }

  lemma {:induction false} Pow2Aligned(k: nat, j: nat)
    requires k <= j
    ensures Aligned(Pow2(j), k)
  {
    if k == 0 {
    } else {
      Pow2Aligned(k - 1, j - 1);
      assert Pow2(j) == 2 * Pow2(j - 1);
      assert Pow2(j) % 2 == 0 && Pow2(j) / 2 == Pow2(j - 1);
    }
  }

  /** Of two neighbouring blocks of size `2^k` exactly one starts a block of size `2^(k+1)`. */
  lemma {:induction false} AlignedParity(a: nat, k: nat)
    requires Aligned(a, k)
    ensures Aligned(a, k + 1) <==> !Aligned(a + Pow2(k), k + 1)
    ensures !Aligned(a, k + 1) ==> a >= Pow2(k) && Aligned(a - Pow2(k), k + 1)
  {
    if k == 0 {
      assert Aligned(a, 1) <==> a % 2 == 0;
      assert Aligned(a + 1, 1) <==> (a + 1) % 2 == 0;
      assert a > 0 ==> (Aligned(a - 1, 1) <==> (a - 1) % 2 == 0);
    } else {
      AlignedParity(a / 2, k - 1);
      assert (a + Pow2(k)) / 2 == a / 2 + Pow2(k - 1);
      assert a >= Pow2(k) ==> (a - Pow2(k)) / 2 == a / 2 - Pow2(k - 1);
    }
  }

  /** Flipping bit `k` of a multiple of `2^k` moves to the other half of its `2^(k+1)` block. */
  lemma {:induction false} XorBit(a: nat, k: nat)
    requires Aligned(a, k)
    ensures !Aligned(a, k + 1) ==> a >= Pow2(k)
    ensures Xor(a, Pow2(k)) == (if Aligned(a, k + 1) then a + Pow2(k) else a - Pow2(k))
  {
    AlignedParity(a, k);
    if k == 0 {
      assert Aligned(a, 1) <==> a % 2 == 0;
    } else if a > 0 {
      XorBit(a / 2, k - 1);
      XorHalf(a, k);
      assert a == 2 * (a / 2) && Aligned(a, k + 1) == Aligned(a / 2, k);
    }
  }

  lemma XorHalf(a: nat, k: nat)
    requires a > 0 && k > 0 && a % 2 == 0
    ensures Xor(a, Pow2(k)) == 2 * Xor(a / 2, Pow2(k - 1))
  {
    XorDouble(a / 2, Pow2(k - 1));
    assert a == 2 * (a / 2) && Pow2(k) == 2 * Pow2(k - 1);
  }

  lemma XorDouble(x: nat, y: nat)
    requires x > 0 && y > 0
    ensures Xor(2 * x, 2 * y) == 2 * Xor(x, y)
  {
    assert 2 * x / 2 == x && 2 * y / 2 == y && (2 * x + 2 * y) % 2 == 0;
  }

  lemma {:induction false} AndSelf(a: nat)
    ensures And(a, a) == a
  {
    if a == 0 {
    } else {
      AndSelf(a / 2);
    }
  }

  /** Clearing bit `k` of a multiple of `2^k` gives the start of its `2^(k+1)` block. */
  lemma {:induction false} AndXorBit(a: nat, k: nat)
    requires Aligned(a, k)
    ensures !Aligned(a, k + 1) ==> a >= Pow2(k)
    ensures And(a, Xor(a, Pow2(k))) == (if Aligned(a, k + 1) then a else a - Pow2(k))
  {
    XorBit(a, k);
    if k == 0 {
      assert Aligned(a, 1) <==> a % 2 == 0;
      AndSelf(a / 2);
    } else if a > 0 {
      AndXorBit(a / 2, k - 1);
      AndXorHalf(a, k);
    }
  }

  lemma AndXorHalf(a: nat, k: nat)
    requires a > 0 && k > 0 && a % 2 == 0
    ensures And(a, Xor(a, Pow2(k))) == 2 * And(a / 2, Xor(a / 2, Pow2(k - 1)))
  {
    XorHalf(a, k);
  }

  // ------------------------------------------------------- bit scans (64 bits)

  const WORD: nat := 0x1_0000_0000_0000_0000

  /** Trailing zeros; 64 for zero. */
  function Lsb(n: nat): nat {
    if n == 0 then 64 else if n % 2 == 1 then 0 else 1 + Lsb(n / 2)
  }

  /** Index of the highest set bit; for zero the 64-bit subtraction wraps. */
  function Msb(n: nat): nat {
    if n == 0 then WORD - 1 else if n == 1 then 0 else 1 + Msb(n / 2)
  }

  /** Ceiling of the base-two logarithm, with the addition wrapping at 64 bits. */
  function Log2c(n: nat): nat {
    (Msb(n) + if Msb(n) != Lsb(n) then 1 else 0) % WORD
  }

  lemma {:induction false} LsbAligns(n: nat, k: nat)
    requires n == 0 || k <= Lsb(n)
    ensures Aligned(n, k)
  {
    if k == 0 {
    } else {
      if n == 0 { LsbAligns(0, k - 1); } else { LsbAligns(n / 2, k - 1); }
    }
  }

  lemma {:induction false} MsbBounds(n: nat)
    requires n > 0
    ensures Pow2(Msb(n)) <= n < Pow2(Msb(n) + 1)
    ensures Lsb(n) <= Msb(n)
    ensures Lsb(n) == Msb(n) <==> n == Pow2(Msb(n))
  {
    if n <= 1 {
    } else {
      MsbBounds(n / 2);
    }
  }

  lemma {:induction false} Pow2Grows(k: nat)
    ensures k < Pow2(k)
  {
    if k == 0 {
    } else {
      Pow2Grows(k - 1);
    }
  }

  /** `Log2c` is the least order whose block holds `n` pages; zero wraps round to order 0. */
  lemma Log2cIsLeast(n: nat)
    requires n < WORD
    ensures n <= Pow2(Log2c(n))
    ensures n > 1 ==> Log2c(n) > 0 && Pow2(Log2c(n) - 1) < n
    ensures n <= 1 ==> Log2c(n) == 0
  {
    if n > 1 {
      MsbBounds(n);
      Pow2Grows(Msb(n));
    }
  }
}
