/** The fixed-point factor that turns clock ticks into nanoseconds. */
module Clock {
  import opened Bits

  const WORD32: nat := 0x1_0000_0000
  /** Nanoseconds in a millisecond, the period of one kilohertz. */
  const MS: nat := 1_000_000

  function Abs(x: int): nat {
    if x < 0 then 0 - x else x
  }

  /** The multiplier for a shift, rounded to the nearest integer. */
  function Mul(khz: nat, sft: nat): nat
    requires khz > 0
  {
    Div(MS * Pow2(sft) + khz / 2, khz)
  }

  lemma Powers()
    ensures Pow2(12) == 4096 && Pow2(32) == WORD32
  {
    assert Pow2(4) == 16;
    assert Pow2(8) == 256 by { assert Pow2(6) == 64; }
    assert Pow2(12) == 4096 by { assert Pow2(10) == 1024; }
    assert Pow2(16) == 65536 by { assert Pow2(14) == 16384; }
    assert Pow2(20) == 1048576 by { assert Pow2(18) == 262144; }
    assert Pow2(24) == 16777216 by { assert Pow2(22) == 4194304; }
    assert Pow2(28) == 268435456 by { assert Pow2(26) == 67108864; }
    assert Pow2(30) == 1073741824;
  }

  /** Rounding to nearest is off by at most half a divisor. */
  lemma NearestMul(khz: nat, sft: nat)
    requires khz > 0
    ensures 2 * Abs(Mul(khz, sft) * khz - MS * Pow2(sft)) <= khz
  {
    var n := MS * Pow2(sft) + khz / 2;
    assert n == khz * (n / khz) + n % khz;
    assert Mul(khz, sft) * khz == khz * (n / khz);
  }

  /** With twelve bits of shift the multiplier fits even the slowest clock. */
  lemma TwelveFits(khz: nat)
    requires khz > 0
    ensures Mul(khz, 12) < WORD32
  {
    Powers();
    var n := MS * 4096 + khz / 2;
    var q := n / khz;
    assert n == khz * q + n % khz;
    assert khz * WORD32 == WORD32 + (khz - 1) * WORD32;
    if q >= WORD32 { MulLe(khz, WORD32, q); }
  }

  /** The largest shift up to 32 whose rounded multiplier fits 32 bits; it never falls below 12. */
  method FactorFromFreq(khz: nat) returns (mul: nat, sft: nat)
    requires 0 < khz < WORD
    ensures 12 <= sft <= 32 && mul < WORD32 && mul == Mul(khz, sft)
    ensures 2 * Abs(mul * khz - MS * Pow2(sft)) <= khz
    ensures sft < 32 ==> Mul(khz, sft + 1) >= WORD32
  {
    hide Mul, Pow2;
    sft, mul := 32, 0;
    TwelveFits(khz);
    while sft > 0
      invariant 12 <= sft <= 32
      invariant sft < 32 ==> Mul(khz, sft + 1) >= WORD32
    {
      mul := Mul(khz, sft);
      if mul / WORD32 == 0 {
        NearestMul(khz, sft);
        return;
      }
      sft := sft - 1;
    }
  }

  /** No 64-bit overflow on the way. */
  lemma NoOverflow(khz: nat, sft: nat)
    requires 0 < khz < WORD && sft <= 32
    ensures MS * Pow2(sft) + khz / 2 < WORD
  {
    Powers();
    Pow2Mono(sft, 32);
    MulLe(MS, Pow2(sft), WORD32);
  }

  /** Nanoseconds for a number of ticks, as every clock reading computes them. */
  function Nanos(ticks: nat, mul: nat, sft: nat): nat {
    Div(ticks * mul, Pow2(sft))
  }

  function Div(x: nat, d: nat): nat
    requires d > 0
  {
    x / d
  }

  /**
   The true time is `ticks * 10^6 / khz` nanoseconds. Before truncation a conversion is off by at most
   `ticks / 2^(sft + 1)`; both sides are multiplied by `khz * 2^(sft + 1)` here.
   */
  lemma ConversionError(khz: nat, mul: nat, sft: nat, ticks: nat)
    requires khz > 0 && 2 * Abs(mul * khz - MS * Pow2(sft)) <= khz
    ensures 2 * Abs(ticks * mul * khz - ticks * MS * Pow2(sft)) <= ticks * khz
  {
    hide Pow2;
    var e := mul * khz - MS * Pow2(sft);
    assert ticks * mul * khz - ticks * MS * Pow2(sft) == ticks * e by {
      assert ticks * mul * khz == ticks * (mul * khz);
      assert ticks * MS * Pow2(sft) == ticks * (MS * Pow2(sft));
      assert ticks * e == ticks * (mul * khz) - ticks * (MS * Pow2(sft));
    }
    assert Abs(ticks * e) == ticks * Abs(e);
    MulLe(ticks, 2 * Abs(e), khz);
  }

  /** A clock reading is less than a nanosecond below the scaled value and never above it. */
  lemma Truncation(ticks: nat, mul: nat, sft: nat)
    ensures Nanos(ticks, mul, sft) * Pow2(sft) <= ticks * mul < (Nanos(ticks, mul, sft) + 1) * Pow2(sft)
  {
    hide Pow2;
    var p, x := Pow2(sft), ticks * mul;
    assert x == p * (x / p) + x % p;
    assert (x / p + 1) * p == p * (x / p) + p;
  }

  /** Readings never go back while the tick counter does not. */
  lemma NanosMonotone(early: nat, late: nat, mul: nat, sft: nat)
    requires early <= late
    ensures Nanos(early, mul, sft) <= Nanos(late, mul, sft)
  {
    hide Pow2;
    Truncation(early, mul, sft);
    Truncation(late, mul, sft);
    var p, a, b := Pow2(sft), Nanos(early, mul, sft), Nanos(late, mul, sft);
    assert early * mul <= late * mul by {
      assert early * mul == mul * early && late * mul == mul * late;
      MulLe(mul, early, late);
    }
    if b + 1 <= a {
      assert (b + 1) * p == p * (b + 1) && a * p == p * a;
      MulLe(p, b + 1, a);
    }
  }
}
