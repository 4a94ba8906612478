// Binary64 numbers as 64-bit patterns: just what the codec needs to move
// integers in and out of a cJSON number.
module Ieee {
  import opened Optional
  import opened Text

  type Bits = n: int | 0 <= n < 0x1_0000_0000_0000_0000

  const MANTISSA := 0x10_0000_0000_0000 // 2^52
  const SAFE_MAX := 0x1f_ffff_ffff_ffff // 2^53 - 1

  function Pow2(k: nat): (r: nat)
    ensures r > 0
  {
    if k == 0 then 1 else 2 * Pow2(k - 1)
  }

  // Index of the highest set bit.
  function TopBit(n: nat): (k: nat)
    requires n > 0
    ensures Pow2(k) <= n < 2 * Pow2(k)
  {
    if n == 1 then 0 else 1 + TopBit(n / 2)
  }

  lemma {:induction false} Pow2Adds(a: nat, b: nat)
    ensures Pow2(a + b) == Pow2(a) * Pow2(b)
  {
    if a > 0 {
      Pow2Adds(a - 1, b);
      assert 2 * Pow2(a - 1) * Pow2(b) == Pow2(a) * Pow2(b);
    }
  }

  lemma {:induction false} Pow2Grows(a: nat, b: nat)
    requires a <= b
    ensures Pow2(a) <= Pow2(b)
  {
    if a < b {
      Pow2Grows(a, b - 1);
    }
  }

  lemma Pow2Of52()
    ensures Pow2(52) == MANTISSA
  {
    assert Pow2(4) == 16;
    Pow2Adds(4, 9);
    assert Pow2(9) == 2 * 2 * 2 * 2 * 2 * Pow2(4);
    Pow2Adds(13, 13);
    Pow2Adds(26, 26);
  }

  // (double)n for a 64-bit integer, rounding to nearest, ties to even.
  function FromInt(n: int): Bits
    requires IsInt64(n)
  {
    if n == 0 then 0
    else
      var a := if n < 0 then -n else n;
      var k := TopBit(a);
      assert k <= 63 by { TopBitBound(a); }
      var sign := if n < 0 then 0x8000_0000_0000_0000 else 0;
      if k <= 52 then
        assert a * Pow2(52 - k) < 2 * MANTISSA && a * Pow2(52 - k) >= MANTISSA by { ScaledRange(a, k); }
        sign + (1023 + k) * MANTISSA + (a * Pow2(52 - k) - MANTISSA)
      else
        var unit := Pow2(k - 52);
        var q, r := a / unit, a % unit;
        assert MANTISSA <= q < 2 * MANTISSA by { ShiftedRange(a, k); }
        var up := 2 * r > unit || (2 * r == unit && q % 2 == 1);
        sign + (1023 + k) * MANTISSA + (q - MANTISSA) + (if up then 1 else 0)
  }

  lemma TopBitBound(a: nat)
    requires 0 < a <= 0x8000_0000_0000_0000
    ensures TopBit(a) <= 63
  {
    Pow2Of52();
    assert Pow2(12) == 4096;
    Pow2Adds(52, 12);
    if TopBit(a) >= 64 {
      Pow2Grows(64, TopBit(a));
    }
  }

  lemma ScaledRange(a: nat, k: nat)
    requires a > 0 && k == TopBit(a) && k <= 52
    ensures MANTISSA <= a * Pow2(52 - k) < 2 * MANTISSA
  {
    var p, f := Pow2(k), Pow2(52 - k);
    Pow2Adds(k, 52 - k);
    Pow2Of52();
    MulLe(p, a, f);
    MulLt(a, 2 * p, f);
    MulAssoc(2, p, f);
  }

  lemma MulAssoc(a: int, b: int, c: int)
    ensures (a * b) * c == a * (b * c)
  {
  }

  lemma ShiftedRange(a: nat, k: nat)
    requires a > 0 && k == TopBit(a) && k > 52
    ensures MANTISSA <= a / Pow2(k - 52) < 2 * MANTISSA
  {
    var unit := Pow2(k - 52);
    Pow2Adds(52, k - 52);
    Pow2Of52();
    assert MANTISSA * unit <= a < 2 * MANTISSA * unit;
    var q := a / unit;
    assert a == q * unit + a % unit;
    assert (q + 1) * unit == q * unit + unit;
    if q < MANTISSA {
      MulLe(q + 1, MANTISSA, unit);
    } else if q >= 2 * MANTISSA {
      MulLe(2 * MANTISSA, q, unit);
    }
  }

  lemma MulLe(a: nat, b: nat, f: nat)
    requires a <= b
    ensures a * f <= b * f
  {
  }

  lemma MulLt(a: nat, b: nat, f: nat)
    requires a < b && f > 0
    ensures a * f < b * f
  {
  }

  // The integer a pattern denotes, when it denotes one within +-(2^53 - 1).
  function ToSafeInt(bits: Bits): (r: Option<int>)
    ensures r.Some? ==> -SAFE_MAX <= r.value <= SAFE_MAX
  {
    var negative := bits >= 0x8000_0000_0000_0000;
    var exponent := (bits / MANTISSA) % 2048;
    var fraction := bits % MANTISSA;
    if exponent == 0 && fraction == 0 then Some(0)
    else if exponent < 1023 || exponent > 1075 then None
    else
      var unit := Pow2(1075 - exponent);
      var m := MANTISSA + fraction;
      if m % unit != 0 then None
      else
        assert 0 <= m / unit <= m by { QuotientBound(m, unit); }
        Some(if negative then -(m / unit) else m / unit)
  }

  lemma QuotientBound(m: nat, unit: nat)
    requires unit > 0
    ensures 0 <= m / unit <= m
  {
    var q := m / unit;
    assert m == q * unit + m % unit;
    MulLe(1, unit, q);
  }

  lemma Unpack(negative: bool, exponent: nat, fraction: nat)
    requires exponent < 2048 && fraction < MANTISSA
    ensures var bits := (if negative then 0x8000_0000_0000_0000 else 0) + exponent * MANTISSA + fraction;
      && bits < 0x1_0000_0000_0000_0000
      && (bits >= 0x8000_0000_0000_0000 <==> negative)
      && (bits / MANTISSA) % 2048 == exponent && bits % MANTISSA == fraction
  {
    var bits := (if negative then 0x8000_0000_0000_0000 else 0) + exponent * MANTISSA + fraction;
    assert bits == ((if negative then 2048 else 0) + exponent) * MANTISSA + fraction;
    assert bits / MANTISSA == (if negative then 2048 else 0) + exponent;
  }

  // Every integer of at most 53 bits survives the trip through a double.
  lemma SafeIntRoundTrip(n: int)
    requires -SAFE_MAX <= n <= SAFE_MAX
    ensures ToSafeInt(FromInt(n)) == Some(n)
  {
    hide Pow2, TopBit;
    if n != 0 {
      var a := if n < 0 then -n else n;
      var k := TopBit(a);
      SafeTopBit(a);
      ScaledRange(a, k);
      var unit := Pow2(52 - k);
      Unpack(n < 0, 1023 + k, a * unit - MANTISSA);
      ScaledQuotient(a, unit);
    }
  }

  lemma SafeTopBit(a: nat)
    requires 0 < a <= SAFE_MAX
    ensures TopBit(a) <= 52
  {
    Pow2Of52();
    if TopBit(a) > 52 {
      Pow2Grows(53, TopBit(a));
    }
  }

  lemma ScaledQuotient(a: nat, unit: nat)
    requires unit > 0
    ensures (a * unit) % unit == 0 && (a * unit) / unit == a
  {
    var q, r := (a * unit) / unit, (a * unit) % unit;
    assert a * unit == q * unit + r;
    assert (q + 1) * unit == q * unit + unit;
    assert (a + 1) * unit == a * unit + unit;
    if q < a {
      MulLe(q + 1, a, unit);
    } else if q > a {
      MulLe(a + 1, q, unit);
    }
  }
}
