/** Decimal values as (mantissa, scale) pairs, and their exact placement on the
    integer grid of a given number of decimal places. */
module Decimals {
  import opened Sums
  import opened Widths
  import opened Wrappers

  const I128_LIMIT: nat := 0x8000_0000_0000_0000_0000_0000_0000_0000
  const MAX_SCALE: nat := 28

  /** mantissa / 10^scale; the library carries 96-bit mantissas and at most 28 places. */
  datatype Decimal = Decimal(mantissa: int, scale: nat) {
    predicate Valid() {
      -0x1_0000_0000_0000_0000_0000_0000 < mantissa < 0x1_0000_0000_0000_0000_0000_0000 && scale <= MAX_SCALE
    }
  }

  function Pow10(n: nat): (p: nat)
    ensures p > 0
  {
    if n == 0 then 1 else 10 * Pow10(n - 1)
  }

  lemma {:induction false} Pow10Splits(a: nat, b: nat)
    ensures Pow10(a + b) == Pow10(a) * Pow10(b)
  {
    if a > 0 {
      Pow10Splits(a - 1, b);
      assert 10 * (Pow10(a - 1) * Pow10(b)) == (10 * Pow10(a - 1)) * Pow10(b);
    }
  }

  lemma {:induction false} Pow10Grows(a: nat, b: nat)
    requires a <= b
    ensures Pow10(a) <= Pow10(b)
  {
    if a < b {
      Pow10Grows(a, b - 1);
    }
  }

  lemma Pow10At16()
    ensures Pow10(16) == 1_0000_0000_0000_0000
  {
    assert Pow10(2) == 100;
    Pow10Splits(2, 2);
    Pow10Splits(4, 4);
    Pow10Splits(8, 8);
  }

  lemma Pow10At38()
    ensures Pow10(38) == 100_0000_0000_0000_0000_0000_0000_0000_0000_0000
  {
    Pow10At16();
    assert Pow10(2) == 100;
    Pow10Splits(2, 2);
    Pow10Splits(16, 16);
    Pow10Splits(32, 4);
    Pow10Splits(36, 2);
  }

  lemma Pow10Of(n: nat)
    requires n <= 38
    ensures Pow10(n) < I128_LIMIT
  {
    Pow10At38();
    Pow10Grows(n, 38);
  }

  lemma Pow10Past(n: nat)
    requires n >= 39
    ensures Pow10(n) >= TWO_128
  {
    Pow10At38();
    assert Pow10(39) == 10 * Pow10(38);
    Pow10Grows(39, n);
  }

  /** Two decimals that write the same number. */
  ghost predicate SameValue(d: Decimal, e: Decimal) {
    d.mantissa * Pow10(e.scale) == e.mantissa * Pow10(d.scale)
  }

  /** k grid units are at most the value: k / 10^scale <= mantissa / 10^d.scale. */
  ghost predicate AtMost(k: nat, d: Decimal, scale: nat) {
    k * Pow10(d.scale) <= d.mantissa * Pow10(scale)
  }

  /** k grid units are at least the value. */
  ghost predicate AtLeast(k: nat, d: Decimal, scale: nat) {
    k * Pow10(d.scale) >= d.mantissa * Pow10(scale)
  }

  /** Comparisons with the grid depend on the number, not on how it is written. */
  lemma ComparisonsIgnoreScale(d: Decimal, e: Decimal, k: nat, scale: nat)
    requires SameValue(d, e)
    ensures AtMost(k, d, scale) <==> AtMost(k, e, scale)
    ensures AtLeast(k, d, scale) <==> AtLeast(k, e, scale)
  {
    SameRatio(k, d.mantissa, e.mantissa, Pow10(d.scale), Pow10(e.scale), Pow10(scale));
  }

  lemma Regroup(x: int, y: int, z: int)
    ensures (x * y) * z == (x * z) * y
  {}

  /** Equal fractions m/p and n/q lie on the same side of k/s. */
  lemma SameRatio(k: int, m: int, n: int, p: nat, q: nat, s: nat)
    requires p > 0 && q > 0 && m * q == n * p
    ensures k * p <= m * s <==> k * q <= n * s
    ensures k * p >= m * s <==> k * q >= n * s
  {
    ScaleCompare(k * p, m * s, q);
    ScaleCompare(k * q, n * s, p);
    Regroup(k, p, q);
    Regroup(m, s, q);
    Regroup(n, s, p);
  }

  lemma ScaleCompare(x: int, y: int, c: nat)
    requires c > 0
    ensures x <= y <==> x * c <= y * c
    ensures x >= y <==> x * c >= y * c
  {
    Distribute(c, x, y - x);
    if x < y {
      MulMonotone(c, 1, y - x);
    } else if y < x {
      MulMonotone(c, 1, x - y);
      Distribute(c, y, x - y);
    }
  }

  // ------------------------------------------------------------ split_minor

  datatype Split = Split(minor: nat, remainder: bool) | Negative | TooLarge

  /** 10^n when the signed 128-bit type holds it. */
  function CheckedPow10(n: nat): Option<nat> {
    if n > 38 || Pow10(n) >= I128_LIMIT then None else Some(Pow10(n))
  }

  function Narrow(quotient: nat, remainder: bool): Split {
    if quotient >= TWO_64 then TooLarge else Split(quotient, remainder)
  }

  function SplitMinor(d: Decimal, scale: nat): Split {
    if d.mantissa < 0 then Negative
    else if scale >= d.scale then
      match CheckedPow10(scale - d.scale)
      case None => TooLarge
      case Some(shift) =>
        var product := d.mantissa * shift;
        if product >= I128_LIMIT then TooLarge else Narrow(product, false)
    else
      match CheckedPow10(d.scale - scale)
      case None => TooLarge
      case Some(shift) => Narrow(d.mantissa / shift, d.mantissa % shift != 0)
  }

  /** The split is exact: the floor on the grid, and whether anything lies below
      it; and it fails precisely on negative values and floors past 64 bits. */
  lemma SplitMinorIsExact(d: Decimal, scale: nat)
    requires d.Valid() && scale <= MAX_SCALE
    ensures var r := SplitMinor(d, scale);
            && (r.Negative? <==> d.mantissa < 0)
            && (r.TooLarge? <==> AtMost(TWO_64, d, scale))
            && (r.Split? ==>
                  && AtMost(r.minor, d, scale) && !AtMost(r.minor + 1, d, scale)
                  && r.minor < TWO_64
                  && (r.remainder <==> !AtLeast(r.minor, d, scale)))
  {
    if d.mantissa < 0 {
      NegativeIsBelow(d, scale);
    } else if scale >= d.scale {
      var n := scale - d.scale;
      Pow10Of(n);
      FinerGrid(d, scale, d.mantissa * Pow10(n));
    } else {
      Pow10Of(d.scale - scale);
      CoarserGrid(d, scale);
    }
  }

  lemma NegativeIsBelow(d: Decimal, scale: nat)
    requires d.mantissa < 0
    ensures !AtMost(TWO_64, d, scale)
  {
    assert d.mantissa * Pow10(scale) < 0;
  }

  lemma FinerGrid(d: Decimal, scale: nat, units: nat)
    requires d.mantissa >= 0 && scale >= d.scale
    requires units == d.mantissa * Pow10(scale - d.scale)
    ensures forall k: nat :: AtMost(k, d, scale) <==> k <= units
    ensures forall k: nat :: AtLeast(k, d, scale) <==> k >= units
  {
    Pow10Splits(scale - d.scale, d.scale);
    var p := Pow10(d.scale);
    assert d.mantissa * Pow10(scale) == units * p;
    forall k: nat
      ensures AtMost(k, d, scale) <==> k <= units
      ensures AtLeast(k, d, scale) <==> k >= units
    {
      ScaleCompare(k, units, p);
    }
  }

  lemma CoarserGrid(d: Decimal, scale: nat)
    requires d.mantissa >= 0 && scale < d.scale
    ensures var shift := Pow10(d.scale - scale);
            && (forall k: nat :: AtMost(k, d, scale) <==> k <= d.mantissa / shift)
            && (forall k: nat :: AtLeast(k, d, scale) <==>
                  k >= d.mantissa / shift + if d.mantissa % shift == 0 then 0 else 1)
  {
    var shift, s := Pow10(d.scale - scale), Pow10(scale);
    Pow10Splits(d.scale - scale, scale);
    forall k: nat
      ensures AtMost(k, d, scale) <==> k <= d.mantissa / shift
      ensures AtLeast(k, d, scale) <==> k >= d.mantissa / shift + if d.mantissa % shift == 0 then 0 else 1
    {
      assert k * Pow10(d.scale) == (k * shift) * s;
      ScaleCompare(k * shift, d.mantissa, s);
      AroundQuotient(k, d.mantissa, shift);
    }
  }

  lemma AroundQuotient(k: nat, m: nat, shift: nat)
    requires shift > 0
    ensures k * shift <= m <==> k <= m / shift
    ensures k * shift >= m <==> k >= m / shift + if m % shift == 0 then 0 else 1
  {
    var q, r := m / shift, m % shift;
    assert m == shift * q + r && 0 <= r < shift;
    DivReaches(m, shift, k);
    if k > q {
      MulMonotone(shift, q + 1, k);
      Distribute(shift, q, 1);
    } else {
      MulMonotone(shift, k, q);
    }
  }

  /** How the number is written never matters. */
  lemma SplitMinorIgnoresScale(d: Decimal, e: Decimal, scale: nat)
    requires d.Valid() && e.Valid() && scale <= MAX_SCALE && SameValue(d, e)
    ensures SplitMinor(d, scale) == SplitMinor(e, scale)
  {
    SplitMinorIsExact(d, scale);
    SplitMinorIsExact(e, scale);
    ComparisonsIgnoreScale(d, e, TWO_64, scale);
    SameSign(d, e);
    var r, t := SplitMinor(d, scale), SplitMinor(e, scale);
    if r.Split? {
      ComparisonsIgnoreScale(d, e, r.minor, scale);
      ComparisonsIgnoreScale(d, e, r.minor + 1, scale);
      FloorIsUnique(e, scale, r.minor, t.minor);
    }
  }

  lemma SameSign(d: Decimal, e: Decimal)
    requires SameValue(d, e)
    ensures d.mantissa < 0 <==> e.mantissa < 0
    ensures d.mantissa == 0 <==> e.mantissa == 0
  {
    ScaleCompare(d.mantissa, 0, Pow10(e.scale));
    ScaleCompare(e.mantissa, 0, Pow10(d.scale));
  }

  lemma FloorIsUnique(d: Decimal, scale: nat, a: nat, b: nat)
    requires AtMost(a, d, scale) && !AtMost(a + 1, d, scale)
    requires AtMost(b, d, scale) && !AtMost(b + 1, d, scale)
    ensures a == b
  {
    if a < b {
      AtMostDownward(d, scale, a + 1, b);
    } else if b < a {
      AtMostDownward(d, scale, b + 1, a);
    }
  }

  lemma AtMostDownward(d: Decimal, scale: nat, a: nat, b: nat)
    requires a <= b && AtMost(b, d, scale)
    ensures AtMost(a, d, scale)
  {
    MulMonotone(Pow10(d.scale), a, b);
  }

  // ------------------------------------------------------------ ceil_scaled

  /** 10^n when the unsigned 128-bit type holds it. */
  function UnsignedPow10(n: nat): Option<nat> {
    if Pow10(n) >= TWO_128 then None else Some(Pow10(n))
  }

  function Fit128(x: nat): Option<nat> {
    if x >= TWO_128 then None else Some(x)
  }

  function CeilScaled(d: Decimal, scale: nat): Option<nat> {
    if d.mantissa < 0 then None
    else if scale >= d.scale then
      match UnsignedPow10(scale - d.scale)
      case None => None
      case Some(shift) => Fit128(d.mantissa * shift)
    else
      match UnsignedPow10(d.scale - scale)
      case None => None
      case Some(shift) =>
        if d.mantissa % shift > 0 then Fit128(d.mantissa / shift + 1) else Some(d.mantissa / shift)
  }

  /** A successful ceiling is the least grid point at or above the value. */
  lemma CeilScaledIsCeiling(d: Decimal, scale: nat)
    requires d.Valid() && CeilScaled(d, scale).Some?
    ensures d.mantissa >= 0
    ensures forall k: nat :: AtLeast(k, d, scale) <==> k >= CeilScaled(d, scale).value
  {
    if scale >= d.scale {
      FinerGrid(d, scale, d.mantissa * Pow10(scale - d.scale));
    } else {
      CoarserGrid(d, scale);
    }
  }

  /** The ceiling is refused exactly on negative values, on ceilings past 128
      bits, and on a zero written with too few places for the power of ten that
      would scale it. */
  lemma CeilScaledSucceeds(d: Decimal, scale: nat)
    requires d.Valid()
    ensures CeilScaled(d, scale).Some? <==>
            && d.mantissa >= 0
            && (d.mantissa == 0 ==> scale <= d.scale + 38)
            && AtLeast(TWO_128 - 1, d, scale)
  {
    if d.mantissa < 0 {
    } else if scale >= d.scale {
      var n := scale - d.scale;
      FinerGrid(d, scale, d.mantissa * Pow10(n));
      if n >= 39 {
        Pow10Past(n);
        if d.mantissa > 0 {
          MulMonotone(Pow10(n), 1, d.mantissa);
        }
      } else {
        Pow10Of(n);
      }
    } else {
      Pow10Of(d.scale - scale);
      CoarserGrid(d, scale);
      DivReaches(d.mantissa, Pow10(d.scale - scale), d.mantissa + 1);
      MulMonotone(d.mantissa + 1, 1, Pow10(d.scale - scale));
    }
  }

  /** Equal numbers get the same ceiling if and only if they are not a zero that
      one spelling can scale and the other cannot. */
  lemma CeilScaledIgnoresScaleUnlessZero(d: Decimal, e: Decimal, scale: nat)
    requires d.Valid() && e.Valid() && SameValue(d, e)
    ensures CeilScaled(d, scale) == CeilScaled(e, scale) <==>
            (d.mantissa == 0 ==> (scale <= d.scale + 38 <==> scale <= e.scale + 38))
  {
    CeilScaledSucceeds(d, scale);
    CeilScaledSucceeds(e, scale);
    SameSign(d, e);
    ComparisonsIgnoreScale(d, e, TWO_128 - 1, scale);
    var r, t := CeilScaled(d, scale), CeilScaled(e, scale);
    if d.mantissa == 0 {
      assert AtLeast(TWO_128 - 1, d, scale);
    }
    if r.Some? && t.Some? {
      CeilScaledIsCeiling(d, scale);
      CeilScaledIsCeiling(e, scale);
      ComparisonsIgnoreScale(d, e, r.value, scale);
      ComparisonsIgnoreScale(d, e, t.value, scale);
    }
  }

  /** The spelling that breaks it: zero with no places against zero with 28, on
      the finest notional grid an instrument can have. */
  lemma ZeroFloorDependsOnSpelling()
    ensures SameValue(Decimal(0, 0), Decimal(0, 28))
    ensures CeilScaled(Decimal(0, 0), 56) == None
    ensures CeilScaled(Decimal(0, 28), 56) == Some(0)
  {
    CeilScaledSucceeds(Decimal(0, 0), 56);
    Pow10Of(28);
  }
}
