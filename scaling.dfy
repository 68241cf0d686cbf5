/** `scale_value` and the numeric helpers the handler uses: Python's `int()`
    on a number (truncation toward zero) and the `max(lo, min(hi, x))` clamp. */
module Scaling {
  import opened Wrappers
  import opened Exceptions

  /** Python's `int(x)` for a number: drops the fractional part, toward zero. */
  function Trunc(x: real): (r: int)
    ensures x >= 0.0 ==> 0 <= r && r as real <= x < r as real + 1.0
    ensures x < 0.0 ==> r <= 0 && r as real - 1.0 < x <= r as real
  {
    if x >= 0.0 then x.Floor else -((-x).Floor)
  }

  /** `max(lo, min(hi, x))` over reals; when `lo > hi` this is `lo`. */
  function ClampReal(lo: real, hi: real, x: real): (r: real)
    ensures lo <= r
    ensures r == lo || r == hi || r == x
    ensures lo <= hi ==> r <= hi
    ensures lo <= x <= hi ==> r == x
    ensures x <= lo ==> r == lo
    ensures lo <= hi <= x ==> r == hi
    ensures hi < lo ==> r == lo
  {
    var m := if hi <= x then hi else x;
    if lo >= m then lo else m
  }

  /** `max(lo, min(hi, x))` over integers. */
  function ClampInt(lo: int, hi: int, x: int): (r: int)
    ensures lo <= r
    ensures r == lo || r == hi || r == x
    ensures lo <= hi ==> r <= hi
    ensures lo <= x <= hi ==> r == x
    ensures x <= lo ==> r == lo
    ensures lo <= hi <= x ==> r == hi
    ensures hi < lo ==> r == lo
  {
    var m := if hi <= x then hi else x;
    if lo >= m then lo else m
  }

  /** The clamped input's position within the input span, 0 at `inMin` and 1 at `inMax`. */
  function Fraction(value: real, inMin: real, inMax: real): real
    requires inMin != inMax
  {
    (ClampReal(inMin, inMax, value) - inMin) / (inMax - inMin)
  }

  /** The exact scaled value before `int()` truncates it. */
  function Exact(value: real, inMin: real, inMax: real, outMin: int, outMax: int): real
    requires inMin != inMax
  {
    outMin as real + Fraction(value, inMin, inMax) * (outMax - outMin) as real
  }

  /** `scale_value`: clamp into `[inMin, inMax]`, map linearly onto the output
      span and truncate; a zero input span raises ZeroDivisionError. */
  function ScaleValue(value: real, inMin: real, inMax: real, outMin: int, outMax: int): (r: Result<int, Exception>)
    ensures r.Err? <==> inMin == inMax
    ensures r.Err? ==> r.error == ZeroDivisionError
  {
    if inMax - inMin == 0.0 then Err(ZeroDivisionError)
    else Ok(Trunc(Exact(value, inMin, inMax, outMin, outMax)))
  }

  function Min(a: int, b: int): int { if a <= b then a else b }

  function Max(a: int, b: int): int { if a <= b then b else a }

  /** Truncating a real that lies between two integers stays between them. */
  lemma TruncBetween(x: real, lo: int, hi: int)
    requires lo as real <= x <= hi as real
    ensures lo <= Trunc(x) <= hi
  {
  }

  lemma TruncMonotone(x: real, y: real)
    requires x <= y
    ensures Trunc(x) <= Trunc(y)
  {
  }

  lemma TruncOfInt(n: int)
    ensures Trunc(n as real) == n
  {
  }

  lemma DivSelf(d: real)
    requires d != 0.0
    ensures d / d == 1.0
  {
  }

  lemma MulMonotone(x: real, y: real, k: real)
    requires x <= y && 0.0 <= k
    ensures x * k <= y * k
  {
    assert (y - x) * k >= 0.0;
  }

  /** Dividing by a positive number keeps the order. */
  lemma DivMonotone(x: real, y: real, d: real)
    requires x <= y && 0.0 < d
    ensures x / d <= y / d
  {
    assert y / d - x / d == (y - x) / d;
    assert (y - x) / d >= 0.0;
  }

  /** Any input at or below `inMin` gives exactly `outMin`. */
  lemma ScaleSaturatesLow(value: real, inMin: real, inMax: real, outMin: int, outMax: int)
    requires inMin != inMax
    requires value <= inMin
    ensures ScaleValue(value, inMin, inMax, outMin, outMax) == Ok(outMin)
  {
    assert ClampReal(inMin, inMax, value) == inMin;
    assert Fraction(value, inMin, inMax) == 0.0;
    assert Exact(value, inMin, inMax, outMin, outMax) == outMin as real;
    TruncOfInt(outMin);
  }

  /** Any input at or above `inMax` gives exactly `outMax`. */
  lemma ScaleSaturatesHigh(value: real, inMin: real, inMax: real, outMin: int, outMax: int)
    requires inMin < inMax
    requires value >= inMax
    ensures ScaleValue(value, inMin, inMax, outMin, outMax) == Ok(outMax)
  {
    assert ClampReal(inMin, inMax, value) == inMax;
    DivSelf(inMax - inMin);
    assert Fraction(value, inMin, inMax) == 1.0;
    assert Exact(value, inMin, inMax, outMin, outMax) == outMax as real;
    TruncOfInt(outMax);
  }

  /** The position of the clamped input within the input span is in [0, 1];
      for a reversed span the clamp pins the input to `inMin`, so it is 0. */
  lemma FractionBounds(value: real, inMin: real, inMax: real)
    requires inMin != inMax
    ensures 0.0 <= Fraction(value, inMin, inMax) <= 1.0
  {
    var v := ClampReal(inMin, inMax, value);
    if inMin < inMax {
      var span := inMax - inMin;
      DivMonotone(0.0, v - inMin, span);
      DivMonotone(v - inMin, span, span);
      DivSelf(span);
    } else {
      assert v == inMin;
    }
  }

  /** For any non-degenerate input range the result lies between the two
      output bounds, whichever order they come in. */
  lemma ScaleBounds(value: real, inMin: real, inMax: real, outMin: int, outMax: int)
    requires inMin != inMax
    ensures ScaleValue(value, inMin, inMax, outMin, outMax).Ok?
    ensures Min(outMin, outMax) <= ScaleValue(value, inMin, inMax, outMin, outMax).value <= Max(outMin, outMax)
  {
    var f := Fraction(value, inMin, inMax);
    FractionBounds(value, inMin, inMax);
    var lo, hi := Min(outMin, outMax), Max(outMin, outMax);
    Lerp(outMin as real, (outMax - outMin) as real, f);
    assert outMin as real + (outMax - outMin) as real == outMax as real;
    TruncBetween(Exact(value, inMin, inMax, outMin, outMax), lo, hi);
  }

  /** Moving from `a` a fraction `f` in [0, 1] of the way by `k` stays
      between `a` and `a + k`. */
  lemma Lerp(a: real, k: real, f: real)
    requires 0.0 <= f <= 1.0
    ensures 0.0 <= k ==> a <= a + f * k <= a + k
    ensures k <= 0.0 ==> a + k <= a + f * k <= a
  {
    if 0.0 <= k {
      ScaleNonNegative(f, k);
    }
    if k <= 0.0 {
      ScaleNonPositive(f, k);
    }
  }

  /** A fraction of a non-negative amount is between 0 and the amount. */
  lemma ScaleNonNegative(f: real, k: real)
    requires 0.0 <= f <= 1.0 && 0.0 <= k
    ensures 0.0 <= f * k <= k
  {
    assert (1.0 - f) * k >= 0.0;
  }

  /** A fraction of a non-positive amount is between the amount and 0. */
  lemma ScaleNonPositive(f: real, k: real)
    requires 0.0 <= f <= 1.0 && k <= 0.0
    ensures k <= f * k <= 0.0
  {
    assert (1.0 - f) * k <= 0.0;
  }

  /** With an increasing input range and ordered output bounds the result is in
      `[outMin, outMax]`. */
  lemma ScaleInOutputRange(value: real, inMin: real, inMax: real, outMin: int, outMax: int)
    requires inMin < inMax && outMin <= outMax
    ensures ScaleValue(value, inMin, inMax, outMin, outMax).Ok?
    ensures outMin <= ScaleValue(value, inMin, inMax, outMin, outMax).value <= outMax
  {
    ScaleBounds(value, inMin, inMax, outMin, outMax);
  }

  /** A larger input never gives a smaller output. */
  lemma ScaleMonotone(v1: real, v2: real, inMin: real, inMax: real, outMin: int, outMax: int)
    requires inMin < inMax && outMin <= outMax
    requires v1 <= v2
    ensures ScaleValue(v1, inMin, inMax, outMin, outMax).Ok?
    ensures ScaleValue(v2, inMin, inMax, outMin, outMax).Ok?
    ensures ScaleValue(v1, inMin, inMax, outMin, outMax).value <= ScaleValue(v2, inMin, inMax, outMin, outMax).value
  {
    var c1 := ClampReal(inMin, inMax, v1);
    var c2 := ClampReal(inMin, inMax, v2);
    assert c1 <= c2;
    DivMonotone(c1 - inMin, c2 - inMin, inMax - inMin);
    var f1 := Fraction(v1, inMin, inMax);
    var f2 := Fraction(v2, inMin, inMax);
    MulMonotone(f1, f2, (outMax - outMin) as real);
    TruncMonotone(Exact(v1, inMin, inMax, outMin, outMax), Exact(v2, inMin, inMax, outMin, outMax));
  }

  /** The fader range 0.0..1.0 -> 0..127: the ends are exact and the midpoint
      is truncated to 63, not rounded to 64. */
  lemma FaderScaling()
    ensures ScaleValue(0.0, 0.0, 1.0, 0, 127) == Ok(0)
    ensures ScaleValue(0.5, 0.0, 1.0, 0, 127) == Ok(63)
    ensures ScaleValue(1.0, 0.0, 1.0, 0, 127) == Ok(127)
  {
    assert (63.5).Floor == 63;
  }
}
