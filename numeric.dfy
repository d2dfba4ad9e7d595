/** Scalar helpers shared by the camera, screen and slideshow models:
    System.Math.Min/Max, the clamp idiom `Max(lo, Min(x, hi))`, Unity's
    `Mathf.Lerp` (which clamps its parameter to [0,1]) and `Random.Range`
    over floats, driven by a unit sample supplied by the caller. */
module Numeric {

  function Min(a: real, b: real): (r: real)
    ensures r <= a && r <= b && (r == a || r == b)
  {
    if a <= b then a else b
  }

  function Max(a: real, b: real): (r: real)
    ensures r >= a && r >= b && (r == a || r == b)
  {
    if a >= b then a else b
  }

  /** `System.Math.Max(lo, System.Math.Min(x, hi))`, the clamp every wheel and drag handler uses. */
  function Clamp(x: real, lo: real, hi: real): (r: real)
    requires lo <= hi
    ensures lo <= r <= hi
    ensures lo <= x <= hi ==> r == x
    ensures x < lo ==> r == lo
    ensures x > hi ==> r == hi
  {
    Max(lo, Min(x, hi))
  }

  /** `Mathf.Clamp01`. */
  function Clamp01(t: real): (r: real)
    ensures 0.0 <= r <= 1.0
    ensures 0.0 <= t <= 1.0 ==> r == t
  {
    Clamp(t, 0.0, 1.0)
  }

  /** `Mathf.Lerp(a, b, t)`: linear interpolation with the parameter clamped to [0,1]. */
  function Lerp(a: real, b: real, t: real): (r: real)
    ensures t <= 0.0 ==> r == a
    ensures t >= 1.0 ==> r == b
  {
    a + (b - a) * Clamp01(t)
  }

  lemma LerpEnds(a: real, b: real, t: real)
    ensures t <= 0.0 ==> Lerp(a, b, t) == a
    ensures t >= 1.0 ==> Lerp(a, b, t) == b
  {
  }

  /** An interpolated value lies between its end points, whatever the parameter. */
  lemma LerpBetween(a: real, b: real, t: real)
    ensures Min(a, b) <= Lerp(a, b, t) <= Max(a, b)
  {
    var c := Clamp01(t);
    var d := b - a;
    var m := d * c;
    assert Lerp(a, b, t) == a + m;
    if d >= 0.0 {
      ScaleBetween(d, c);
      assert 0.0 <= m <= d;
    } else {
      ScaleBetweenNegative(d, c);
      assert d <= m <= 0.0;
    }
  }

  /** Scaling a non-negative span by a unit factor stays within the span. */
  lemma ScaleBetween(x: real, c: real)
    requires x >= 0.0 && 0.0 <= c <= 1.0
    ensures 0.0 <= x * c <= x
  {
    assert x - x * c == x * (1.0 - c);
  }

  lemma ScaleBetweenNegative(x: real, c: real)
    requires x <= 0.0 && 0.0 <= c <= 1.0
    ensures x <= x * c <= 0.0
  {
    assert x * c - x == -x * (1.0 - c);
  }

  /** Both end points inside [lo, hi] keep every interpolated value inside. */
  lemma LerpInRange(a: real, b: real, t: real, lo: real, hi: real)
    requires lo <= a <= hi && lo <= b <= hi
    ensures lo <= Lerp(a, b, t) <= hi
  {
    LerpBetween(a, b, t);
  }

  /** `Random.Range(lo, hi)` for floats returns a value in [lo, hi], both ends
      included; the model takes the draw as a unit sample `u`. */
  function RandomRange(lo: real, hi: real, u: real): (r: real)
    requires lo <= hi && 0.0 <= u <= 1.0
    ensures lo <= r <= hi
    ensures u == 0.0 ==> r == lo
    ensures u == 1.0 ==> r == hi
  {
    var span := hi - lo;
    ScaleBetween(span, u);
    lo + span * u
  }
}
