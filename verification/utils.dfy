/** `RayTracingEngine.Math.Utils`: clamping of RGBA colours and linear
    interpolation. Colours are sequences of four reals (red, green, blue,
    alpha). */
module Utils {
  import opened RealMath

  /** A single-precision value as far as the clamp cares: either NaN or a
      number. NaN only arises in the source from IEEE arithmetic, which the
      rest of the model does not reproduce. */
  datatype Float = NaN | Num(value: real)

  /** C#'s `a % n`: the remainder takes the sign of the dividend. */
  function TruncRem(a: int, n: nat): (r: int)
    requires n > 0
    ensures a >= 0 ==> 0 <= r < n
    ensures a < 0 ==> -(n as int) < r <= 0
  {
    if a >= 0 then a % n else -((-a) % n)
  }

  /** `System.Math.Clamp`, which throws when `lo > hi`. */
  function Clamp(v: real, lo: real, hi: real): (r: real)
    requires lo <= hi
    ensures lo <= r <= hi
    ensures lo <= v <= hi ==> r == v
    ensures v < lo ==> r == lo
    ensures v > hi ==> r == hi
  {
    if v < lo then lo else if v > hi then hi else v
  }

  /** One channel of `ClampRgbaValues`: NaN becomes 0, anything else is
      clamped. */
  function ClampChannel(v: Float, lo: real, hi: real): real
    requires lo <= hi
  {
    if v.NaN? then 0.0 else Clamp(v.value, lo, hi)
  }

  /** `Utils.ClampRgbaValues`: reads the first four entries only (the source
      indexes `values[0..3]`, so a shorter array is an error there) and returns
      exactly four. */
  function ClampRgbaValues(values: seq<Float>, lo: real, hi: real): (r: seq<real>)
    requires |values| >= 4
    requires lo <= hi
    ensures |r| == 4
    ensures forall i :: 0 <= i < 4 && values[i].NaN? ==> r[i] == 0.0
    ensures forall i :: 0 <= i < 4 && values[i].Num? ==> lo <= r[i] <= hi
    ensures forall i :: 0 <= i < 4 && values[i].Num? && lo <= values[i].value <= hi ==> r[i] == values[i].value
    ensures forall i :: 0 <= i < 4 && values[i].Num? && values[i].value < lo ==> r[i] == lo
    ensures forall i :: 0 <= i < 4 && values[i].Num? && values[i].value > hi ==> r[i] == hi
  {
    [ClampChannel(values[0], lo, hi), ClampChannel(values[1], lo, hi),
     ClampChannel(values[2], lo, hi), ClampChannel(values[3], lo, hi)]
  }

  /** The numbers of a colour, as the clamp receives them. */
  function Nums(c: seq<real>): (r: seq<Float>)
    ensures |r| == |c|
    ensures forall i :: 0 <= i < |c| ==> r[i] == Num(c[i])
  {
    seq(|c|, i requires 0 <= i < |c| => Num(c[i]))
  }

  /** `ClampRgbaValues` with its default bounds 0 and 1. */
  function ClampRgba(c: seq<real>): (r: seq<real>)
    requires |c| >= 4
    ensures IsUnitColor(r)
    ensures forall i :: 0 <= i < 4 ==> r[i] == Clamp(c[i], 0.0, 1.0)
    ensures forall i :: 0 <= i < 4 && 0.0 <= c[i] <= 1.0 ==> r[i] == c[i]
  {
    ClampDefaultInUnitRange(Nums(c));
    ClampRgbaValues(Nums(c), 0.0, 1.0)
  }

  /** A colour whose four channels lie in [0, 1]. */
  predicate IsUnitColor(c: seq<real>) {
    |c| == 4 && forall i :: 0 <= i < 4 ==> 0.0 <= c[i] <= 1.0
  }

  /** With the default bounds every channel of the result is in [0, 1], NaN
      included. */
  lemma ClampDefaultInUnitRange(values: seq<Float>)
    requires |values| >= 4
    ensures IsUnitColor(ClampRgbaValues(values, 0.0, 1.0))
  {
  }

  /** Values already in range pass through, so clamping twice is clamping
      once. NaN becomes 0, so this needs 0 inside the bounds (the default
      bounds are). */
  lemma ClampIdempotent(values: seq<Float>, lo: real, hi: real)
    requires |values| >= 4
    requires lo <= 0.0 <= hi
    ensures ClampRgbaValues(Nums(ClampRgbaValues(values, lo, hi)), lo, hi)
            == ClampRgbaValues(values, lo, hi)
  {
    var once := ClampRgbaValues(values, lo, hi);
    var twice := ClampRgbaValues(Nums(once), lo, hi);
    forall i | 0 <= i < 4
      ensures twice[i] == once[i]
    {
      if values[i].NaN? {
        assert once[i] == 0.0;
      }
    }
  }

  /** A colour already in [0, 1] is returned unchanged by the default clamp. */
  lemma ClampRgbaKeepsUnitColor(c: seq<real>)
    requires IsUnitColor(c)
    ensures ClampRgba(c) == c
  {
  }

  /** `Utils.Lerp`. */
  function Lerp(a: real, b: real, t: real): real {
    a + t * (b - a)
  }

  lemma LerpEndpoints(a: real, b: real)
    ensures Lerp(a, b, 0.0) == a
    ensures Lerp(a, b, 1.0) == b
  {
  }

  lemma LerpBetweenOrdered(a: real, b: real, t: real)
    requires 0.0 <= t <= 1.0
    requires a <= b
    ensures a <= Lerp(a, b, t) <= b
  {
    MulNonNegative(t, b - a);
    MulAtMost(t, b - a);
  }

  /** For `t` in [0, 1] the interpolant lies between the two end values. */
  lemma LerpBetween(a: real, b: real, t: real)
    requires 0.0 <= t <= 1.0
    ensures Min(a, b) <= Lerp(a, b, t) <= Max(a, b)
  {
    if a <= b {
      LerpBetweenOrdered(a, b, t);
    } else {
      LerpBetweenOrdered(b, a, 1.0 - t);
      assert Lerp(a, b, t) == Lerp(b, a, 1.0 - t);
    }
  }
}
