/** Real-number helpers shared by the whole model, and the axioms under which
    the uninterpreted square root, cosine and sine are used.

    The source calls `MathF.Sqrt`, `System.Math.Cos` and `System.Math.Sin`.
    The model never computes them: a member that needs one takes it as a
    function-typed parameter and, where its contract depends on the value,
    requires the axioms below. */
module RealMath {

  function Abs(x: real): (r: real)
    ensures r >= 0.0
    ensures r == x || r == -x
  {
    if x < 0.0 then -x else x
  }

  function Min(a: real, b: real): (r: real)
    ensures r <= a && r <= b
    ensures r == a || r == b
  {
    if a <= b then a else b
  }

  function Max(a: real, b: real): (r: real)
    ensures r >= a && r >= b
    ensures r == a || r == b
  {
    if a >= b then a else b
  }

  /** The square of a real number. Statements about squares go through this
      function and the lemmas below rather than a bare `v * v`. */
  function Sq(v: real): real {
    v * v
  }

  lemma SqNonNegative(v: real)
    ensures Sq(v) >= 0.0
  {
  }

  /** A non-zero number has a positive square: `v * |v|` is positive for
      positive `v`, `-v * |v|` for negative `v`, and either equals `v * v`. */
  lemma SqPositive(v: real)
    requires v != 0.0
    ensures Sq(v) > 0.0
  {
    if v > 0.0 {
      assert v * Abs(v) > 0.0;
      assert Sq(v) == v * Abs(v);
    } else {
      assert -v * Abs(v) > 0.0;
      assert Sq(v) == -v * Abs(v);
    }
  }

  lemma MulNonNegative(a: real, b: real)
    requires a >= 0.0 && b >= 0.0
    ensures a * b >= 0.0
  {
  }

  lemma MulPositive(a: real, b: real)
    requires a > 0.0 && b > 0.0
    ensures a * b > 0.0
  {
  }

  /** Scaling a non-negative number by a factor in [0, 1] does not increase it. */
  lemma MulAtMost(t: real, d: real)
    requires 0.0 <= t <= 1.0 && d >= 0.0
    ensures t * d <= d
  {
    MulNonNegative(1.0 - t, d);
  }

  /** `t` at or beyond the quotient `num / den` of a negative denominator
      means `t * den` is at most `num`. */
  lemma DivBoundNegative(num: real, den: real, t: real)
    requires den < 0.0
    requires t >= num / den
    ensures t * den <= num
  {
    assert (num / den) * den == num;
  }

  /** `t` at or below the quotient `num / den` of a positive denominator
      means `t * den` is at most `num`. */
  lemma DivBoundPositive(num: real, den: real, t: real)
    requires den > 0.0
    requires t <= num / den
    ensures t * den <= num
  {
    assert (num / den) * den == num;
  }

  /** Multiplying a quotient back by its denominator restores the numerator. */
  lemma DivCancel(num: real, den: real)
    requires den != 0.0
    ensures (num / den) * den == num
  {
  }

  lemma SqProduct(a: real, b: real)
    ensures Sq(a * b) == Sq(a) * Sq(b)
  {
  }

  /** The square-root axioms: on non-negative arguments the result is the
      non-negative number whose square is the argument. */
  ghost predicate IsSqrt(sqrt: real -> real) {
    forall x :: x >= 0.0 ==> sqrt(x) >= 0.0 && Sq(sqrt(x)) == x
  }

  /** The Pythagorean identity that the rotation matrices rely on. */
  ghost predicate IsTrig(cos: real -> real, sin: real -> real) {
    forall a :: Sq(cos(a)) + Sq(sin(a)) == 1.0
  }

  lemma SqMonotonic(a: real, b: real)
    requires 0.0 <= a <= b
    ensures Sq(a) <= Sq(b)
  {
    assert a * a <= a * b;
    assert a * b <= b * b;
  }

  /** The square root is determined by the axioms: any non-negative number
      whose square is `x` is `sqrt(x)`. */
  lemma SqrtUnique(sqrt: real -> real, x: real, y: real)
    requires IsSqrt(sqrt)
    requires y >= 0.0 && Sq(y) == x
    ensures sqrt(x) == y
  {
    var s := sqrt(x);
    assert s >= 0.0 && Sq(s) == x;
    assert (s - y) * (s + y) == 0.0;
    if s + y == 0.0 {
      assert s == 0.0 && y == 0.0;
    } else {
      assert s - y == 0.0;
    }
  }

  lemma SqrtZero(sqrt: real -> real)
    requires IsSqrt(sqrt)
    ensures sqrt(0.0) == 0.0
  {
    SqrtUnique(sqrt, 0.0, 0.0);
  }

  lemma SqrtOne(sqrt: real -> real)
    requires IsSqrt(sqrt)
    ensures sqrt(1.0) == 1.0
  {
    SqrtUnique(sqrt, 1.0, 1.0);
  }

  /** Monotonicity follows from the axioms. */
  lemma SqrtStrictlyMonotonic(sqrt: real -> real, x: real, y: real)
    requires IsSqrt(sqrt)
    requires 0.0 <= x < y
    ensures sqrt(x) < sqrt(y)
  {
    var sx, sy := sqrt(x), sqrt(y);
    assert sx >= 0.0 && Sq(sx) == x;
    assert sy >= 0.0 && Sq(sy) == y;
    if sy <= sx {
      SqMonotonic(sy, sx);
      assert false;
    }
  }

  lemma SqrtBelowOne(sqrt: real -> real, x: real)
    requires IsSqrt(sqrt)
    requires 0.0 <= x < 1.0
    ensures 0.0 <= sqrt(x) < 1.0
  {
    SqrtStrictlyMonotonic(sqrt, x, 1.0);
    SqrtOne(sqrt);
  }

  /** A square root stays below any non-negative bound whose square exceeds
      its argument. */
  lemma SqrtBelow(sqrt: real -> real, x: real, y: real)
    requires IsSqrt(sqrt)
    requires 0.0 <= x && 0.0 <= y && x < Sq(y)
    ensures sqrt(x) < y
  {
    SqNonNegative(y);
    SqrtUnique(sqrt, Sq(y), y);
    SqrtStrictlyMonotonic(sqrt, x, Sq(y));
  }

  /** A product is zero only when a factor is. */
  lemma ZeroFactor(a: real, b: real)
    requires a != 0.0
    requires a * b == 0.0
    ensures b == 0.0
  {
    assert b == (a * b) / a;
  }

  /** Completing the square: `4a(at^2 + bt + c) = (2at + b)^2 - (b^2 - 4ac)`. */
  lemma CompleteSquare(a: real, b: real, c: real, t: real)
    ensures 4.0 * a * (a * Sq(t) + b * t + c) == Sq(2.0 * a * t + b) - (Sq(b) - 4.0 * a * c)
  {
  }

  /** For either quotient of the quadratic formula, `2at + b` is `-s` or `s`,
      and so has the square of `s`. */
  lemma RootShift(a: real, b: real, s: real, t: real)
    requires a != 0.0
    requires t == (-b - s) / (2.0 * a) || t == (-b + s) / (2.0 * a)
    ensures Sq(2.0 * a * t + b) == Sq(s)
  {
    if t == (-b - s) / (2.0 * a) {
      DivCancel(-b - s, 2.0 * a);
      assert 2.0 * a * t + b == -s;
    } else {
      DivCancel(-b + s, 2.0 * a);
      assert 2.0 * a * t + b == s;
    }
  }

  /** Both quotients of the quadratic formula solve the quadratic. */
  lemma QuadraticRoot(a: real, b: real, c: real, s: real, t: real)
    requires a != 0.0
    requires Sq(s) == Sq(b) - 4.0 * a * c
    requires t == (-b - s) / (2.0 * a) || t == (-b + s) / (2.0 * a)
    ensures a * Sq(t) + b * t + c == 0.0
  {
    RootShift(a, b, s, t);
    CompleteSquare(a, b, c, t);
    ZeroFactor(4.0 * a, a * Sq(t) + b * t + c);
  }

  /** A product is the numerator exactly at the quotient. */
  lemma QuotientFromProduct(t: real, den: real, num: real)
    requires den != 0.0
    requires t * den == num
    ensures t == num / den
  {
  }

  /** At a root, `2at + b` squares to the discriminant. */
  lemma RootSquare(a: real, b: real, c: real, t: real)
    requires a * Sq(t) + b * t + c == 0.0
    ensures Sq(2.0 * a * t + b) == Sq(b) - 4.0 * a * c
  {
    CompleteSquare(a, b, c, t);
  }

  /** The root of a square is the number or its negation. */
  lemma SqrtOfSquare(sqrt: real -> real, u: real)
    requires IsSqrt(sqrt)
    ensures Sq(u) >= 0.0
    ensures sqrt(Sq(u)) == u || sqrt(Sq(u)) == -u
  {
    SqNonNegative(u);
    if u >= 0.0 {
      SqrtUnique(sqrt, Sq(u), u);
    } else {
      assert Sq(-u) == Sq(u);
      SqrtUnique(sqrt, Sq(u), -u);
    }
  }

  /** The converse of `QuadraticRoot`: every root of a quadratic with
      `a != 0` has a non-negative discriminant and is one of the two quotients
      of the quadratic formula. */
  lemma RootIsQuotient(sqrt: real -> real, a: real, b: real, c: real, t: real)
    requires IsSqrt(sqrt)
    requires a != 0.0
    requires a * Sq(t) + b * t + c == 0.0
    ensures Sq(b) - 4.0 * a * c >= 0.0
    ensures t == (-b - sqrt(Sq(b) - 4.0 * a * c)) / (2.0 * a)
            || t == (-b + sqrt(Sq(b) - 4.0 * a * c)) / (2.0 * a)
  {
    var u := 2.0 * a * t + b;
    RootSquare(a, b, c, t);
    SqrtOfSquare(sqrt, u);
    var s := sqrt(Sq(b) - 4.0 * a * c);
    assert s == u || s == -u;
    assert t * (2.0 * a) == u - b;
    if s == u {
      QuotientFromProduct(t, 2.0 * a, -b + s);
    } else {
      QuotientFromProduct(t, 2.0 * a, -b - s);
    }
  }

  /** The square of an affine expression, expanded. */
  lemma SqAffine(s: real, d: real, t: real)
    ensures Sq(s + t * d) == Sq(d) * Sq(t) + 2.0 * (d * s) * t + Sq(s)
  {
  }

  /** Dividing by a positive number keeps the order. */
  lemma DivMonotonic(x: real, y: real, d: real)
    requires d > 0.0
    requires x <= y
    ensures x / d <= y / d
  {
  }

  /** A positive factor keeps the sign of a product. */
  lemma PositiveFactorKeepsSign(k: real, x: real)
    requires k > 0.0
    ensures k * x < 0.0 <==> x < 0.0
  {
    if x < 0.0 {
      MulPositive(k, -x);
    } else {
      MulNonNegative(k, x);
    }
  }

  lemma ProductAtMostOne(a: real, b: real)
    requires 0.0 <= a <= 1.0 && 0.0 <= b <= 1.0
    ensures a * b <= 1.0
  {
    MulAtMost(b, a);
  }
}
