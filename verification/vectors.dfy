/** Three-component real vectors, standing in for `System.Numerics.Vector3`. */
module Vectors {
  import opened RealMath

  datatype Vec3 = Vec3(x: real, y: real, z: real)

  const Zero: Vec3 := Vec3(0.0, 0.0, 0.0)
  const UnitX: Vec3 := Vec3(1.0, 0.0, 0.0)
  const UnitY: Vec3 := Vec3(0.0, 1.0, 0.0)
  const UnitZ: Vec3 := Vec3(0.0, 0.0, 1.0)

  function Add(a: Vec3, b: Vec3): Vec3 {
    Vec3(a.x + b.x, a.y + b.y, a.z + b.z)
  }

  function Sub(a: Vec3, b: Vec3): Vec3 {
    Vec3(a.x - b.x, a.y - b.y, a.z - b.z)
  }

  function Neg(a: Vec3): Vec3 {
    Vec3(-a.x, -a.y, -a.z)
  }

  function Scale(k: real, a: Vec3): Vec3 {
    Vec3(k * a.x, k * a.y, k * a.z)
  }

  function Dot(a: Vec3, b: Vec3): real {
    a.x * b.x + a.y * b.y + a.z * b.z
  }

  /** `Vector3.LengthSquared`: the dot product of the vector with itself. */
  function LengthSquared(a: Vec3): real {
    Sq(a.x) + Sq(a.y) + Sq(a.z)
  }

  lemma DotSelf(a: Vec3)
    ensures Dot(a, a) == LengthSquared(a)
  {
  }

  /** Component `i` of the vector (`Vector3[i]` in C#); 0, 1, 2 are x, y, z. */
  function At(a: Vec3, i: nat): real
    requires i < 3
  {
    if i == 0 then a.x else if i == 1 then a.y else a.z
  }

  lemma LengthSquaredNonNegative(a: Vec3)
    ensures LengthSquared(a) >= 0.0
    ensures a != Zero ==> LengthSquared(a) > 0.0
  {
    SqNonNegative(a.x);
    SqNonNegative(a.y);
    SqNonNegative(a.z);
    if a.x != 0.0 { SqPositive(a.x); }
    if a.y != 0.0 { SqPositive(a.y); }
    if a.z != 0.0 { SqPositive(a.z); }
  }

  lemma LengthSquaredScale(k: real, a: Vec3)
    ensures LengthSquared(Scale(k, a)) == Sq(k) * LengthSquared(a)
  {
    SqProduct(k, a.x);
    SqProduct(k, a.y);
    SqProduct(k, a.z);
  }

  /** `Vector3.Normalize`: the vector divided by its length. The zero vector,
      whose normalisation is NaN in IEEE arithmetic, is returned unchanged. */
  function Normalize(sqrt: real -> real, a: Vec3): (r: Vec3)
    ensures a == Zero ==> r == Zero
  {
    var len := sqrt(LengthSquared(a));
    if len == 0.0 then a else Scale(1.0 / len, a)
  }

  /** A vector that is already of unit length is left unchanged. */
  lemma NormalizeUnit(sqrt: real -> real, a: Vec3)
    requires IsSqrt(sqrt)
    requires LengthSquared(a) == 1.0
    ensures Normalize(sqrt, a) == a
  {
    SqrtOne(sqrt);
  }

  /** A non-zero vector normalises to unit length. */
  lemma NormalizeIsUnit(sqrt: real -> real, a: Vec3)
    requires IsSqrt(sqrt)
    requires a != Zero
    ensures LengthSquared(Normalize(sqrt, a)) == 1.0
  {
    LengthSquaredNonNegative(a);
    var l2 := LengthSquared(a);
    var len := sqrt(l2);
    assert len >= 0.0 && Sq(len) == l2;
    assert len != 0.0;
    var k := 1.0 / len;
    LengthSquaredScale(k, a);
    SqProduct(k, len);
    assert k * len == 1.0;
  }

  lemma DotScale(d: Vec3, k: real, v: Vec3)
    ensures Dot(d, Scale(k, v)) == k * Dot(d, v)
  {
  }

  /** Normalising a non-zero vector keeps the sign of its dot product with
      any other vector. */
  lemma NormalizeKeepsSign(sqrt: real -> real, d: Vec3, v: Vec3)
    requires IsSqrt(sqrt)
    requires v != Zero
    ensures Dot(d, Normalize(sqrt, v)) < 0.0 <==> Dot(d, v) < 0.0
  {
    LengthSquaredNonNegative(v);
    var len := sqrt(LengthSquared(v));
    assert len >= 0.0 && Sq(len) == LengthSquared(v);
    assert len != 0.0;
    var k := 1.0 / len;
    assert k > 0.0;
    DotScale(d, k, v);
    PositiveFactorKeepsSign(k, Dot(d, v));
  }
}
