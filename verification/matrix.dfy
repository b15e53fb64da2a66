/** `RayTracingEngine.Math.MatrixTransformation` and the parts of
    `System.Numerics.Matrix4x4` it relies on: 4x4 real matrices, their
    product, and the translation, scale and rotation layouts.

    Entries are named as in `Matrix4x4` (`m23` is row 2, column 3). The
    layouts put the translation in the fourth column, so they are read as
    acting on column vectors: `Apply(m, v)` is `m * v`. */
module MatrixTransformation {
  import opened RealMath
  import opened Vectors

  datatype Mat4 = Mat4(m11: real, m12: real, m13: real, m14: real,
                       m21: real, m22: real, m23: real, m24: real,
                       m31: real, m32: real, m33: real, m34: real,
                       m41: real, m42: real, m43: real, m44: real)

  const Identity: Mat4 := Mat4(1.0, 0.0, 0.0, 0.0,
                               0.0, 1.0, 0.0, 0.0,
                               0.0, 0.0, 1.0, 0.0,
                               0.0, 0.0, 0.0, 1.0)

  /** The matrix product `a * b`. */
  function Mul(a: Mat4, b: Mat4): Mat4 {
    Mat4(
      a.m11 * b.m11 + a.m12 * b.m21 + a.m13 * b.m31 + a.m14 * b.m41,
      a.m11 * b.m12 + a.m12 * b.m22 + a.m13 * b.m32 + a.m14 * b.m42,
      a.m11 * b.m13 + a.m12 * b.m23 + a.m13 * b.m33 + a.m14 * b.m43,
      a.m11 * b.m14 + a.m12 * b.m24 + a.m13 * b.m34 + a.m14 * b.m44,
      a.m21 * b.m11 + a.m22 * b.m21 + a.m23 * b.m31 + a.m24 * b.m41,
      a.m21 * b.m12 + a.m22 * b.m22 + a.m23 * b.m32 + a.m24 * b.m42,
      a.m21 * b.m13 + a.m22 * b.m23 + a.m23 * b.m33 + a.m24 * b.m43,
      a.m21 * b.m14 + a.m22 * b.m24 + a.m23 * b.m34 + a.m24 * b.m44,
      a.m31 * b.m11 + a.m32 * b.m21 + a.m33 * b.m31 + a.m34 * b.m41,
      a.m31 * b.m12 + a.m32 * b.m22 + a.m33 * b.m32 + a.m34 * b.m42,
      a.m31 * b.m13 + a.m32 * b.m23 + a.m33 * b.m33 + a.m34 * b.m43,
      a.m31 * b.m14 + a.m32 * b.m24 + a.m33 * b.m34 + a.m34 * b.m44,
      a.m41 * b.m11 + a.m42 * b.m21 + a.m43 * b.m31 + a.m44 * b.m41,
      a.m41 * b.m12 + a.m42 * b.m22 + a.m43 * b.m32 + a.m44 * b.m42,
      a.m41 * b.m13 + a.m42 * b.m23 + a.m43 * b.m33 + a.m44 * b.m43,
      a.m41 * b.m14 + a.m42 * b.m24 + a.m43 * b.m34 + a.m44 * b.m44)
  }

  function Transpose(a: Mat4): Mat4 {
    Mat4(
         a.m11, a.m21, a.m31, a.m41,
         a.m12, a.m22, a.m32, a.m42,
         a.m13, a.m23, a.m33, a.m43,
         a.m14, a.m24, a.m34, a.m44)
  }

  /** Homogeneous coordinates: `w` is 1 for a point and 0 for a direction. */
  datatype Vec4 = Vec4(x: real, y: real, z: real, w: real)

  function PointOf(p: Vec3): Vec4 {
    Vec4(p.x, p.y, p.z, 1.0)
  }

  function DirectionOf(d: Vec3): Vec4 {
    Vec4(d.x, d.y, d.z, 0.0)
  }

  /** The column-vector product `m * v`. */
  function Apply(m: Mat4, v: Vec4): Vec4 {
    Vec4(m.m11 * v.x + m.m12 * v.y + m.m13 * v.z + m.m14 * v.w,
         m.m21 * v.x + m.m22 * v.y + m.m23 * v.z + m.m24 * v.w,
         m.m31 * v.x + m.m32 * v.y + m.m33 * v.z + m.m34 * v.w,
         m.m41 * v.x + m.m42 * v.y + m.m43 * v.z + m.m44 * v.w)
  }

  /** A matrix whose bottom row is `(0, 0, 0, 1)`: it maps points to points
      and directions to directions. */
  predicate Affine(m: Mat4) {
    m.m41 == 0.0 && m.m42 == 0.0 && m.m43 == 0.0 && m.m44 == 1.0
  }

  /** A point moved by `m` and read back in three coordinates: the fourth
      coordinate is dropped. */
  function ApplyPoint(m: Mat4, p: Vec3): Vec3 {
    var v := Apply(m, PointOf(p));
    Vec3(v.x, v.y, v.z)
  }

  /** The product of two affine matrices is affine. */
  lemma AffineMul(a: Mat4, b: Mat4)
    requires Affine(a) && Affine(b)
    ensures Affine(Mul(a, b))
  {
  }

  /** A right inverse of an affine matrix is affine. */
  lemma AffineRightInverse(a: Mat4, n: Mat4)
    requires Affine(a)
    requires Mul(a, n) == Identity
    ensures Affine(n)
  {
    var p := Mul(a, n);
    assert p.m41 == n.m41 && p.m42 == n.m42 && p.m43 == n.m43 && p.m44 == n.m44;
  }

  /** One row `(k1, k2, k3, k4)` of a matrix applied to a vector. */
  function RowApply(k1: real, k2: real, k3: real, k4: real, v: Vec4): real {
    k1 * v.x + k2 * v.y + k3 * v.z + k4 * v.w
  }

  /** A row `k` applied after `b` is the row `e = k b` applied directly:
      `e` is the matching row of a product with `b` on the right. */
  lemma RowThroughProduct(k1: real, k2: real, k3: real, k4: real, b: Mat4, v: Vec4,
                          e1: real, e2: real, e3: real, e4: real)
    requires e1 == k1 * b.m11 + k2 * b.m21 + k3 * b.m31 + k4 * b.m41
    requires e2 == k1 * b.m12 + k2 * b.m22 + k3 * b.m32 + k4 * b.m42
    requires e3 == k1 * b.m13 + k2 * b.m23 + k3 * b.m33 + k4 * b.m43
    requires e4 == k1 * b.m14 + k2 * b.m24 + k3 * b.m34 + k4 * b.m44
    ensures RowApply(k1, k2, k3, k4, Apply(b, v)) == RowApply(e1, e2, e3, e4, v)
  {
  }

  /** A point is moved by an affine matrix after its right inverse back to
      where it was. */
  lemma ApplyPointInverse(a: Mat4, n: Mat4, p: Vec3)
    requires Affine(a)
    requires Mul(a, n) == Identity
    ensures ApplyPoint(a, ApplyPoint(n, p)) == p
  {
    AffineRightInverse(a, n);
    var m, v := Mul(a, n), PointOf(p);
    var w := Apply(n, v);
    assert PointOf(ApplyPoint(n, p)) == w;
    RowThroughProduct(a.m11, a.m12, a.m13, a.m14, n, v, m.m11, m.m12, m.m13, m.m14);
    RowThroughProduct(a.m21, a.m22, a.m23, a.m24, n, v, m.m21, m.m22, m.m23, m.m24);
    RowThroughProduct(a.m31, a.m32, a.m33, a.m34, n, v, m.m31, m.m32, m.m33, m.m34);
    assert ApplyPoint(a, ApplyPoint(n, p))
           == Vec3(RowApply(a.m11, a.m12, a.m13, a.m14, w),
                   RowApply(a.m21, a.m22, a.m23, a.m24, w),
                   RowApply(a.m31, a.m32, a.m33, a.m34, w));
  }

  lemma MulIdentity(a: Mat4)
    ensures Mul(Identity, a) == a
    ensures Mul(a, Identity) == a
  {
  }

  /** `CreateTranslation(x, y, z)`. */
  function CreateTranslation(x: real, y: real, z: real): (m: Mat4)
    ensures Affine(m)
    ensures Apply(m, PointOf(Zero)) == PointOf(Vec3(x, y, z))
  {
    Mat4(1.0, 0.0, 0.0, x,
         0.0, 1.0, 0.0, y,
         0.0, 0.0, 1.0, z,
         0.0, 0.0, 0.0, 1.0)
  }

  /** A translation moves points by its offset and leaves directions alone. */
  lemma TranslationMovesPoints(x: real, y: real, z: real, p: Vec3, d: Vec3)
    ensures Apply(CreateTranslation(x, y, z), PointOf(p)) == PointOf(Add(p, Vec3(x, y, z)))
    ensures Apply(CreateTranslation(x, y, z), DirectionOf(d)) == DirectionOf(d)
  {
  }

  /** Translating back by the opposite offset undoes a translation. */
  lemma TranslationInverse(x: real, y: real, z: real)
    ensures Mul(CreateTranslation(x, y, z), CreateTranslation(-x, -y, -z)) == Identity
    ensures Mul(CreateTranslation(-x, -y, -z), CreateTranslation(x, y, z)) == Identity
  {
  }

  /** `CreateScale(x, y, z)`; the source's default arguments are all 1. */
  function CreateScale(x: real, y: real, z: real): (m: Mat4)
    ensures Affine(m)
  {
    Mat4(x, 0.0, 0.0, 0.0,
         0.0, y, 0.0, 0.0,
         0.0, 0.0, z, 0.0,
         0.0, 0.0, 0.0, 1.0)
  }

  /** A scale multiplies each coordinate by its factor and keeps `w`. */
  lemma ScaleApply(x: real, y: real, z: real, v: Vec4)
    ensures Apply(CreateScale(x, y, z), v) == Vec4(x * v.x, y * v.y, z * v.z, v.w)
  {
  }

  /** `CreateScale()` with its default arguments is the identity. */
  lemma ScaleDefaultIsIdentity()
    ensures CreateScale(1.0, 1.0, 1.0) == Identity
  {
  }

  /** Scaling by the reciprocal factors undoes a scale with non-zero factors. */
  lemma ScaleInverse(x: real, y: real, z: real)
    requires x != 0.0 && y != 0.0 && z != 0.0
    ensures Mul(CreateScale(x, y, z), CreateScale(1.0 / x, 1.0 / y, 1.0 / z)) == Identity
  {
  }

  /** A matrix times a scale with three zero factors keeps only its fourth
      column, and so has no right inverse: this is the case of a light, whose
      scale is the zero vector. */
  lemma ZeroScaleIsSingular(a: Mat4, n: Mat4)
    ensures Mul(Mul(a, CreateScale(0.0, 0.0, 0.0)), n) != Identity
  {
    var p := Mul(Mul(a, CreateScale(0.0, 0.0, 0.0)), n);
    assert p.m11 == a.m14 * n.m41;
    assert p.m12 == a.m14 * n.m42;
    assert p.m22 == a.m24 * n.m42;
  }

  /** `CreateRotationZ(angle)`: a rotation in the x-y plane. */
  function CreateRotationZ(angle: real, cos: real -> real, sin: real -> real): (m: Mat4)
    ensures Affine(m)
    ensures Apply(m, DirectionOf(UnitZ)) == DirectionOf(UnitZ)
    ensures Apply(m, DirectionOf(UnitX)) == DirectionOf(Vec3(cos(angle), sin(angle), 0.0))
  {
    var c, s := cos(angle), sin(angle);
    Mat4(c, -s, 0.0, 0.0,
         s, c, 0.0, 0.0,
         0.0, 0.0, 1.0, 0.0,
         0.0, 0.0, 0.0, 1.0)
  }

  /** `CreateRotationY(angle)`: a rotation in the z-x plane. */
  function CreateRotationY(angle: real, cos: real -> real, sin: real -> real): (m: Mat4)
    ensures Affine(m)
    ensures Apply(m, DirectionOf(UnitY)) == DirectionOf(UnitY)
    ensures Apply(m, DirectionOf(UnitZ)) == DirectionOf(Vec3(sin(angle), 0.0, cos(angle)))
  {
    var c, s := cos(angle), sin(angle);
    Mat4(c, 0.0, s, 0.0,
         0.0, 1.0, 0.0, 0.0,
         -s, 0.0, c, 0.0,
         0.0, 0.0, 0.0, 1.0)
  }

  /** `CreateRotationX(angle)`: a rotation in the y-z plane. */
  function CreateRotationX(angle: real, cos: real -> real, sin: real -> real): (m: Mat4)
    ensures Affine(m)
    ensures Apply(m, DirectionOf(UnitX)) == DirectionOf(UnitX)
    ensures Apply(m, DirectionOf(UnitY)) == DirectionOf(Vec3(0.0, cos(angle), sin(angle)))
  {
    var c, s := cos(angle), sin(angle);
    Mat4(1.0, 0.0, 0.0, 0.0,
         0.0, c, -s, 0.0,
         0.0, s, c, 0.0,
         0.0, 0.0, 0.0, 1.0)
  }

  /** Each rotation leaves the coordinate along its own axis, and `w`,
      unchanged. */
  lemma RotationsKeepTheirAxis(angle: real, cos: real -> real, sin: real -> real, v: Vec4)
    ensures Apply(CreateRotationX(angle, cos, sin), v).x == v.x
    ensures Apply(CreateRotationY(angle, cos, sin), v).y == v.y
    ensures Apply(CreateRotationZ(angle, cos, sin), v).z == v.z
    ensures Apply(CreateRotationX(angle, cos, sin), v).w == v.w
    ensures Apply(CreateRotationY(angle, cos, sin), v).w == v.w
    ensures Apply(CreateRotationZ(angle, cos, sin), v).w == v.w
  {
  }

  /** Under the Pythagorean identity each rotation is orthogonal: its
      transpose is its inverse. */
  lemma RotationsAreOrthogonal(angle: real, cos: real -> real, sin: real -> real)
    requires IsTrig(cos, sin)
    ensures Mul(CreateRotationX(angle, cos, sin), Transpose(CreateRotationX(angle, cos, sin))) == Identity
    ensures Mul(CreateRotationY(angle, cos, sin), Transpose(CreateRotationY(angle, cos, sin))) == Identity
    ensures Mul(CreateRotationZ(angle, cos, sin), Transpose(CreateRotationZ(angle, cos, sin))) == Identity
  {
    assert Sq(cos(angle)) + Sq(sin(angle)) == 1.0;
  }
}
