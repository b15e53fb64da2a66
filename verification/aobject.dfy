/** `RayTracingEngine.Primitives.AObject`: the transform bookkeeping every
    primitive shares, the delegation from world space to the primitive's
    local intersection test, and the normal correction. */
module AObject {
  import opened Wrappers
  import opened Vectors
  import opened Rays
  import opened MatrixTransformation

  /** The state `AObject` keeps about a placed primitive. */
  datatype SceneObject = SceneObject(
    globalPosition: Vec3,
    rotation: Vec3,
    scale: Vec3,
    transform: Mat4,
    inverse: Mat4)

  /** The constructor: position, rotation and scale are stored as given and
      both matrices start as the identity; the subclass builds the transform
      afterwards. */
  function NewObject(position: Vec3, rotation: Vec3, scale: Vec3): (o: SceneObject)
    ensures o.globalPosition == position && o.rotation == rotation && o.scale == scale
    ensures o.transform == Identity && o.inverse == Identity
  {
    SceneObject(position, rotation, scale, Identity, Identity)
  }

  /** What a matrix inversion routine may answer: when it reports an inverse,
      that matrix undoes the one it was given. */
  ghost predicate SoundInverse(invert: Mat4 -> Option<Mat4>) {
    forall m :: invert(m).Some? ==> Mul(m, invert(m).value) == Identity
  }

  /** Translation, then rotation, then scale, composed as the source
      multiplies them. */
  function Compose(position: Vec3, rotationMatrix: Mat4, scale: Vec3): Mat4 {
    Mul(Mul(CreateTranslation(position.x, position.y, position.z), rotationMatrix),
        CreateScale(scale.x, scale.y, scale.z))
  }

  /** `BuildTransformMatrix`: the transform is always replaced; the inverse is
      replaced only when the inversion routine finds one, and otherwise keeps
      whatever it held before. The stored position, rotation and scale are
      not touched. `createRotation` and `invert` stand for library code. */
  function BuildTransformMatrix(o: SceneObject, position: Vec3, rotation: Vec3, scale: Vec3,
                                createRotation: Vec3 -> Mat4, invert: Mat4 -> Option<Mat4>): (o': SceneObject)
    ensures o'.globalPosition == o.globalPosition && o'.rotation == o.rotation && o'.scale == o.scale
    ensures o'.transform == Compose(position, createRotation(rotation), scale)
    ensures invert(o'.transform).None? ==> o'.inverse == o.inverse
    ensures invert(o'.transform).Some? ==> o'.inverse == invert(o'.transform).value
  {
    var t := Compose(position, createRotation(rotation), scale);
    match invert(t)
    case None => o.(transform := t)
    case Some(inv) => o.(transform := t, inverse := inv)
  }

  /** Whenever the inversion succeeds the stored pair of matrices is
      consistent. */
  lemma BuiltInverseUndoesTransform(o: SceneObject, position: Vec3, rotation: Vec3, scale: Vec3,
                                    createRotation: Vec3 -> Mat4, invert: Mat4 -> Option<Mat4>)
    requires SoundInverse(invert)
    requires invert(Compose(position, createRotation(rotation), scale)).Some?
    ensures var o' := BuildTransformMatrix(o, position, rotation, scale, createRotation, invert);
            Mul(o'.transform, o'.inverse) == Identity
  {
  }

  /** A zero scale makes the transform singular, so a sound inversion routine
      cannot answer and the inverse keeps its old value. */
  lemma ZeroScaleKeepsInverse(o: SceneObject, position: Vec3, rotation: Vec3,
                              createRotation: Vec3 -> Mat4, invert: Mat4 -> Option<Mat4>)
    requires SoundInverse(invert)
    ensures BuildTransformMatrix(o, position, rotation, Zero, createRotation, invert).inverse == o.inverse
  {
    var t := Compose(position, createRotation(rotation), Zero);
    if invert(t).Some? {
      ZeroScaleIsSingular(Mul(CreateTranslation(position.x, position.y, position.z), createRotation(rotation)),
                          invert(t).value);
      assert false;
    }
  }

  /** A light: an object with zero rotation and zero scale plus its colour and
      intensity. The hit tests of a light are not implemented in the source. */
  datatype Light = Light(intensity: real, color: Vec3, obj: SceneObject)

  /** The light constructor: the object is built at the position with zero
      rotation and scale, and the inverse therefore stays the identity. */
  function NewLight(intensity: real, color: Vec3, position: Vec3,
                    createRotation: Vec3 -> Mat4, invert: Mat4 -> Option<Mat4>): (l: Light)
    requires SoundInverse(invert)
    ensures l.intensity == intensity && l.color == color
    ensures l.obj.globalPosition == position && l.obj.rotation == Zero && l.obj.scale == Zero
    ensures l.obj.inverse == Identity
  {
    var o := NewObject(position, Zero, Zero);
    ZeroScaleKeepsInverse(o, position, Zero, createRotation, invert);
    Light(intensity, color, BuildTransformMatrix(o, position, Zero, Zero, createRotation, invert))
  }

  /** `SimpleHit`: the world ray is moved into local space with the inverse
      transform and handed to the primitive's own test. */
  function SimpleHit(o: SceneObject, r: Ray, transformRay: (Mat4, Ray) -> Ray,
                     simpleHitLocal: Ray -> seq<real>): (hits: seq<real>)
    ensures hits == simpleHitLocal(transformRay(o.inverse, r))
  {
    simpleHitLocal(transformRay(o.inverse, r))
  }

  /** `Hit`: as `SimpleHit`, but the primitive also receives the world ray to
      place its hit points on. */
  function Hit(o: SceneObject, r: Ray, transformRay: (Mat4, Ray) -> Ray,
               hitLocal: (Ray, Ray) -> seq<HitPoint>): (hits: seq<HitPoint>)
    ensures hits == hitLocal(transformRay(o.inverse, r), r)
  {
    hitLocal(transformRay(o.inverse, r), r)
  }

  /** A ray transform that leaves every ray alone under the identity matrix. */
  ghost predicate IdentityKeepsRays(transformRay: (Mat4, Ray) -> Ray) {
    forall r :: transformRay(Identity, r) == r
  }

  /** Until its transform is built, an object tests rays in world space: the
      local test sees the world ray itself. */
  lemma NewObjectTestsInWorldSpace(position: Vec3, rotation: Vec3, scale: Vec3, r: Ray,
                                   transformRay: (Mat4, Ray) -> Ray,
                                   simpleHitLocal: Ray -> seq<real>,
                                   hitLocal: (Ray, Ray) -> seq<HitPoint>)
    requires IdentityKeepsRays(transformRay)
    ensures SimpleHit(NewObject(position, rotation, scale), r, transformRay, simpleHitLocal) == simpleHitLocal(r)
    ensures Hit(NewObject(position, rotation, scale), r, transformRay, hitLocal) == hitLocal(r, r)
  {
  }

  /** A ray transform that moves every point of the ray as the matrix moves
      points: the point at `t` on the moved ray is the moved point at `t`. */
  ghost predicate MapsRayPoints(transformRay: (Mat4, Ray) -> Ray) {
    forall m, r, t :: GetPoint(transformRay(m, r), t) == ApplyPoint(m, GetPoint(r, t))
  }

  /** A direction moved by `m`: only the upper-left 3x3 block acts on it. */
  function ApplyDirection(m: Mat4, d: Vec3): Vec3 {
    var v := Apply(m, DirectionOf(d));
    Vec3(v.x, v.y, v.z)
  }

  /** One such transform: the start moved as a point and the direction as a
      direction. */
  function MoveRay(m: Mat4, r: Ray): Ray {
    Ray(ApplyPoint(m, r.start), ApplyDirection(m, r.direction))
  }

  /** A matrix row is affine along a ray: applied to the point at `t`, it
      gives the row applied to the start (as a point) plus `t` times the row
      applied to the direction (as a direction). */
  lemma RowAlongRay(k1: real, k2: real, k3: real, k4: real, r: Ray, t: real)
    ensures RowApply(k1, k2, k3, k4, PointOf(GetPoint(r, t)))
            == RowApply(k1, k2, k3, k4, PointOf(r.start)) + t * RowApply(k1, k2, k3, k4, DirectionOf(r.direction))
  {
    var sx, sy, sz := r.start.x, r.start.y, r.start.z;
    var dx, dy, dz := r.direction.x, r.direction.y, r.direction.z;
    assert PointOf(GetPoint(r, t)) == Vec4(sx + t * dx, sy + t * dy, sz + t * dz, 1.0);
    assert k1 * (sx + t * dx) + k2 * (sy + t * dy) + k3 * (sz + t * dz) + k4 * 1.0
           == (k1 * sx + k2 * sy + k3 * sz + k4 * 1.0) + t * (k1 * dx + k2 * dy + k3 * dz + k4 * 0.0);
  }

  /** The point at `t` on the moved ray is the moved point at `t`. */
  lemma MoveRayPoint(m: Mat4, r: Ray, t: real)
    ensures GetPoint(MoveRay(m, r), t) == ApplyPoint(m, GetPoint(r, t))
  {
    RowAlongRay(m.m11, m.m12, m.m13, m.m14, r, t);
    RowAlongRay(m.m21, m.m22, m.m23, m.m24, r, t);
    RowAlongRay(m.m31, m.m32, m.m33, m.m34, r, t);
  }

  /** `MoveRay` meets `MapsRayPoints`, so the hypothesis can be met. */
  lemma MoveRayMapsPoints()
    ensures MapsRayPoints(MoveRay)
  {
    forall m, r, t
      ensures GetPoint(MoveRay(m, r), t) == ApplyPoint(m, GetPoint(r, t))
    {
      MoveRayPoint(m, r, t);
    }
  }

  /** The composed transform is affine when the rotation is. */
  lemma ComposeIsAffine(position: Vec3, rotationMatrix: Mat4, scale: Vec3)
    requires Affine(rotationMatrix)
    ensures Affine(Compose(position, rotationMatrix, scale))
  {
    var t := CreateTranslation(position.x, position.y, position.z);
    AffineMul(t, rotationMatrix);
    AffineMul(Mul(t, rotationMatrix), CreateScale(scale.x, scale.y, scale.z));
  }

  /** After the transform is built, the point at time `t` on the local ray
      is, mapped back by the transform, the point at the same `t` on the
      world ray. So a time the local test finds can be used on the world ray
      directly, as the plane and the cylinder do. */
  lemma LocalTimesAreWorldTimes(o: SceneObject, position: Vec3, rotation: Vec3, scale: Vec3,
                                createRotation: Vec3 -> Mat4, invert: Mat4 -> Option<Mat4>,
                                transformRay: (Mat4, Ray) -> Ray, o': SceneObject, r: Ray, t: real)
    requires SoundInverse(invert) && MapsRayPoints(transformRay)
    requires Affine(createRotation(rotation))
    requires invert(Compose(position, createRotation(rotation), scale)).Some?
    requires o' == BuildTransformMatrix(o, position, rotation, scale, createRotation, invert)
    ensures GetPoint(transformRay(o'.inverse, r), t) == ApplyPoint(o'.inverse, GetPoint(r, t))
    ensures ApplyPoint(o'.transform, GetPoint(transformRay(o'.inverse, r), t)) == GetPoint(r, t)
  {
    ComposeIsAffine(position, createRotation(rotation), scale);
    ApplyPointInverse(o'.transform, o'.inverse, GetPoint(r, t));
  }

  /** A time `SimpleHit` reports, for a primitive whose local test only
      reports times on its local surface, puts the world ray on the placed
      surface: the world point is the transform's image of a local surface
      point. */
  lemma SimpleHitOnPlacedSurface(o: SceneObject, position: Vec3, rotation: Vec3, scale: Vec3,
                                 createRotation: Vec3 -> Mat4, invert: Mat4 -> Option<Mat4>,
                                 transformRay: (Mat4, Ray) -> Ray, simpleHitLocal: Ray -> seq<real>,
                                 onSurface: Vec3 -> bool, o': SceneObject, r: Ray, t: real)
    requires SoundInverse(invert) && MapsRayPoints(transformRay)
    requires Affine(createRotation(rotation))
    requires invert(Compose(position, createRotation(rotation), scale)).Some?
    requires o' == BuildTransformMatrix(o, position, rotation, scale, createRotation, invert)
    requires forall lr: Ray, u: real :: u in simpleHitLocal(lr) ==> onSurface(GetPoint(lr, u))
    requires t in SimpleHit(o', r, transformRay, simpleHitLocal)
    ensures onSurface(ApplyPoint(o'.inverse, GetPoint(r, t)))
    ensures ApplyPoint(o'.transform, ApplyPoint(o'.inverse, GetPoint(r, t))) == GetPoint(r, t)
  {
    LocalTimesAreWorldTimes(o, position, rotation, scale, createRotation, invert, transformRay, o', r, t);
  }

  /** `GetCorrectedNormal`: the normal, flipped when it does not point against
      the ray. */
  function GetCorrectedNormal(normal: Vec3, direction: Vec3): (n: Vec3)
    ensures Dot(normal, direction) < 0.0 ==> n == normal
    ensures Dot(normal, direction) >= 0.0 ==> n == Neg(normal)
    ensures n == normal || n == Neg(normal)
    ensures Dot(n, direction) <= 0.0
    ensures Dot(normal, direction) != 0.0 ==> Dot(n, direction) < 0.0
  {
    if Dot(normal, direction) < 0.0 then normal else Neg(normal)
  }

  /** Once corrected against a ray it is not parallel to, a normal stays as it
      is when corrected again. */
  lemma CorrectionSettles(normal: Vec3, direction: Vec3)
    requires Dot(normal, direction) != 0.0
    ensures GetCorrectedNormal(GetCorrectedNormal(normal, direction), direction)
            == GetCorrectedNormal(normal, direction)
  {
  }
}
