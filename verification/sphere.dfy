/** `RayTracingEngine.Primitives.Sphere`: the unit sphere centred at the
    origin of local space. A ray meets it where
    `|start + t * direction|^2 - 1 = 0`, a quadratic in `t`; the smaller root
    is the entering hit and the larger one the exiting hit. */
module Sphere {
  import opened Wrappers
  import opened RealMath
  import opened Vectors
  import opened Rays

  const MinHitTime: real := 0.00001

  /** The coefficients `a`, `b`, `c` of the quadratic and its discriminant. */
  function QuadA(r: Ray): real {
    LengthSquared(r.direction)
  }

  function QuadB(r: Ray): real {
    2.0 * Dot(r.direction, r.start)
  }

  function QuadC(r: Ray): real {
    LengthSquared(r.start) - 1.0
  }

  function Discriminant(r: Ray): real {
    Sq(QuadB(r)) - 4.0 * QuadA(r) * QuadC(r)
  }

  /** The quadratic measures how far the point at `t` is from the surface:
      its value is the squared distance from the centre, minus one. */
  lemma QuadraticIsDistance(r: Ray, t: real)
    ensures QuadA(r) * Sq(t) + QuadB(r) * t + QuadC(r) == LengthSquared(GetPoint(r, t)) - 1.0
  {
    var s, d := r.start, r.direction;
    SqAffine(s.x, d.x, t);
    SqAffine(s.y, d.y, t);
    SqAffine(s.z, d.z, t);
    assert QuadA(r) * Sq(t) == Sq(d.x) * Sq(t) + Sq(d.y) * Sq(t) + Sq(d.z) * Sq(t);
    assert QuadB(r) * t == 2.0 * (d.x * s.x) * t + 2.0 * (d.y * s.y) * t + 2.0 * (d.z * s.z) * t;
  }

  /** A ray that moves has a positive leading coefficient. */
  lemma MovingRay(r: Ray)
    requires r.direction != Zero
    ensures QuadA(r) > 0.0
  {
    LengthSquaredNonNegative(r.direction);
  }

  /** `t0`, the root with the square root subtracted. */
  function Near(sqrt: real -> real, r: Ray): real
    requires r.direction != Zero
    requires Discriminant(r) >= 0.0
  {
    MovingRay(r);
    (-QuadB(r) - sqrt(Discriminant(r))) / (2.0 * QuadA(r))
  }

  /** `t1`, the root with the square root added. */
  function Far(sqrt: real -> real, r: Ray): real
    requires r.direction != Zero
    requires Discriminant(r) >= 0.0
  {
    MovingRay(r);
    (-QuadB(r) + sqrt(Discriminant(r))) / (2.0 * QuadA(r))
  }

  /** Both roots solve the quadratic, so both points are on the sphere, and
      `t0` never comes after `t1`. */
  lemma RootsOnSphere(sqrt: real -> real, r: Ray)
    requires IsSqrt(sqrt)
    requires r.direction != Zero
    requires Discriminant(r) >= 0.0
    ensures QuadA(r) * Sq(Near(sqrt, r)) + QuadB(r) * Near(sqrt, r) + QuadC(r) == 0.0
    ensures QuadA(r) * Sq(Far(sqrt, r)) + QuadB(r) * Far(sqrt, r) + QuadC(r) == 0.0
    ensures LengthSquared(GetPoint(r, Near(sqrt, r))) == 1.0
    ensures LengthSquared(GetPoint(r, Far(sqrt, r))) == 1.0
    ensures Near(sqrt, r) <= Far(sqrt, r)
  {
    var a, b, c, s := QuadA(r), QuadB(r), QuadC(r), sqrt(Discriminant(r));
    MovingRay(r);
    assert s >= 0.0 && Sq(s) == Sq(b) - 4.0 * a * c;
    QuadraticRoot(a, b, c, s, Near(sqrt, r));
    QuadraticRoot(a, b, c, s, Far(sqrt, r));
    QuadraticIsDistance(r, Near(sqrt, r));
    QuadraticIsDistance(r, Far(sqrt, r));
    DivMonotonic(-b - s, -b + s, 2.0 * a);
  }

  /** The entering root is kept when it lies past the threshold or exactly at
      the start of the ray; the exiting root only past the threshold. */
  predicate KeptEntering(t: real) {
    t > MinHitTime || t == 0.0
  }

  predicate KeptExiting(t: real) {
    t > MinHitTime
  }

  /** The normal at a point: the direction from the object's world position
      to the point, normalised. */
  function SurfaceNormal(sqrt: real -> real, globalPosition: Vec3, point: Vec3): Vec3 {
    Normalize(sqrt, Sub(point, globalPosition))
  }

  /** `Sphere.HitLocal`. The entering hit stores the local point as it is; the
      exiting hit's point goes through `GetHitPoint`. Both normals are taken
      from the local point and the object's `GlobalPosition`. */
  function HitLocal(self: ObjectId, sqrt: real -> real, globalPosition: Vec3, r: Ray,
                    transformBack: bool, back: Vec3 -> Vec3): (res: Option<HitInfo>)
    ensures r.direction == Zero ==> res.None?
    ensures r.direction != Zero && Discriminant(r) < 0.0 ==> res.None?
    ensures r.direction != Zero && Discriminant(r) >= 0.0 ==>
              (res.None? <==> !KeptEntering(Near(sqrt, r)) && !KeptExiting(Far(sqrt, r)))
    ensures res.Some? ==> res.value.owner == self && 1 <= |res.value.hits| <= 2
    ensures r.direction != Zero && Discriminant(r) >= 0.0 && KeptEntering(Near(sqrt, r)) ==>
              res.Some? && res.value.hits[0].isEntering
    ensures r.direction != Zero && Discriminant(r) >= 0.0 && KeptExiting(Far(sqrt, r)) ==>
              res.Some? && !res.value.hits[|res.value.hits| - 1].isEntering
    ensures r.direction != Zero && Discriminant(r) >= 0.0 && res.Some? ==>
              |res.value.hits| == (if KeptEntering(Near(sqrt, r)) then 1 else 0)
                                  + (if KeptExiting(Far(sqrt, r)) then 1 else 0)
    ensures res.Some? ==> forall h :: h in res.value.hits && h.isEntering ==>
              h.hitTime == Near(sqrt, r) && KeptEntering(h.hitTime)
              && h.point == GetPoint(r, h.hitTime)
              && h.normal == SurfaceNormal(sqrt, globalPosition, GetPoint(r, h.hitTime))
    ensures res.Some? ==> forall h :: h in res.value.hits && !h.isEntering ==>
              h.hitTime == Far(sqrt, r) && KeptExiting(h.hitTime)
              && h.point == GetHitPoint(GetPoint(r, h.hitTime), transformBack, back)
              && h.normal == SurfaceNormal(sqrt, globalPosition, GetPoint(r, h.hitTime))
    ensures res.Some? ==> forall h :: h in res.value.hits ==> h.surfaceIndex.None? && h.obj.None?
    ensures res.Some? && |res.value.hits| == 2 ==> res.value.hits[0].isEntering && !res.value.hits[1].isEntering
  {
    if r.direction == Zero then None
    else if Discriminant(r) < 0.0 then None
    else
      var t0, t1 := Near(sqrt, r), Far(sqrt, r);
      var p0, p1 := GetPoint(r, t0), GetPoint(r, t1);
      var entering :=
        if KeptEntering(t0) then [HitPoint(t0, p0, SurfaceNormal(sqrt, globalPosition, p0), true, None, None)]
        else [];
      var exiting :=
        if KeptExiting(t1) then [HitPoint(t1, GetHitPoint(p1, transformBack, back), SurfaceNormal(sqrt, globalPosition, p1), false, None, None)]
        else [];
      var hits := entering + exiting;
      if |hits| == 0 then None else Some(HitInfo(self, hits))
  }

  /** Every hit point is on the unit sphere, except an exiting point that was
      mapped back to world space; and for a sphere placed at the world origin
      each normal is the local hit point itself. */
  lemma HitsOnSphere(self: ObjectId, sqrt: real -> real, globalPosition: Vec3, r: Ray,
                     transformBack: bool, back: Vec3 -> Vec3, h: HitPoint)
    requires IsSqrt(sqrt)
    requires HitLocal(self, sqrt, globalPosition, r, transformBack, back).Some?
    requires h in HitLocal(self, sqrt, globalPosition, r, transformBack, back).value.hits
    ensures h.isEntering || !transformBack ==> LengthSquared(h.point) == 1.0
    ensures LengthSquared(GetPoint(r, h.hitTime)) == 1.0
    ensures globalPosition == Zero ==> h.normal == GetPoint(r, h.hitTime)
  {
    RootsOnSphere(sqrt, r);
    var p := GetPoint(r, h.hitTime);
    assert h.normal == SurfaceNormal(sqrt, globalPosition, p);
    if globalPosition == Zero {
      assert Sub(p, Zero) == p;
      NormalizeUnit(sqrt, p);
    }
  }

  /** When both hits are kept the entering one is not later than the exiting
      one. */
  lemma HitsOrdered(self: ObjectId, sqrt: real -> real, globalPosition: Vec3, r: Ray,
                    transformBack: bool, back: Vec3 -> Vec3)
    requires IsSqrt(sqrt)
    requires HitLocal(self, sqrt, globalPosition, r, transformBack, back).Some?
    requires |HitLocal(self, sqrt, globalPosition, r, transformBack, back).value.hits| == 2
    ensures HitLocal(self, sqrt, globalPosition, r, transformBack, back).value.hits[0].hitTime
            <= HitLocal(self, sqrt, globalPosition, r, transformBack, back).value.hits[1].hitTime
  {
    RootsOnSphere(sqrt, r);
    var hits := HitLocal(self, sqrt, globalPosition, r, transformBack, back).value.hits;
    assert hits[0] in hits && hits[1] in hits;
  }

  /** The coefficients and discriminant of a particular ray, worked out on a
      ray given by its components. */
  lemma Coefficients(r: Ray, a: real, b: real, c: real)
    requires a == Sq(r.direction.x) + Sq(r.direction.y) + Sq(r.direction.z)
    requires b == 2.0 * (r.direction.x * r.start.x + r.direction.y * r.start.y + r.direction.z * r.start.z)
    requires c == Sq(r.start.x) + Sq(r.start.y) + Sq(r.start.z) - 1.0
    ensures QuadA(r) == a && QuadB(r) == b && QuadC(r) == c
    ensures Discriminant(r) == Sq(b) - 4.0 * a * c
  {
  }

  /** A ray from (1, 0.75, 0.75) along +X passes beside the sphere: the
      discriminant is -0.5. */
  lemma MissBeside(sqrt: real -> real, back: Vec3 -> Vec3)
    ensures Discriminant(NewRayIntended(Vec3(1.0, 0.75, 0.75), UnitX)) == -0.5
    ensures HitLocal(0, sqrt, Zero, NewRayIntended(Vec3(1.0, 0.75, 0.75), UnitX), false, back).None?
  {
    var r := NewRayIntended(Vec3(1.0, 0.75, 0.75), UnitX);
    Coefficients(r, 1.0, 2.0, 1.125);
  }

  /** A ray from (1, 1, 1) towards the centre enters and leaves. */
  lemma ThroughCentre(sqrt: real -> real, back: Vec3 -> Vec3)
    requires IsSqrt(sqrt)
    ensures HitLocal(0, sqrt, Zero, NewRayIntended(Vec3(1.0, 1.0, 1.0), Vec3(-1.0, -1.0, -1.0)), false, back).Some?
    ensures |HitLocal(0, sqrt, Zero, NewRayIntended(Vec3(1.0, 1.0, 1.0), Vec3(-1.0, -1.0, -1.0)), false, back).value.hits| == 2
  {
    var r := NewRayIntended(Vec3(1.0, 1.0, 1.0), Vec3(-1.0, -1.0, -1.0));
    Coefficients(r, 3.0, -6.0, 2.0);
    SqrtBelow(sqrt, 12.0, 5.99);
    var s := sqrt(12.0);
    assert s >= 0.0;
    assert Near(sqrt, r) == (6.0 - s) / 6.0;
    assert Far(sqrt, r) == (6.0 + s) / 6.0;
  }

  /** A ray starting on the sphere (`c = 0`) and moving along its tangent
      plane (`b = 0`) has the double root 0, and only the entering hit is
      kept. */
  lemma TangentAtStart(sqrt: real -> real, r: Ray, back: Vec3 -> Vec3)
    requires IsSqrt(sqrt)
    requires r.direction != Zero
    requires QuadB(r) == 0.0 && QuadC(r) == 0.0
    ensures HitLocal(0, sqrt, Zero, r, false, back).Some?
    ensures |HitLocal(0, sqrt, Zero, r, false, back).value.hits| == 1
    ensures HitLocal(0, sqrt, Zero, r, false, back).value.hits[0].hitTime == 0.0
  {
    assert Discriminant(r) == 0.0;
    SqrtZero(sqrt);
    MovingRay(r);
    assert Near(sqrt, r) == 0.0 && Far(sqrt, r) == 0.0;
  }

  /** The ray from (1, 0, 0) along +Y starts on the sphere (`c = 0`) and
      moves along its tangent plane (`b = 0`). */
  lemma TouchingRayIsTangent(r: Ray)
    requires r == NewRayIntended(UnitX, UnitY)
    ensures r.direction != Zero && QuadB(r) == 0.0 && QuadC(r) == 0.0
  {
    Coefficients(r, 1.0, 0.0, 0.0);
  }

  /** So that ray gets exactly one hit. */
  lemma Touching(sqrt: real -> real, r: Ray, back: Vec3 -> Vec3)
    requires IsSqrt(sqrt)
    requires r == NewRayIntended(UnitX, UnitY)
    ensures HitLocal(0, sqrt, Zero, r, false, back).Some?
    ensures |HitLocal(0, sqrt, Zero, r, false, back).value.hits| == 1
  {
    TouchingRayIsTangent(r);
    TangentAtStart(sqrt, r, back);
  }

  /** Built with the constructor as written, the ray from (1, 1, 1) has no
      direction, and the sphere reports no hit where two are expected. */
  lemma ThroughCentreAsWritten(sqrt: real -> real, back: Vec3 -> Vec3)
    ensures HitLocal(0, sqrt, Zero, NewRay(Vec3(1.0, 1.0, 1.0), Vec3(-1.0, -1.0, -1.0)), false, back).None?
  {
  }
}
