/** `RayTracingEngine.Primitives.Cylinder`: the solid of radius 1 around the
    y axis between the caps `y = 0` and `y = 1` of local space. A ray is tested
    against the lateral surface (a quadratic in `t` over the x and z
    coordinates) and then against the two caps. */
module Cylinder {
  import opened Wrappers
  import opened RealMath
  import opened Vectors
  import opened Rays

  const Height: real := 1.0
  const Radius: real := 1.0

  /** A ray whose vertical speed is at most this is not tested against the
      caps. */
  const CapLimit: real := 0.000001

  /** The lateral quadratic `a t^2 + b t + c` in x and z. */
  function LatA(r: Ray): real {
    Sq(r.direction.x) + Sq(r.direction.z)
  }

  function LatB(r: Ray): real {
    2.0 * (r.start.x * r.direction.x + r.start.z * r.direction.z)
  }

  function LatC(r: Ray): real {
    Sq(r.start.x) + Sq(r.start.z) - Sq(Radius)
  }

  function LatDiscriminant(r: Ray): real {
    Sq(LatB(r)) - 4.0 * LatA(r) * LatC(r)
  }

  predicate WithinHeight(y: real) {
    0.0 <= y <= Height
  }

  predicate InDisc(x: real, z: real) {
    Sq(x) + Sq(z) <= Sq(Radius)
  }

  /** A root of the lateral quadratic is kept when it lies ahead of the start
      and between the caps. */
  function SideHit(r: Ray, t: real): (hits: seq<real>)
    ensures |hits| <= 1
    ensures forall i :: 0 <= i < |hits| ==> hits[i] == t && t > 0.0 && WithinHeight(GetPoint(r, t).y)
    ensures t > 0.0 && WithinHeight(GetPoint(r, t).y) ==> hits == [t]
  {
    if t > 0.0 && WithinHeight(GetPoint(r, t).y) then [t] else []
  }

  /** The lateral roots that lie ahead of the start and between the caps,
      smaller root first. A ray parallel to the axis (`a = 0`) divides zero by
      zero in the source; the NaN it gets fails both `t > 0` tests, so it has
      no lateral hit. */
  function LateralHits(sqrt: real -> real, r: Ray): (hits: seq<real>)
    ensures |hits| <= 2
    ensures forall i :: 0 <= i < |hits| ==> hits[i] > 0.0 && WithinHeight(GetPoint(r, hits[i]).y)
    ensures LatDiscriminant(r) < 0.0 || LatA(r) == 0.0 ==> hits == []
  {
    var a, b := LatA(r), LatB(r);
    if LatDiscriminant(r) < 0.0 || a == 0.0 then []
    else
      var s := sqrt(LatDiscriminant(r));
      var t1 := (-b - s) / (2.0 * a);
      var t2 := (-b + s) / (2.0 * a);
      SideHit(r, t1) + SideHit(r, t2)
  }

  /** Where the ray reaches the plane of the top and of the bottom cap. */
  function TopTime(r: Ray): real
    requires r.direction.y != 0.0
  {
    (Height - r.start.y) / r.direction.y
  }

  function BottomTime(r: Ray): real
    requires r.direction.y != 0.0
  {
    -r.start.y / r.direction.y
  }

  /** A cap crossing is kept when it lies ahead of the start and inside the
      disc. */
  function CapHit(r: Ray, t: real): (hits: seq<real>)
    ensures |hits| <= 1
    ensures forall i :: 0 <= i < |hits| ==> hits[i] == t && t > 0.0 && InDisc(GetPoint(r, t).x, GetPoint(r, t).z)
    ensures t > 0.0 && InDisc(GetPoint(r, t).x, GetPoint(r, t).z) ==> hits == [t]
  {
    if t > 0.0 && InDisc(GetPoint(r, t).x, GetPoint(r, t).z) then [t] else []
  }

  /** The cap crossings that lie ahead of the start and inside the unit disc,
      top first; none for a ray too close to horizontal. */
  function CapHits(r: Ray): (hits: seq<real>)
    ensures |hits| <= 2
    ensures forall i :: 0 <= i < |hits| ==> hits[i] > 0.0 && InDisc(GetPoint(r, hits[i]).x, GetPoint(r, hits[i]).z)
    ensures Abs(r.direction.y) <= CapLimit ==> hits == []
    ensures Abs(r.direction.y) > CapLimit ==> hits == CapHit(r, TopTime(r)) + CapHit(r, BottomTime(r))
  {
    if Abs(r.direction.y) <= CapLimit then []
    else
      var top, bottom := TopTime(r), BottomTime(r);
      CapHit(r, top) + CapHit(r, bottom)
  }

  /** `Cylinder.SimpleHitLocal`: the lateral hits, then the cap hits, in that
      order and not sorted. */
  function SimpleHitLocal(sqrt: real -> real, r: Ray): (hits: seq<real>)
    ensures |hits| <= 4
    ensures forall i :: 0 <= i < |hits| ==> hits[i] > 0.0
    ensures |hits| == |LateralHits(sqrt, r)| + |CapHits(r)|
    ensures hits[..|LateralHits(sqrt, r)|] == LateralHits(sqrt, r)
    ensures hits[|LateralHits(sqrt, r)|..] == CapHits(r)
  {
    LateralHits(sqrt, r) + CapHits(r)
  }

  /** On the surface of the cylinder: on the side between the caps, or on a
      cap inside the disc. */
  predicate OnSurface(p: Vec3) {
    (Sq(p.x) + Sq(p.z) == Sq(Radius) && WithinHeight(p.y))
    || (p.y == Height && InDisc(p.x, p.z))
    || (p.y == 0.0 && InDisc(p.x, p.z))
  }

  /** The lateral quadratic is the squared distance from the axis, minus one. */
  lemma LateralIsDistance(r: Ray, t: real)
    ensures LatA(r) * Sq(t) + LatB(r) * t + LatC(r)
            == Sq(GetPoint(r, t).x) + Sq(GetPoint(r, t).z) - Sq(Radius)
  {
    var s, d := r.start, r.direction;
    SqAffine(s.x, d.x, t);
    SqAffine(s.z, d.z, t);
    assert LatA(r) * Sq(t) == Sq(d.x) * Sq(t) + Sq(d.z) * Sq(t);
    assert LatB(r) * t == 2.0 * (d.x * s.x) * t + 2.0 * (d.z * s.z) * t;
  }

  lemma LateralHitOnSide(sqrt: real -> real, r: Ray, t: real)
    requires IsSqrt(sqrt)
    requires t in LateralHits(sqrt, r)
    ensures Sq(GetPoint(r, t).x) + Sq(GetPoint(r, t).z) == Sq(Radius)
  {
    var a, b, c := LatA(r), LatB(r), LatC(r);
    var s := sqrt(LatDiscriminant(r));
    assert s >= 0.0 && Sq(s) == Sq(b) - 4.0 * a * c;
    QuadraticRoot(a, b, c, s, t);
    LateralIsDistance(r, t);
  }

  /** The time `(h - start.y) / direction.y` reaches height `h`. */
  lemma ReachesHeight(r: Ray, t: real, h: real)
    requires r.direction.y != 0.0
    requires t == (h - r.start.y) / r.direction.y
    ensures GetPoint(r, t).y == h
  {
    DivCancel(h - r.start.y, r.direction.y);
  }

  lemma CapHitOnCap(r: Ray, t: real)
    requires t in CapHits(r)
    ensures GetPoint(r, t).y == Height || GetPoint(r, t).y == 0.0
  {
    assert r.direction.y != 0.0;
    if t == TopTime(r) {
      ReachesHeight(r, t, Height);
    } else {
      assert t == BottomTime(r);
      ReachesHeight(r, t, 0.0);
    }
  }

  /** Every hit the test reports is a point of the cylinder's surface. */
  lemma HitsOnSurface(sqrt: real -> real, r: Ray, i: nat)
    requires IsSqrt(sqrt)
    requires i < |SimpleHitLocal(sqrt, r)|
    ensures OnSurface(GetPoint(r, SimpleHitLocal(sqrt, r)[i]))
  {
    var lat := LateralHits(sqrt, r);
    var hits := SimpleHitLocal(sqrt, r);
    if i < |lat| {
      assert hits[i] == lat[i];
      LateralHitOnSide(sqrt, r, hits[i]);
    } else {
      assert hits[i] == CapHits(r)[i - |lat|];
      CapHitOnCap(r, hits[i]);
    }
  }

  /** Every root of the lateral quadratic that lies ahead of the start and
      between the caps is reported, for a ray that is not parallel to the
      axis. */
  lemma LateralHitsComplete(sqrt: real -> real, r: Ray, t: real)
    requires IsSqrt(sqrt)
    requires LatA(r) != 0.0
    requires LatA(r) * Sq(t) + LatB(r) * t + LatC(r) == 0.0
    requires t > 0.0 && WithinHeight(GetPoint(r, t).y)
    ensures t in LateralHits(sqrt, r)
  {
    var a, b := LatA(r), LatB(r);
    RootIsQuotient(sqrt, a, b, LatC(r), t);
    var s := sqrt(LatDiscriminant(r));
    assert LatDiscriminant(r) == Sq(b) - 4.0 * a * LatC(r);
    var t1, t2 := (-b - s) / (2.0 * a), (-b + s) / (2.0 * a);
    assert t == t1 || t == t2;
    assert LateralHits(sqrt, r) == SideHit(r, t1) + SideHit(r, t2);
    if t == t1 {
      assert SideHit(r, t1) == [t];
    } else {
      assert SideHit(r, t2) == [t];
    }
  }

  /** A time that puts the ray on the plane of a cap, ahead of the start and
      inside the disc, is reported, unless the ray is too close to
      horizontal. The top crossing comes before the bottom one. */
  lemma CapHitsComplete(r: Ray, t: real)
    requires Abs(r.direction.y) > CapLimit
    requires t > 0.0 && InDisc(GetPoint(r, t).x, GetPoint(r, t).z)
    requires GetPoint(r, t).y == Height || GetPoint(r, t).y == 0.0
    ensures t in CapHits(r)
  {
    var y := GetPoint(r, t).y;
    assert t * r.direction.y == y - r.start.y;
    QuotientFromProduct(t, r.direction.y, y - r.start.y);
    if y == Height {
      assert t == TopTime(r);
      assert CapHit(r, TopTime(r)) == [t];
    } else {
      assert t == BottomTime(r);
      assert CapHit(r, BottomTime(r)) == [t];
    }
  }

  /** The converse of `HitsOnSurface`: every time ahead of the start that
      puts the ray on the cylinder's surface is reported, except on the side
      for a ray parallel to the axis and on a cap for a ray too close to
      horizontal, the two cases the source's tests skip. */
  lemma SurfaceTimesReported(sqrt: real -> real, r: Ray, t: real)
    requires IsSqrt(sqrt)
    requires t > 0.0
    ensures var p := GetPoint(r, t);
            Sq(p.x) + Sq(p.z) == Sq(Radius) && WithinHeight(p.y) && LatA(r) != 0.0
            ==> t in SimpleHitLocal(sqrt, r)
    ensures var p := GetPoint(r, t);
            (p.y == Height || p.y == 0.0) && InDisc(p.x, p.z) && Abs(r.direction.y) > CapLimit
            ==> t in SimpleHitLocal(sqrt, r)
  {
    var p := GetPoint(r, t);
    var hits := SimpleHitLocal(sqrt, r);
    if Sq(p.x) + Sq(p.z) == Sq(Radius) && WithinHeight(p.y) && LatA(r) != 0.0 {
      LateralIsDistance(r, t);
      LateralHitsComplete(sqrt, r, t);
      assert hits == LateralHits(sqrt, r) + CapHits(r);
    }
    if (p.y == Height || p.y == 0.0) && InDisc(p.x, p.z) && Abs(r.direction.y) > CapLimit {
      CapHitsComplete(r, t);
      assert hits == LateralHits(sqrt, r) + CapHits(r);
    }
  }

  /** Under the square-root axioms the two lateral roots come in order. */
  lemma LateralOrdered(sqrt: real -> real, r: Ray)
    requires IsSqrt(sqrt)
    requires |LateralHits(sqrt, r)| == 2
    ensures LateralHits(sqrt, r)[0] <= LateralHits(sqrt, r)[1]
  {
    var a, b := LatA(r), LatB(r);
    var s := sqrt(LatDiscriminant(r));
    SqNonNegative(r.direction.x);
    SqNonNegative(r.direction.z);
    DivMonotonic(-b - s, -b + s, 2.0 * a);
  }

  /** The outward normal of the side at a point: its horizontal part,
      normalised. */
  function RadialNormal(sqrt: real -> real, p: Vec3): Vec3 {
    Normalize(sqrt, p.(y := 0.0))
  }

  function MakeHit(self: ObjectId, sqrt: real -> real, r: Ray, worldRay: Ray, t: real): HitPoint {
    var normal := RadialNormal(sqrt, GetPoint(r, t));
    HitPoint(t, GetPoint(worldRay, t), normal, Dot(r.direction, normal) < 0.0, None, Some(self))
  }

  /** `Cylinder.HitLocal`: one hit per time of `SimpleHitLocal`, in the same
      order, placed on the world ray; the normal is the radial one even on a
      cap, and a hit is entering when the ray moves against it. */
  function HitLocal(self: ObjectId, sqrt: real -> real, r: Ray, worldRay: Ray): (hits: seq<HitPoint>)
    ensures |hits| == |SimpleHitLocal(sqrt, r)|
    ensures forall i :: 0 <= i < |hits| ==>
              hits[i].hitTime == SimpleHitLocal(sqrt, r)[i]
              && hits[i].point == GetPoint(worldRay, hits[i].hitTime)
              && hits[i].normal == RadialNormal(sqrt, GetPoint(r, hits[i].hitTime))
              && (hits[i].isEntering <==> Dot(r.direction, hits[i].normal) < 0.0)
              && hits[i].obj == Some(self)
  {
    var times := SimpleHitLocal(sqrt, r);
    seq(|times|, i requires 0 <= i < |times| => MakeHit(self, sqrt, r, worldRay, times[i]))
  }

  /** Normalising by a positive length keeps the sign of a dot product, so a
      hit is entering exactly when the ray moves towards the axis. */
  lemma EnteringMovesTowardsAxis(self: ObjectId, sqrt: real -> real, r: Ray, worldRay: Ray, i: nat)
    requires IsSqrt(sqrt)
    requires i < |HitLocal(self, sqrt, r, worldRay)|
    requires GetPoint(r, HitLocal(self, sqrt, r, worldRay)[i].hitTime).(y := 0.0) != Zero
    ensures HitLocal(self, sqrt, r, worldRay)[i].isEntering
            <==> Dot(r.direction, GetPoint(r, HitLocal(self, sqrt, r, worldRay)[i].hitTime).(y := 0.0)) < 0.0
  {
    var v := GetPoint(r, HitLocal(self, sqrt, r, worldRay)[i].hitTime).(y := 0.0);
    NormalizeKeepsSign(sqrt, r.direction, v);
  }

  /** `Cylinder.HasShadowHit`, given the ray already moved into local space. */
  function HasShadowHit(sqrt: real -> real, r: Ray): (b: bool)
    ensures b <==> |SimpleHitLocal(sqrt, r)| > 0
  {
    var hit := SimpleHitLocal(sqrt, r);
    |hit| > 0 && hit[0] > 0.0
  }
}
