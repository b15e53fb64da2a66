/** `RayTracingEngine.Primitives.Plane`: the rectangle `y = 0`,
    `|x| <= scale.x / 2`, `|z| <= scale.z / 2` of local space, seen from both
    sides. */
module Plane {
  import opened Wrappers
  import opened RealMath
  import opened Vectors
  import opened Rays

  const MinHitTime: real := 0.0001

  /** Where the ray crosses `y = 0`. The source divides by `Direction.Y`; a ray
      parallel to the plane gives an IEEE infinity or NaN there, which this
      model excludes. */
  function CrossingTime(r: Ray): real
    requires r.direction.y != 0.0
  {
    -Dot(r.start, UnitY) / Dot(r.direction, UnitY)
  }

  /** The crossing time is the only time at which the ray is on `y = 0`. */
  lemma CrossingTimeUnique(r: Ray, t: real)
    requires r.direction.y != 0.0
    ensures GetPoint(r, t).y == 0.0 <==> t == CrossingTime(r)
  {
    var d := r.direction.y;
    assert Dot(r.start, UnitY) == r.start.y;
    assert Dot(r.direction, UnitY) == d;
    DivCancel(-r.start.y, d);
    if GetPoint(r, t).y == 0.0 {
      assert t * d == -r.start.y;
      assert t == (t * d) / d;
    }
  }

  /** The point lies within the rectangle's bounds in x and z. */
  predicate InRectangle(scale: Vec3, p: Vec3) {
    Abs(p.x) <= scale.x / 2.0 && Abs(p.z) <= scale.z / 2.0
  }

  /** `Plane.SimpleHitLocal`: the crossing time, if it is past the threshold
      and the crossing point is inside the rectangle; nothing otherwise. */
  function SimpleHitLocal(scale: Vec3, r: Ray): (hits: seq<real>)
    requires r.direction.y != 0.0
    ensures |hits| <= 1
    ensures |hits| == 1 <==>
              CrossingTime(r) >= MinHitTime && InRectangle(scale, GetPoint(r, CrossingTime(r)))
    ensures |hits| == 1 ==> hits[0] == CrossingTime(r)
  {
    var t := CrossingTime(r);
    if t < MinHitTime then []
    else if Abs(GetPoint(r, t).x) > scale.x / 2.0 || Abs(GetPoint(r, t).z) > scale.z / 2.0 then []
    else [t]
  }

  /** A hit is exactly a time past the threshold at which the ray is on the
      plane and inside the rectangle. */
  lemma SimpleHitIsCrossing(scale: Vec3, r: Ray, t: real)
    requires r.direction.y != 0.0
    ensures SimpleHitLocal(scale, r) == [t] <==>
              t >= MinHitTime && GetPoint(r, t).y == 0.0 && InRectangle(scale, GetPoint(r, t))
  {
    CrossingTimeUnique(r, t);
  }

  /** `Plane.HasShadowHit`, given the ray already moved into local space: the
      plane shadows a point when it is crossed before one unit of the ray. */
  function HasShadowHit(scale: Vec3, r: Ray): (b: bool)
    requires r.direction.y != 0.0
    ensures b <==> exists t :: SimpleHitLocal(scale, r) == [t] && t < 1.0
  {
    var hit := SimpleHitLocal(scale, r);
    if |hit| == 0 then false else hit[0] < 1.0
  }

  /** The shadow test in terms of the geometry alone. */
  lemma ShadowMeansCrossingBeforeOne(scale: Vec3, r: Ray)
    requires r.direction.y != 0.0
    ensures HasShadowHit(scale, r) <==>
              MinHitTime <= CrossingTime(r) < 1.0 && InRectangle(scale, GetPoint(r, CrossingTime(r)))
  {
    if HasShadowHit(scale, r) {
      var t :| SimpleHitLocal(scale, r) == [t] && t < 1.0;
      assert [t][0] == t;
    }
  }

  /** `Plane.HitLocal`: the hit is tagged with the plane, found in local space
      and placed on the world ray at the same time; the normal is always +Y
      and the hit always counts as entering. */
  function HitLocal(self: ObjectId, scale: Vec3, r: Ray, worldRay: Ray): (hits: seq<HitPoint>)
    requires r.direction.y != 0.0
    ensures |hits| == |SimpleHitLocal(scale, r)|
    ensures forall i :: 0 <= i < |hits| ==>
              hits[i].hitTime == SimpleHitLocal(scale, r)[i]
              && hits[i].point == GetPoint(worldRay, hits[i].hitTime)
              && hits[i].normal == UnitY && hits[i].isEntering
              && hits[i].obj == Some(self) && hits[i].surfaceIndex.None?
  {
    var values := SimpleHitLocal(scale, r);
    if |values| == 0 then []
    else [HitPoint(values[0], GetPoint(worldRay, values[0]), UnitY, true, None, Some(self))]
  }
}
