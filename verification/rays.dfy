/** `RayTracingEngine.Rendering.Ray` and the hit record the primitives
    return. */
module Rays {
  import opened Wrappers
  import opened Vectors

  /** A half-line `start + t * direction`. The direction is not required to be
      of unit length. */
  datatype Ray = Ray(start: Vec3, direction: Vec3)

  /** The constructor as written: the primary constructor takes a direction,
      but only `Start` is initialised from its parameter, so `Direction` keeps
      the default zero vector until a caller assigns it. */
  function NewRay(start: Vec3, direction: Vec3): (r: Ray)
    ensures r.start == start
    ensures r.direction == Zero
  {
    Ray(start, Zero)
  }

  /** The constructor as its parameter list promises: both fields are taken
      from the arguments. The rest of the model builds rays this way. */
  function NewRayIntended(start: Vec3, direction: Vec3): (r: Ray)
    ensures r.start == start
    ensures r.direction == direction
  {
    Ray(start, direction)
  }

  /** The constructor as written loses every non-zero direction it is
      given: the two constructors agree exactly on the zero direction. */
  lemma NewRayDropsDirection(start: Vec3, direction: Vec3)
    ensures NewRay(start, direction) == NewRayIntended(start, direction) <==> direction == Zero
  {
  }

  /** `Ray.GetPoint(t)`: the point at parameter `t` along the ray. */
  function GetPoint(r: Ray, t: real): Vec3 {
    Add(r.start, Scale(t, r.direction))
  }

  /** The ray starts at parameter 0 and moves by `direction` per unit of `t`. */
  lemma GetPointLinear(r: Ray, s: real, t: real)
    ensures GetPoint(r, 0.0) == r.start
    ensures Sub(GetPoint(r, s), GetPoint(r, t)) == Scale(s - t, r.direction)
  {
  }

  /** `GetHitPoint` of the cube and the sphere, identical in both: the point is
      mapped back to world space by the object's transform `back` when asked
      to, and returned as it is otherwise. */
  function GetHitPoint(point: Vec3, transformBack: bool, back: Vec3 -> Vec3): (p: Vec3)
    ensures !transformBack ==> p == point
    ensures transformBack ==> p == back(point)
  {
    if transformBack then back(point) else point
  }

  /** Identity of an object in the scene; the source compares object
      references. */
  type ObjectId = nat

  /** `HitPoint`: where a ray meets a surface. `surfaceIndex` is only set by the
      cube's exiting hit and `obj` only by the primitives that record their
      owner; `None` stands for a field left at its default. */
  datatype HitPoint = HitPoint(
    hitTime: real,
    point: Vec3,
    normal: Vec3,
    isEntering: bool,
    surfaceIndex: Option<int>,
    obj: Option<ObjectId>)

  /** `HitInfo`: the hits of one object along one ray, as the cube and the
      sphere return them. */
  datatype HitInfo = HitInfo(owner: ObjectId, hits: seq<HitPoint>)
}
