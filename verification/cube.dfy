/** `RayTracingEngine.Primitives.Cube`: the axis-aligned cube [-1, 1]^3 in
    local space, intersected by the slab method.

    Face `f` is the plane `Dot(UnitNormal(f), p) == 1`. Along a ray it is
    reached at `t = Numerator(r, f) / Denominator(r, f)`; a face whose
    denominator is negative is one the ray enters through, a positive one is
    one it leaves through, and one whose denominator is smaller than
    `ParallelLimit` in magnitude is skipped as parallel to the ray. */
module Cube {
  import opened Wrappers
  import opened RealMath
  import opened Vectors
  import opened Rays

  const ParallelLimit: real := 0.00001
  const MinHitTime: real := 0.00001

  /** The faces in the order the source scans them: +Y, -Y, +X, -X, +Z, -Z. */
  function Numerator(r: Ray, face: nat): real
    requires face < 6
  {
    if face == 0 then 1.0 - r.start.y
    else if face == 1 then 1.0 + r.start.y
    else if face == 2 then 1.0 - r.start.x
    else if face == 3 then 1.0 + r.start.x
    else if face == 4 then 1.0 - r.start.z
    else 1.0 + r.start.z
  }

  function Denominator(r: Ray, face: nat): real
    requires face < 6
  {
    if face == 0 then r.direction.y
    else if face == 1 then -r.direction.y
    else if face == 2 then r.direction.x
    else if face == 3 then -r.direction.x
    else if face == 4 then r.direction.z
    else -r.direction.z
  }

  predicate Parallel(den: real) {
    Abs(den) < ParallelLimit
  }

  /** A face the ray enters through: it goes to the `else` branch of the
      source's sign test, whose denominator is non-zero there. */
  predicate Entering(r: Ray, face: nat) {
    face < 6 && !Parallel(Denominator(r, face)) && Denominator(r, face) < 0.0
  }

  predicate Exiting(r: Ray, face: nat) {
    face < 6 && !Parallel(Denominator(r, face)) && Denominator(r, face) > 0.0
  }

  function FaceTime(r: Ray, face: nat): real
    requires face < 6 && !Parallel(Denominator(r, face))
  {
    Numerator(r, face) / Denominator(r, face)
  }

  /** `tIn`/`inSurface` or `tOut`/`outSurface`; `Unset` is the source's
      `float.MinValue`/`float.MaxValue` sentinel. */
  datatype Bound = Unset | Bound(t: real, face: nat)

  /** `tIn` after the first `n` faces: the latest entering time, the first face
      reaching it winning ties because the comparison is strict. */
  function ScanIn(r: Ray, n: nat): (b: Bound)
    requires n <= 6
    ensures b.Unset? <==> forall f :: 0 <= f < n ==> !Entering(r, f)
    ensures b.Bound? ==> b.face < n && Entering(r, b.face) && b.t == FaceTime(r, b.face)
    ensures b.Bound? ==> forall f :: 0 <= f < n && Entering(r, f) ==> FaceTime(r, f) <= b.t
    ensures b.Bound? ==> forall f :: 0 <= f < b.face && Entering(r, f) ==> FaceTime(r, f) < b.t
  {
    if n == 0 then Unset
    else
      var b := ScanIn(r, n - 1);
      if !Entering(r, n - 1) then b
      else if b.Unset? || FaceTime(r, n - 1) > b.t then Bound(FaceTime(r, n - 1), n - 1)
      else b
  }

  /** `tOut` after the first `n` faces: the earliest exiting time, first face
      winning ties. */
  function ScanOut(r: Ray, n: nat): (b: Bound)
    requires n <= 6
    ensures b.Unset? <==> forall f :: 0 <= f < n ==> !Exiting(r, f)
    ensures b.Bound? ==> b.face < n && Exiting(r, b.face) && b.t == FaceTime(r, b.face)
    ensures b.Bound? ==> forall f :: 0 <= f < n && Exiting(r, f) ==> b.t <= FaceTime(r, f)
    ensures b.Bound? ==> forall f :: 0 <= f < b.face && Exiting(r, f) ==> b.t < FaceTime(r, f)
  {
    if n == 0 then Unset
    else
      var b := ScanOut(r, n - 1);
      if !Exiting(r, n - 1) then b
      else if b.Unset? || FaceTime(r, n - 1) < b.t then Bound(FaceTime(r, n - 1), n - 1)
      else b
  }

  /** `Cube.GetUnitNormal`. */
  function UnitNormal(face: int): Vec3 {
    if face == 0 then UnitY
    else if face == 1 then Neg(UnitY)
    else if face == 2 then UnitX
    else if face == 3 then Neg(UnitX)
    else if face == 4 then UnitZ
    else if face == 5 then Neg(UnitZ)
    else Zero
  }

  /** Faces 2k and 2k+1 are opposite, the six normals are unit vectors, and any
      other index gives the zero vector. */
  lemma UnitNormalFaces(face: int)
    ensures 0 <= face < 6 ==> LengthSquared(UnitNormal(face)) == 1.0
    ensures face == 0 || face == 2 || face == 4 ==> UnitNormal(face + 1) == Neg(UnitNormal(face))
    ensures face < 0 || 6 <= face ==> UnitNormal(face) == Zero
  {
    if 0 <= face < 6 {
      var n := UnitNormal(face);
      assert Sq(1.0) == 1.0 && Sq(-1.0) == 1.0 && Sq(0.0) == 0.0;
      assert LengthSquared(n) == Sq(n.x) + Sq(n.y) + Sq(n.z);
    }
  }

  /** How far `p` lies along the outward normal of `face`: the coordinate of
      the face's axis, negated for the faces on the negative side. */
  function Along(face: nat, p: Vec3): real
    requires face < 6
  {
    if face == 0 then p.y
    else if face == 1 then -p.y
    else if face == 2 then p.x
    else if face == 3 then -p.x
    else if face == 4 then p.z
    else -p.z
  }

  lemma DotUnitNormal(face: nat, p: Vec3)
    requires face < 6
    ensures Dot(UnitNormal(face), p) == Along(face, p)
  {
    if face == 0 {
      assert Dot(UnitY, p) == p.y;
    } else if face == 1 {
      assert Dot(Neg(UnitY), p) == -p.y;
    } else if face == 2 {
      assert Dot(UnitX, p) == p.x;
    } else if face == 3 {
      assert Dot(Neg(UnitX), p) == -p.x;
    } else if face == 4 {
      assert Dot(UnitZ, p) == p.z;
    } else {
      assert Dot(Neg(UnitZ), p) == -p.z;
    }
  }

  /** The numerator and denominator of face `f` measure the ray against the
      plane `Dot(UnitNormal(f), p) == 1`. */
  lemma FaceMeasures(r: Ray, face: nat, t: real)
    requires face < 6
    ensures Denominator(r, face) == Dot(UnitNormal(face), r.direction)
    ensures Along(face, GetPoint(r, t)) == 1.0 - Numerator(r, face) + t * Denominator(r, face)
  {
    DotUnitNormal(face, r.direction);
  }

  /** A time solving the face's linear equation puts the point on its plane. */
  lemma OnFacePlane(r: Ray, face: nat, t: real)
    requires face < 6
    requires t * Denominator(r, face) == Numerator(r, face)
    ensures Along(face, GetPoint(r, t)) == 1.0
  {
    FaceMeasures(r, face, t);
  }

  /** A time at which the ray has not yet crossed the face's plane. */
  lemma BelowFacePlane(r: Ray, face: nat, t: real)
    requires face < 6
    requires t * Denominator(r, face) <= Numerator(r, face)
    ensures Along(face, GetPoint(r, t)) <= 1.0
  {
    FaceMeasures(r, face, t);
  }

  /** The time computed for a face is where the ray meets that face's plane. */
  lemma FaceTimeOnFace(r: Ray, face: nat)
    requires face < 6 && !Parallel(Denominator(r, face))
    ensures Dot(UnitNormal(face), GetPoint(r, FaceTime(r, face))) == 1.0
  {
    var num, den := Numerator(r, face), Denominator(r, face);
    var t := FaceTime(r, face);
    DivCancel(num, den);
    OnFacePlane(r, face, t);
    DotUnitNormal(face, GetPoint(r, t));
  }

  /** The source's null result, before any hit is built. */
  predicate NoSpan(tIn: Bound, tOut: Bound) {
    tIn.Unset? || tOut.Unset? || tIn.t >= tOut.t
  }

  /** The hits of a non-null result: at most one entering hit, then at most
      one exiting hit, strictly later and both past `MinHitTime`. */
  predicate WellOrderedHits(hits: seq<HitPoint>) {
    1 <= |hits| <= 2
    && (forall i :: 0 <= i < |hits| ==> hits[i].hitTime > MinHitTime)
    && (|hits| == 2 ==> hits[0].isEntering && !hits[1].isEntering && hits[0].hitTime < hits[1].hitTime)
  }

  /** `Cube.HitLocal`. */
  function HitLocal(self: ObjectId, r: Ray, transformBack: bool, back: Vec3 -> Vec3): (res: Option<HitInfo>)
    ensures NoSpan(ScanIn(r, 6), ScanOut(r, 6)) ==> res.None?
    ensures !NoSpan(ScanIn(r, 6), ScanOut(r, 6)) ==>
              (res.None? <==> ScanIn(r, 6).t <= MinHitTime && ScanOut(r, 6).t <= MinHitTime)
    ensures res.Some? ==> res.value.owner == self && WellOrderedHits(res.value.hits)
    ensures !NoSpan(ScanIn(r, 6), ScanOut(r, 6)) && ScanIn(r, 6).t > MinHitTime ==>
              res.Some? && res.value.hits[0].isEntering
    ensures !NoSpan(ScanIn(r, 6), ScanOut(r, 6)) && ScanOut(r, 6).t > MinHitTime ==>
              res.Some? && !res.value.hits[|res.value.hits| - 1].isEntering
    ensures !NoSpan(ScanIn(r, 6), ScanOut(r, 6)) && res.Some? ==>
              |res.value.hits| == (if ScanIn(r, 6).t > MinHitTime then 1 else 0)
                                  + (if ScanOut(r, 6).t > MinHitTime then 1 else 0)
    ensures res.Some? ==> forall h :: h in res.value.hits && h.isEntering ==>
              h.hitTime == ScanIn(r, 6).t && h.normal == UnitNormal(ScanIn(r, 6).face) && h.surfaceIndex.None?
    ensures res.Some? ==> forall h :: h in res.value.hits && !h.isEntering ==>
              h.hitTime == ScanOut(r, 6).t && h.normal == UnitNormal(ScanOut(r, 6).face)
              && h.surfaceIndex == Some(ScanOut(r, 6).face as int)
    ensures res.Some? && !transformBack ==> forall h :: h in res.value.hits ==> h.point == GetPoint(r, h.hitTime)
  {
    var tIn, tOut := ScanIn(r, 6), ScanOut(r, 6);
    if NoSpan(tIn, tOut) then None
    else
      var entering :=
        if tIn.t > MinHitTime then
          [HitPoint(tIn.t, GetHitPoint(GetPoint(r, tIn.t), transformBack, back), UnitNormal(tIn.face), true, None, None)]
        else [];
      var exiting :=
        if tOut.t > MinHitTime then
          [HitPoint(tOut.t, GetHitPoint(GetPoint(r, tOut.t), transformBack, back), UnitNormal(tOut.face), false, Some(tOut.face as int), None)]
        else [];
      var hits := entering + exiting;
      if |hits| == 0 then None else Some(HitInfo(self, hits))
  }

  /** The ray `r` with its start moved along the y axis. */
  function WithStartY(r: Ray, y: real): Ray {
    r.(start := r.start.(y := y))
  }

  /** Moving the start along y changes nothing on the four faces of the
      other axes, and the two y faces keep their denominators. */
  lemma WithStartYFace(r: Ray, y: real, face: nat)
    requires face < 6
    requires Parallel(r.direction.y)
    ensures Entering(WithStartY(r, y), face) == Entering(r, face)
    ensures Exiting(WithStartY(r, y), face) == Exiting(r, face)
    ensures Entering(r, face) || Exiting(r, face) ==> FaceTime(WithStartY(r, y), face) == FaceTime(r, face)
  {
    var r' := WithStartY(r, y);
    assert Denominator(r', face) == Denominator(r, face);
    if face >= 2 {
      assert Numerator(r', face) == Numerator(r, face);
    } else {
      assert Abs(Denominator(r, face)) == Abs(r.direction.y);
    }
  }

  /** An axis the ray runs parallel to never constrains the result: where the
      ray starts along that axis, inside the slab or far outside it, makes no
      difference to the times and faces found. */
  lemma {:induction false} ParallelAxisIgnored(r: Ray, y: real, n: nat)
    requires n <= 6
    requires Parallel(r.direction.y)
    ensures ScanIn(WithStartY(r, y), n) == ScanIn(r, n)
    ensures ScanOut(WithStartY(r, y), n) == ScanOut(r, n)
  {
    if n > 0 {
      ParallelAxisIgnored(r, y, n - 1);
      WithStartYFace(r, y, n - 1);
    }
  }

  /** A ray from (2, 2, 2) along +X misses the cube. */
  lemma MissFromOutside(back: Vec3 -> Vec3)
    ensures HitLocal(0, NewRayIntended(Vec3(2.0, 2.0, 2.0), UnitX), false, back).None?
  {
    var r := NewRayIntended(Vec3(2.0, 2.0, 2.0), UnitX);
    assert ScanOut(r, 2) == Unset;
    assert ScanOut(r, 3) == Bound(-1.0, 2);
    assert ScanOut(r, 4) == Bound(-1.0, 2);
    assert ScanOut(r, 5) == Bound(-1.0, 2);
    assert ScanOut(r, 6) == Bound(-1.0, 2);
    assert ScanIn(r, 3) == Unset;
    assert ScanIn(r, 4) == Bound(-3.0, 3);
    assert ScanIn(r, 5) == Bound(-3.0, 3);
    assert ScanIn(r, 6) == Bound(-3.0, 3);
  }

  predicate InCube(p: Vec3) {
    -1.0 <= p.x <= 1.0 && -1.0 <= p.y <= 1.0 && -1.0 <= p.z <= 1.0
  }

  /** Because a parallel axis is skipped, a ray along the x axis five units
      above the cube still reports a hit: it "leaves" through the +X face at
      (1, 5, 0), a point outside the cube. */
  lemma ParallelOutsideSlabHits(back: Vec3 -> Vec3)
    ensures HitLocal(0, Ray(Vec3(0.0, 5.0, 0.0), UnitX), false, back)
            == Some(HitInfo(0, [HitPoint(1.0, Vec3(1.0, 5.0, 0.0), UnitX, false, Some(2), None)]))
    ensures !InCube(Vec3(1.0, 5.0, 0.0))
  {
    var r := Ray(Vec3(0.0, 5.0, 0.0), UnitX);
    assert ScanOut(r, 2) == Unset;
    assert ScanOut(r, 3) == Bound(1.0, 2);
    assert ScanOut(r, 4) == Bound(1.0, 2);
    assert ScanOut(r, 5) == Bound(1.0, 2);
    assert ScanOut(r, 6) == Bound(1.0, 2);
    assert ScanIn(r, 3) == Unset;
    assert ScanIn(r, 4) == Bound(-1.0, 3);
    assert ScanIn(r, 5) == Bound(-1.0, 3);
    assert ScanIn(r, 6) == Bound(-1.0, 3);
    assert GetPoint(r, 1.0) == Vec3(1.0, 5.0, 0.0);
    assert GetHitPoint(GetPoint(r, 1.0), false, back) == Vec3(1.0, 5.0, 0.0);
    assert UnitNormal(2) == UnitX;
    var h := HitPoint(1.0, Vec3(1.0, 5.0, 0.0), UnitX, false, Some(2), None);
    assert [] + [h] == [h];
  }

  /** A parallel face whose plane the ray starts beyond: the ray can never
      reach the inside of that slab. */
  predicate OutsideParallelSlab(r: Ray) {
    exists f :: 0 <= f < 6 && Parallel(Denominator(r, f)) && Numerator(r, f) < 0.0
  }

  /** The slab test with the missing check added: a ray that runs parallel to
      a slab and starts outside it cannot hit the cube. */
  function HitLocalChecked(self: ObjectId, r: Ray, transformBack: bool, back: Vec3 -> Vec3): (res: Option<HitInfo>)
    ensures OutsideParallelSlab(r) ==> res.None?
    ensures !OutsideParallelSlab(r) ==> res == HitLocal(self, r, transformBack, back)
  {
    if OutsideParallelSlab(r) then None else HitLocal(self, r, transformBack, back)
  }

  /** The ray from (0, 0.999999, 0) along (1, 0.000009, 0) runs inside the y
      slab, but too close to parallel for the y faces to be examined. */
  lemma NearParallelInsideSlabs(r: Ray)
    requires r == Ray(Vec3(0.0, 0.999999, 0.0), Vec3(1.0, 0.000009, 0.0))
    ensures !OutsideParallelSlab(r)
    ensures Parallel(Denominator(r, 0)) && Parallel(Denominator(r, 1))
  {
    forall f | 0 <= f < 6
      ensures Numerator(r, f) >= 0.0
    {
    }
  }

  /** The check does not cover a ray that is nearly, but not exactly,
      parallel to a slab: this one leaves through the +X face at
      (1, 1.000008, 0), just above the cube. */
  lemma NearParallelCheckedHit(back: Vec3 -> Vec3)
    ensures HitLocalChecked(0, Ray(Vec3(0.0, 0.999999, 0.0), Vec3(1.0, 0.000009, 0.0)), false, back)
            == Some(HitInfo(0, [HitPoint(1.0, Vec3(1.0, 1.000008, 0.0), UnitX, false, Some(2), None)]))
    ensures !InCube(Vec3(1.0, 1.000008, 0.0))
  {
    var r := Ray(Vec3(0.0, 0.999999, 0.0), Vec3(1.0, 0.000009, 0.0));
    NearParallelInsideSlabs(r);
    assert ScanOut(r, 2) == Unset;
    assert ScanOut(r, 3) == Bound(1.0, 2);
    assert ScanOut(r, 4) == Bound(1.0, 2);
    assert ScanOut(r, 5) == Bound(1.0, 2);
    assert ScanOut(r, 6) == Bound(1.0, 2);
    assert ScanIn(r, 3) == Unset;
    assert ScanIn(r, 4) == Bound(-1.0, 3);
    assert ScanIn(r, 5) == Bound(-1.0, 3);
    assert ScanIn(r, 6) == Bound(-1.0, 3);
    assert GetPoint(r, 1.0) == Vec3(1.0, 1.000008, 0.0);
    assert GetHitPoint(GetPoint(r, 1.0), false, back) == Vec3(1.0, 1.000008, 0.0);
    assert UnitNormal(2) == UnitX;
    var h := HitPoint(1.0, Vec3(1.0, 1.000008, 0.0), UnitX, false, Some(2), None);
    assert [] + [h] == [h];
  }

  /** Directions whose components are either zero or clear of the parallel
      threshold; for them a skipped face really is parallel. */
  predicate ClearDirection(d: Vec3) {
    (d.x == 0.0 || Abs(d.x) >= ParallelLimit)
    && (d.y == 0.0 || Abs(d.y) >= ParallelLimit)
    && (d.z == 0.0 || Abs(d.z) >= ParallelLimit)
  }

  /** A time no earlier than an entering face's and no later than an exiting
      face's is on the inside of that face's plane; so is any time for a face
      the ray runs exactly parallel to from inside. */
  lemma InsideFace(r: Ray, t: real, face: nat)
    requires face < 6
    requires Parallel(Denominator(r, face)) ==> Denominator(r, face) == 0.0 && Numerator(r, face) >= 0.0
    requires Entering(r, face) ==> FaceTime(r, face) <= t
    requires Exiting(r, face) ==> t <= FaceTime(r, face)
    ensures Along(face, GetPoint(r, t)) <= 1.0
  {
    var num, den := Numerator(r, face), Denominator(r, face);
    if den < 0.0 && !Parallel(den) {
      DivBoundNegative(num, den, t);
    } else if den > 0.0 && !Parallel(den) {
      DivBoundPositive(num, den, t);
    } else {
      assert den == 0.0;
    }
    BelowFacePlane(r, face, t);
  }

  /** Between the entering and exiting times every face's plane is on the
      inside. */
  lemma InsideAllFaces(r: Ray, t: real, face: nat)
    requires face < 6
    requires ClearDirection(r.direction)
    requires !OutsideParallelSlab(r)
    requires !NoSpan(ScanIn(r, 6), ScanOut(r, 6))
    requires ScanIn(r, 6).t <= t <= ScanOut(r, 6).t
    ensures Along(face, GetPoint(r, t)) <= 1.0
  {
    var den := Denominator(r, face);
    if Parallel(den) {
      assert Abs(den) == Abs(r.direction.x) || Abs(den) == Abs(r.direction.y) || Abs(den) == Abs(r.direction.z);
    }
    InsideFace(r, t, face);
  }

  /** A point inside all six face planes is in the cube. */
  lemma InsideFacesInCube(p: Vec3)
    requires Along(0, p) <= 1.0 && Along(1, p) <= 1.0
    requires Along(2, p) <= 1.0 && Along(3, p) <= 1.0
    requires Along(4, p) <= 1.0 && Along(5, p) <= 1.0
    ensures InCube(p)
  {
  }

  /** Every hit of the unchecked test lies on the plane of the face its
      normal names. */
  lemma HitOnItsFace(self: ObjectId, r: Ray, back: Vec3 -> Vec3, h: HitPoint)
    requires HitLocal(self, r, false, back).Some?
    requires h in HitLocal(self, r, false, back).value.hits
    ensures Dot(h.normal, h.point) == 1.0
  {
    var face := if h.isEntering then ScanIn(r, 6).face else ScanOut(r, 6).face;
    assert h.normal == UnitNormal(face) && h.hitTime == FaceTime(r, face);
    FaceTimeOnFace(r, face);
  }

  /** With the check added, every hit lies on the cube: inside [-1, 1]^3 and
      on the face its normal names. */
  lemma CheckedHitsOnSurface(self: ObjectId, r: Ray, back: Vec3 -> Vec3, h: HitPoint)
    requires ClearDirection(r.direction)
    requires HitLocalChecked(self, r, false, back).Some?
    requires h in HitLocalChecked(self, r, false, back).value.hits
    ensures InCube(h.point)
    ensures Dot(h.normal, h.point) == 1.0
  {
    var tIn, tOut := ScanIn(r, 6), ScanOut(r, 6);
    var t := h.hitTime;
    assert tIn.t <= t <= tOut.t;
    var p := GetPoint(r, t);
    assert h.point == p;
    InsideAllFaces(r, t, 0);
    InsideAllFaces(r, t, 1);
    InsideAllFaces(r, t, 2);
    InsideAllFaces(r, t, 3);
    InsideAllFaces(r, t, 4);
    InsideAllFaces(r, t, 5);
    InsideFacesInCube(p);
    HitOnItsFace(self, r, back, h);
  }
}
