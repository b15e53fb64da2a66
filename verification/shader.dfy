/** `RayTracingEngine.Shaders.Shader`: the recursive shading of a ray. The
    scene's best-hit search, the shadow query, the material lookup with its
    texture colours and the Cook-Torrance specular term (whose Beckmann
    distribution is transcendental) are collaborators handed in as an
    environment; this module models the control flow around them: the miss
    path, the per-light loop, the depth bound, the reflection and refraction
    gates, the blend, the refractive medium stack and the total internal
    reflection test. */
module Shader {
  import opened Wrappers
  import opened RealMath
  import opened Vectors
  import opened Rays
  import opened Lists
  import opened Utils
  import opened AObject
  import opened Materials

  const MaxDepth: nat := 6
  const Epsilon: real := 0.001
  const ReflectionContribution: real := 0.1
  const ShadingContribution: real := 0.9 - ReflectionContribution
  const AmbientColor: seq<real> := [0.1, 0.1, 0.1, 1.0]

  /** A material is reflected only above this coefficient, and refracted
      only above the next. */
  const ReflectionGate: real := 0.4
  const TransparencyGate: real := 0.5

  /** The colour used for a reflection or refraction that is not traced. */
  const Untraced: seq<real> := [0.0, 0.0, 0.0, 1.0]

  /** The colour of a totally internally reflected refraction: three
      channels only, as in the source. */
  const TotalReflectionColor: seq<real> := [0.0, 0.0, 0.0]

  /** A ray together with the objects it is inside of, innermost last. */
  datatype TracedRay = TracedRay(ray: Ray, inside: seq<ObjectId>)

  /** What the shader asks of the scene and the materials. */
  datatype Env = Env(
    sqrt: real -> real,
    lights: seq<Light>,
    bestHit: Ray -> Option<HitPoint>,
    inShadow: Ray -> bool,
    material: ObjectId -> Material,
    diffuseColor: (ObjectId, HitPoint) -> seq<real>,
    ambientColor: (ObjectId, HitPoint) -> seq<real>,
    specular: (Ray, HitPoint, Light, nat) -> real)

  /** What the source relies on without checking: the best hit names its
      object, the colour getters return four channels, and a material that
      lets light through has a positive refraction index (the index is a
      divisor). */
  ghost predicate WellFormed(env: Env) {
    (forall r :: env.bestHit(r).Some? ==> env.bestHit(r).value.obj.Some?)
    && (forall o, h :: |env.ambientColor(o, h)| == 4)
    && (forall o, h :: |env.diffuseColor(o, h)| == 4)
    && (forall o :: env.material(o).transparencyCoefficient > TransparencyGate ==> env.material(o).refractionIndex > 0.0)
  }

  /** Every object of a medium stack has a positive refraction index. */
  ghost predicate StackOk(env: Env, s: seq<ObjectId>) {
    forall o :: o in s ==> env.material(o).refractionIndex > 0.0
  }

  /** The feeler ray towards a light, started just before the hit point so
      that it does not meet the surface it leaves. It is created with a zero
      direction and given its direction afterwards, so the constructor's
      handling of the direction plays no part. */
  function FeelerRay(r: Ray, h: HitPoint, light: Light): (f: Ray)
    ensures Add(f.start, Scale(Epsilon, r.direction)) == h.point
    ensures Add(h.point, f.direction) == light.obj.globalPosition
  {
    Ray(Sub(h.point, Scale(Epsilon, r.direction)), Sub(light.obj.globalPosition, h.point))
  }

  /** The diffuse term of channel `i` for one light. */
  function DiffuseTerm(env: Env, h: HitPoint, o: ObjectId, light: Light, i: nat): real
    requires i < 3 && |env.diffuseColor(o, h)| == 4
  {
    At(light.color, i) * env.material(o).surfaceRoughness * env.diffuseColor(o, h)[i]
  }

  /** Channel `i` after one lit light: the clamped specular term and the
      diffuse term are added. */
  function LitChannel(env: Env, r: Ray, h: HitPoint, o: ObjectId, value: real, light: Light, i: nat): (v: real)
    requires i < 3 && |env.diffuseColor(o, h)| == 4
    ensures value + DiffuseTerm(env, h, o, light, i) <= v <= value + DiffuseTerm(env, h, o, light, i) + 1.0
  {
    value + Clamp(env.specular(r, h, light, i), 0.0, 1.0) + DiffuseTerm(env, h, o, light, i)
  }

  /** One pass of the light loop: a light in shadow adds nothing; otherwise
      each colour channel gains the clamped specular term, at most 1, plus
      the diffuse term. The alpha channel is never touched. */
  function AddLight(env: Env, r: Ray, h: HitPoint, o: ObjectId, acc: seq<real>, light: Light): (c: seq<real>)
    requires |acc| == 4 && |env.diffuseColor(o, h)| == 4
    ensures |c| == 4 && c[3] == acc[3]
    ensures env.inShadow(FeelerRay(r, h, light)) ==> c == acc
    ensures !env.inShadow(FeelerRay(r, h, light)) ==>
              forall i :: 0 <= i < 3 ==>
                acc[i] + DiffuseTerm(env, h, o, light, i) <= c[i] <= acc[i] + DiffuseTerm(env, h, o, light, i) + 1.0
  {
    if env.inShadow(FeelerRay(r, h, light)) then acc
    else
      seq(4, i requires 0 <= i < 4 =>
        if i == 3 then acc[3] else LitChannel(env, r, h, o, acc[i], light, i))
  }

  /** The light loop over the lights in order, starting from `acc`. */
  function AddLights(env: Env, r: Ray, h: HitPoint, o: ObjectId, acc: seq<real>, lights: seq<Light>): (c: seq<real>)
    requires |acc| == 4 && |env.diffuseColor(o, h)| == 4
    ensures |c| == 4 && c[3] == acc[3]
    decreases |lights|
  {
    if |lights| == 0 then acc
    else AddLights(env, r, h, o, AddLight(env, r, h, o, acc, lights[0]), lights[1..])
  }

  /** When every light is in shadow, the loop leaves the colour as it
      found it. */
  lemma {:induction false} ShadowedLightsAddNothing(env: Env, r: Ray, h: HitPoint, o: ObjectId,
                                                    acc: seq<real>, lights: seq<Light>)
    requires |acc| == 4 && |env.diffuseColor(o, h)| == 4
    requires forall i :: 0 <= i < |lights| ==> env.inShadow(FeelerRay(r, h, lights[i]))
    ensures AddLights(env, r, h, o, acc, lights) == acc
    decreases |lights|
  {
    if |lights| > 0 {
      assert env.inShadow(FeelerRay(r, h, lights[0]));
      ShadowedLightsAddNothing(env, r, h, o, acc, lights[1..]);
    }
  }

  /** The colour of the hit before reflection and refraction: the
      material's ambient colour with every light added. */
  function LocalColor(env: Env, r: Ray, h: HitPoint, o: ObjectId): (c: seq<real>)
    requires WellFormed(env)
    ensures |c| == 4 && c[3] == env.ambientColor(o, h)[3]
  {
    AddLights(env, r, h, o, env.ambientColor(o, h), env.lights)
  }

  /** The blend of the local colour with the reflected and refracted ones;
      the alpha channel is the local one. */
  function Blend(m: Material, local: seq<real>, reflected: seq<real>, refracted: seq<real>): (c: seq<real>)
    requires |local| == 4 && |reflected| >= 3 && |refracted| >= 3
    ensures |c| == 4 && c[3] == local[3]
    ensures forall i :: 0 <= i < 3 ==>
              c[i] == ShadingContribution * local[i]
                      + m.reflectionCoefficient * reflected[i] * ReflectionContribution
                      + m.transparencyCoefficient * refracted[i]
  {
    seq(4, i requires 0 <= i < 4 =>
      if i == 3 then local[3]
      else ShadingContribution * local[i]
           + m.reflectionCoefficient * reflected[i] * ReflectionContribution
           + m.transparencyCoefficient * refracted[i])
  }

  /** An untraced reflection adds nothing to the blend: each clamped
      channel is made of the local and refracted colours alone, whatever the
      reflection coefficient. */
  lemma BlendWithoutReflection(m: Material, local: seq<real>, refracted: seq<real>)
    requires |local| == 4 && |refracted| >= 3
    ensures forall i :: 0 <= i < 3 ==>
              ClampRgba(Blend(m, local, Untraced, refracted))[i]
              == Clamp(ShadingContribution * local[i] + m.transparencyCoefficient * refracted[i], 0.0, 1.0)
  {
    var blend := Blend(m, local, Untraced, refracted);
    forall i | 0 <= i < 3
      ensures blend[i] == ShadingContribution * local[i] + m.transparencyCoefficient * refracted[i]
    {
      assert Untraced[i] == 0.0;
    }
  }

  /** An untraced refraction adds nothing to the blend: each clamped
      channel is made of the local and reflected colours alone, whatever the
      transparency. */
  lemma BlendWithoutRefraction(m: Material, local: seq<real>, reflected: seq<real>)
    requires |local| == 4 && |reflected| >= 3
    ensures forall i :: 0 <= i < 3 ==>
              ClampRgba(Blend(m, local, reflected, Untraced))[i]
              == Clamp(ShadingContribution * local[i] + m.reflectionCoefficient * reflected[i] * ReflectionContribution, 0.0, 1.0)
  {
    var blend := Blend(m, local, reflected, Untraced);
    forall i | 0 <= i < 3
      ensures blend[i] == ShadingContribution * local[i] + m.reflectionCoefficient * reflected[i] * ReflectionContribution
    {
      assert Untraced[i] == 0.0;
    }
  }

  /** `d - 2 (d . n) n`, the mirror image of `d` in the plane with normal
      `n`. */
  function ReflectDirection(d: Vec3, n: Vec3): Vec3 {
    Sub(d, Scale(2.0 * Dot(d, n), n))
  }

  /** For a unit normal the reflection reverses the normal component and
      keeps the length. */
  lemma ReflectionMirrors(d: Vec3, n: Vec3)
    requires LengthSquared(n) == 1.0
    ensures Dot(ReflectDirection(d, n), n) == -Dot(d, n)
    ensures LengthSquared(ReflectDirection(d, n)) == LengthSquared(d)
  {
    var k := 2.0 * Dot(d, n);
    var r := ReflectDirection(d, n);
    DotSelf(n);
    assert Dot(r, n) == Dot(d, n) - k * Dot(n, n);
    DotSelf(r);
    DotSelf(d);
    assert Dot(r, r) == Dot(d, d) - 2.0 * k * Dot(d, n) + Sq(k) * Dot(n, n);
  }

  /** The ray a reflection is traced along: from just before the hit point
      in the mirrored direction, normalised. It is a new ray, outside of
      every object. */
  function ReflectionRay(env: Env, r: Ray, h: HitPoint): (t: TracedRay)
    ensures t.inside == []
    ensures t.ray.start == Sub(h.point, Scale(Epsilon, r.direction))
    ensures t.ray.direction == Normalize(env.sqrt, ReflectDirection(r.direction, h.normal))
  {
    TracedRay(NewRayIntended(Sub(h.point, Scale(Epsilon, r.direction)),
                             Normalize(env.sqrt, ReflectDirection(r.direction, h.normal))), [])
  }

  /** The refraction index of the innermost medium of a stack, or 1 (air)
      for an empty stack. */
  function InnermostIndex(env: Env, s: seq<ObjectId>): (c: real)
    ensures |s| == 0 ==> c == 1.0
    ensures |s| > 0 ==> c == env.material(s[|s| - 1]).refractionIndex
  {
    if |s| > 0 then env.material(s[|s| - 1]).refractionIndex else 1.0
  }

  /** The two refraction indexes and the refracted ray's medium stack. */
  datatype Indexes = Indexes(c1: real, c2: real, stack: seq<ObjectId>)

  /** `GetRefractiveIndexesFromRay`: the refracted ray's stack, which starts as
      the incoming ray's, gains the object on entering and loses its first
      occurrence on exiting; `c1` is read from the incoming ray's stack and
      `c2` from the refracted one's. */
  function RefractiveIndexes(env: Env, entering: bool, o: ObjectId, rayInside: seq<ObjectId>): (idx: Indexes)
    ensures entering ==> idx.stack == rayInside + [o]
    ensures !entering ==> multiset(idx.stack) == multiset(rayInside) - multiset{o}
    ensures idx.c1 == InnermostIndex(env, rayInside)
    ensures idx.c2 == InnermostIndex(env, idx.stack)
  {
    RemoveFirstMultiset(rayInside, o);
    var stack := if entering then rayInside + [o] else RemoveFirst(rayInside, o);
    Indexes(InnermostIndex(env, rayInside), InnermostIndex(env, stack), stack)
  }

  /** On an entering hit the shader has already put the object on the ray's
      stack before the indexes are read, so both indexes are the object's
      own and the ray is not bent. */
  lemma EnteringDoesNotBend(env: Env, s: seq<ObjectId>, o: ObjectId)
    ensures RefractiveIndexes(env, true, o, s + [o]).c1 == env.material(o).refractionIndex
    ensures RefractiveIndexes(env, true, o, s + [o]).c2 == env.material(o).refractionIndex
  {
  }

  /** A ray entering an object and later leaving it: the object goes onto
      the stack twice (once on the ray, once on the refracted ray) and comes
      off once, so it is still on the stack after the exit. */
  lemma ExitLeavesObject(env: Env, s: seq<ObjectId>, o: ObjectId)
    requires o !in s
    ensures var entered := RefractiveIndexes(env, true, o, s + [o]).stack;
            RefractiveIndexes(env, false, o, entered).stack == s + [o]
  {
    var entered := s + [o] + [o];
    assert RefractiveIndexes(env, true, o, s + [o]).stack == entered;
    assert entered == (s + [o]) + [o];
    RemoveAppended(s, o);
    RemoveFirstLastCopy(s, o);
  }

  /** Removing the first occurrence from `s + [o, o]`, with `o` absent from
      `s`, leaves `s + [o]`. */
  lemma {:induction false} RemoveFirstLastCopy(s: seq<ObjectId>, o: ObjectId)
    requires o !in s
    ensures RemoveFirst(s + [o] + [o], o) == s + [o]
  {
    if |s| == 0 {
      assert s + [o] + [o] == [o, o];
    } else {
      assert (s + [o] + [o])[1..] == s[1..] + [o] + [o];
      RemoveFirstLastCopy(s[1..], o);
    }
  }

  /** The bookkeeping the refraction formula calls for: `c1` is the medium
      the ray travels in before the hit, and the object goes onto the stack
      once. */
  function RefractiveIndexesIntended(env: Env, entering: bool, o: ObjectId, before: seq<ObjectId>): (idx: Indexes)
    ensures idx.c1 == InnermostIndex(env, before)
    ensures idx.c2 == InnermostIndex(env, idx.stack)
  {
    var stack := if entering then before + [o] else RemoveFirst(before, o);
    Indexes(InnermostIndex(env, before), InnermostIndex(env, stack), stack)
  }

  /** With that bookkeeping a ray from the air entering a transparent object
      goes from index 1 to the object's, and leaving it again restores the
      stack. */
  lemma IntendedEnteringBends(env: Env, s: seq<ObjectId>, o: ObjectId)
    requires o !in s
    ensures RefractiveIndexesIntended(env, true, o, []).c1 == 1.0
    ensures RefractiveIndexesIntended(env, true, o, []).c2 == env.material(o).refractionIndex
    ensures var entered := RefractiveIndexesIntended(env, true, o, s).stack;
            RefractiveIndexesIntended(env, false, o, entered).stack == s
  {
    RemoveAppended(s, o);
  }

  /** The total-internal-reflection test on `sin^2` of the transmitted
      angle, with `n = c1 / c2`. */
  predicate TotalInternalReflection(c1: real, c2: real, cosI: real) {
    c2 != 0.0 && Sq(c1 / c2) * (1.0 - Sq(cosI)) > 1.0
  }

  /** Light passing into an optically denser medium (`c1 <= c2`) is never
      totally reflected. */
  lemma DenserMediumTransmits(c1: real, c2: real, cosI: real)
    requires 0.0 <= c1 <= c2 && c2 > 0.0
    requires -1.0 <= cosI <= 1.0
    ensures !TotalInternalReflection(c1, c2, cosI)
  {
    var n := c1 / c2;
    DivCancel(c1, c2);
    assert 0.0 <= n <= 1.0;
    SqMonotonic(n, 1.0);
    assert Sq(n) <= 1.0;
    SqMonotonic(Abs(cosI), 1.0);
    assert Sq(Abs(cosI)) == Sq(cosI);
    SqNonNegative(cosI);
    var t := 1.0 - Sq(cosI);
    assert 0.0 <= t <= 1.0;
    SqNonNegative(n);
    ProductAtMostOne(Sq(n), t);
  }

  /** Depth left before the bound stops the recursion. */
  function Remaining(depth: nat): nat {
    if depth <= MaxDepth then MaxDepth + 1 - depth else 0
  }

  /** The ray as the shader goes on with it: an entering hit puts the object
      on the ray's stack. */
  function Entered(r: TracedRay, h: HitPoint, o: ObjectId): (r': TracedRay)
    ensures r'.ray == r.ray
    ensures h.isEntering ==> r'.inside == r.inside + [o]
    ensures !h.isEntering ==> r'.inside == r.inside
  {
    if h.isEntering then r.(inside := r.inside + [o]) else r
  }

  /** `Shade(ray, depth)`. A miss gives the ambient colour; a hit gives the
      local colour, and below the depth bound the gated reflection and
      refraction blended in, clamped to [0, 1]. An entering hit first puts
      the object on the ray's stack. */
  function Shade(env: Env, r: TracedRay, depth: nat): (c: seq<real>)
    requires WellFormed(env)
    requires StackOk(env, r.inside)
    ensures IsUnitColor(c)
    ensures env.bestHit(r.ray).None? ==> c == AmbientColor
    ensures env.bestHit(r.ray).Some? && depth > MaxDepth ==>
              c == ClampRgba(LocalColor(env, r.ray, env.bestHit(r.ray).value, env.bestHit(r.ray).value.obj.value))
    decreases Remaining(depth), 2
  {
    match env.bestHit(r.ray)
    case None => AmbientColor
    case Some(h) =>
      var o := h.obj.value;
      var local := LocalColor(env, r.ray, h, o);
      if depth > MaxDepth then ClampRgba(local)
      else
        ClampRgba(Blend(env.material(o), local, Reflected(env, h, o, r, depth), Refracted(env, h, o, r, depth)))
  }

  /** The reflected colour blended in below the depth bound: traced, from
      the ray as it goes on past the hit, only when the reflection gate is
      open. */
  function Reflected(env: Env, h: HitPoint, o: ObjectId, r: TracedRay, depth: nat): (c: seq<real>)
    requires WellFormed(env)
    requires depth <= MaxDepth
    ensures env.material(o).reflectionCoefficient <= ReflectionGate ==> c == Untraced
    ensures IsUnitColor(c)
    decreases Remaining(depth), 1
  {
    if env.material(o).reflectionCoefficient > ReflectionGate then CalculateReflections(env, h, Entered(r, h, o), depth)
    else Untraced
  }

  /** The refracted colour blended in below the depth bound: traced, from
      the ray as it goes on past the hit, only when the refraction gate is
      open. */
  function Refracted(env: Env, h: HitPoint, o: ObjectId, r: TracedRay, depth: nat): (c: seq<real>)
    requires WellFormed(env)
    requires depth <= MaxDepth
    requires StackOk(env, r.inside)
    ensures env.material(o).transparencyCoefficient <= TransparencyGate ==> c == Untraced
    ensures |c| >= 3
    decreases Remaining(depth), 1
  {
    if env.material(o).transparencyCoefficient > TransparencyGate then CalculateRefraction(env, h, o, Entered(r, h, o), depth)
    else Untraced
  }

  /** `CalculateReflections`: shades the mirrored ray one level deeper. */
  function CalculateReflections(env: Env, h: HitPoint, r: TracedRay, depth: nat): (c: seq<real>)
    requires WellFormed(env)
    requires depth <= MaxDepth
    ensures IsUnitColor(c)
    decreases Remaining(depth), 0
  {
    Shade(env, ReflectionRay(env, r.ray, h), depth + 1)
  }

  /** `CalculateRefraction`: works out the indexes and the new stack, and
      either reports total internal reflection with a black three-channel
      colour or shades the transmitted ray one level deeper. */
  function CalculateRefraction(env: Env, h: HitPoint, o: ObjectId, r: TracedRay, depth: nat): (c: seq<real>)
    requires WellFormed(env)
    requires depth <= MaxDepth
    requires StackOk(env, r.inside)
    requires env.material(o).transparencyCoefficient > TransparencyGate
    ensures var idx := RefractiveIndexes(env, h.isEntering, o, r.inside);
            TotalInternalReflection(idx.c1, idx.c2, -Dot(r.ray.direction, h.normal)) ==> c == TotalReflectionColor
    ensures c == TotalReflectionColor || IsUnitColor(c)
    decreases Remaining(depth), 0
  {
    var idx := RefractiveIndexes(env, h.isEntering, o, r.inside);
    StackAfterRefraction(env, h.isEntering, o, r.inside);
    var cosI := -Dot(r.ray.direction, h.normal);
    if TotalInternalReflection(idx.c1, idx.c2, cosI) then TotalReflectionColor
    else Shade(env, RefractedRay(env, h, r.ray, idx.c1 / idx.c2, cosI, idx.stack), depth + 1)
  }

  /** The transmitted ray: from just behind the surface, along
      `n d + (n cos_i - cos_t) normal`, normalised, carrying the new stack. */
  function RefractedRay(env: Env, h: HitPoint, r: Ray, n: real, cosI: real, stack: seq<ObjectId>): (t: TracedRay)
    ensures t.inside == stack
    ensures t.ray.start == Sub(h.point, Scale(Epsilon, h.normal))
  {
    var sinT2 := Sq(n) * (1.0 - Sq(cosI));
    var cosT := env.sqrt(1.0 - sinT2);
    var direction := Add(Scale(n, r.direction), Scale(n * cosI - cosT, h.normal));
    TracedRay(Ray(Sub(h.point, Scale(Epsilon, h.normal)), Normalize(env.sqrt, direction)), stack)
  }

  /** The refracted ray's stack keeps every medium's index positive, and its
      innermost index is positive. */
  lemma StackAfterRefraction(env: Env, entering: bool, o: ObjectId, s: seq<ObjectId>)
    requires StackOk(env, s)
    requires env.material(o).refractionIndex > 0.0
    ensures StackOk(env, RefractiveIndexes(env, entering, o, s).stack)
    ensures RefractiveIndexes(env, entering, o, s).c2 > 0.0
  {
    var stack := RefractiveIndexes(env, entering, o, s).stack;
    forall x | x in stack
      ensures env.material(x).refractionIndex > 0.0
    {
      if x != o {
        assert multiset(stack)[x] > 0;
        assert multiset(s)[x] > 0;
      }
    }
    if |stack| > 0 {
      assert stack[|stack| - 1] in stack;
    }
  }

  /** With both gates closed nothing is traced: the result is the clamped
      local colour scaled by the shading contribution. */
  lemma ClosedGatesUseLocalColor(env: Env, r: TracedRay, depth: nat)
    requires WellFormed(env)
    requires StackOk(env, r.inside)
    requires depth <= MaxDepth
    requires env.bestHit(r.ray).Some?
    requires var m := env.material(env.bestHit(r.ray).value.obj.value);
             m.reflectionCoefficient <= ReflectionGate && m.transparencyCoefficient <= TransparencyGate
    ensures var h := env.bestHit(r.ray).value;
            var local := LocalColor(env, r.ray, h, h.obj.value);
            forall i :: 0 <= i < 3 ==>
              Shade(env, r, depth)[i] == Clamp(ShadingContribution * local[i], 0.0, 1.0)
  {
  }

  /** With the reflection gate closed, whatever the refraction gate does, no
      reflection is traced: the untraced colour takes its place in the blend,
      which `BlendWithoutReflection` shows adds nothing. */
  lemma ReflectionGateClosed(env: Env, r: TracedRay, depth: nat)
    requires WellFormed(env)
    requires StackOk(env, r.inside)
    requires depth <= MaxDepth
    requires env.bestHit(r.ray).Some?
    requires env.material(env.bestHit(r.ray).value.obj.value).reflectionCoefficient <= ReflectionGate
    ensures var h := env.bestHit(r.ray).value;
            var o := h.obj.value;
            var local := LocalColor(env, r.ray, h, o);
            Shade(env, r, depth) == ClampRgba(Blend(env.material(o), local, Untraced, Refracted(env, h, o, r, depth)))
  {
    var h := env.bestHit(r.ray).value;
    var o := h.obj.value;
    var m, local := env.material(o), LocalColor(env, r.ray, h, o);
    var reflected, refracted := Reflected(env, h, o, r, depth), Refracted(env, h, o, r, depth);
    assert reflected == Untraced;
    assert Shade(env, r, depth) == ClampRgba(Blend(m, local, Untraced, refracted));
  }

  /** With the refraction gate closed, whatever the reflection gate does, no
      refraction is traced: the untraced colour takes its place in the blend,
      which `BlendWithoutRefraction` shows adds nothing. */
  lemma RefractionGateClosed(env: Env, r: TracedRay, depth: nat)
    requires WellFormed(env)
    requires StackOk(env, r.inside)
    requires depth <= MaxDepth
    requires env.bestHit(r.ray).Some?
    requires env.material(env.bestHit(r.ray).value.obj.value).transparencyCoefficient <= TransparencyGate
    ensures var h := env.bestHit(r.ray).value;
            var o := h.obj.value;
            var local := LocalColor(env, r.ray, h, o);
            Shade(env, r, depth) == ClampRgba(Blend(env.material(o), local, Reflected(env, h, o, r, depth), Untraced))
  {
    var h := env.bestHit(r.ray).value;
    var o := h.obj.value;
    var m, local := env.material(o), LocalColor(env, r.ray, h, o);
    var reflected, refracted := Reflected(env, h, o, r, depth), Refracted(env, h, o, r, depth);
    assert refracted == Untraced;
    assert Shade(env, r, depth) == ClampRgba(Blend(m, local, reflected, Untraced));
  }
}
