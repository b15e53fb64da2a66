# Ray tracer core, modelled in Dafny

This project models the geometric and bookkeeping core of a small C# ray
tracing engine (`RayTracingEngine`). The model covers:

- the local-space intersection tests of the four primitives (cube, sphere,
  plane, cylinder);
- the transform bookkeeping that every primitive shares;
- the scene's shadow query and its object list;
- the recursive shader: depth bound, reflection and refraction gates,
  blend, medium stack and total internal reflection;
- the algebraic parts of the Cook-Torrance model, and the standard
  material's index-of-refraction derivation;
- RGBA clamping and linear interpolation;
- lattice noise;
- the translation, scale and rotation matrices;
- the two deterministic textures;
- the camera's pixel-to-ray mapping.

All arithmetic is over Dafny's `real`: exact, with no rounding, NaN or
infinity. Square root, cosine, sine, matrix inversion, `CreateRotation` and
`Ray.Transform` are not defined here. Each is a function-typed parameter.
Where a contract depends on its value, the parameter is constrained by a
ghost predicate:

- `IsSqrt`: the root is non-negative, squares back to its argument, and is
  monotonic;
- `IsTrig`: `cos^2 + sin^2 = 1`;
- `SoundInverse`: an inverse that is reported really is one;
- `IdentityKeepsRays`: the identity matrix moves no ray.

The scene's best-hit search, the shadow query as the shader sees it, the
material lookup with its texture colours, and the specular term are handed
to the shader in an environment value (`Shader.Env`).

Modules follow the source's classes, one file each:

| file | module | source |
|---|---|---|
| `rays.dfy` | `Rays` | `Ray`, `HitPoint`, `HitInfo` |
| `cube.dfy` | `Cube` | `Cube` |
| `sphere.dfy` | `Sphere` | `Sphere` |
| `plane.dfy` | `Plane` | `Plane` |
| `cylinder.dfy` | `Cylinder` | `Cylinder` |
| `aobject.dfy` | `AObject` | `AObject`, `Light` |
| `scene.dfy` | `Scenes` | `Scene` |
| `shader.dfy` | `Shader` | `Shaders/Shader` |
| `cooktorrance.dfy` | `CookTorrance` | `CookTorrance` |
| `material.dfy` | `Materials` | `StandardMaterial`, `GoldMaterial`, `GlassMaterial` |
| `textures.dfy` | `Textures` | `CheckerboardTexture`, `SurfaceNormalTexture` |
| `utils.dfy` | `Utils` | `Utils` |
| `noise.dfy` | `Noise` | `Noise` |
| `matrix.dfy` | `MatrixTransformation` | `MatrixTransformation` |
| `camera.dfy` | `Camera` | `Camera` |

`vectors.dfy`, `realmath.dfy`, `lists.dfy` and `wrappers.dfy` hold the vector
algebra, the real-number lemmas, the `List<T>.Remove` model and `Option`.

## Model

| member | source | states |
|---|---|---|
| Rays.NewRay | RayTracingEngine/Rendering/Ray.cs:5-8 | The constructor as written keeps the start, but the direction property has no initialiser, so a new ray's direction is zero whatever was passed. |
| Rays.NewRayIntended | RayTracingEngine/Rendering/Ray.cs:5-8 | The constructor as its parameter list promises: start and direction are both the arguments. |
| Rays.NewRayDropsDirection | RayTracingEngine/Rendering/Ray.cs:5-8 | The as-written and intended constructors agree exactly when the direction passed is zero. |
| Rays.GetPointLinear | RayTracingEngine/Rendering/Ray.cs:10-13 | `GetPoint(0)` is the start, and the difference between two points on the ray is `(s - t)` times the direction. |
| Rays.GetHitPoint | RayTracingEngine/Primitives/Cube.cs:105-108 | The cube's and sphere's `GetHitPoint` returns the point unchanged when `transformBack` is false, and the back-transformed point otherwise. |
| Cube.ScanIn | RayTracingEngine/Primitives/Cube.cs:56-68 | `tIn`/`inSurface` after the first n faces: unset exactly when no face is entered; otherwise the latest entering time, with the first such face winning ties. |
| Cube.ScanOut | RayTracingEngine/Primitives/Cube.cs:56-68 | `tOut`/`outSurface`: unset exactly when no face is exited; otherwise the earliest exiting time, with the first such face winning ties. |
| Cube.UnitNormalFaces | RayTracingEngine/Primitives/Cube.cs:110-122 | The six face normals are unit vectors, faces 2k and 2k+1 are opposite, and any other index maps to the zero vector. |
| Cube.DotUnitNormal | RayTracingEngine/Primitives/Cube.cs:110-122 | The dot product of a point with face k's normal is the point's signed coordinate along that face's outward axis. |
| Cube.FaceMeasures | RayTracingEngine/Primitives/Cube.cs:22-48 | Each face's denominator is the direction's component along that face's outward normal, and its numerator measures how far the start is from the face plane. |
| Cube.FaceTimeOnFace | RayTracingEngine/Primitives/Cube.cs:56 | The time `numerator / denominator` puts the ray on the face's plane. |
| Cube.HitLocal | RayTracingEngine/Primitives/Cube.cs:14-103 | Null when the span is empty, either bound is unset, or neither time exceeds 0.00001. Otherwise: at most an entering hit at `tIn` with `inSurface`'s normal, then an exiting hit at `tOut` with `outSurface`'s normal and surface index, in ascending time. When the span is non-empty, `tIn > 0.00001` always yields an entering first hit and `tOut > 0.00001` an exiting last hit, and the number of hits is the number of such times. With `transformBack` false each point is `GetPoint(t)`. |
| Cube.ParallelAxisIgnored | RayTracingEngine/Primitives/Cube.cs:50-54 | A parallel axis never constrains the result: moving the start anywhere along it leaves both bounds unchanged. |
| Cube.MissFromOutside | Tests/Primitives/CubeIntersectionUnitTest.cs:9-19 | The ray from (2, 2, 2) along +X misses the cube. |
| Cube.HitOnItsFace | RayTracingEngine/Primitives/Cube.cs:74-95 | Every reported hit lies on the plane of the face whose normal it carries. |
| Cube.ParallelOutsideSlabHits | RayTracingEngine/Primitives/Cube.cs:50-54 | As written, a ray along +X five units above the cube gets a hit at (1, 5, 0), which is outside the cube. |
| Cube.HitLocalChecked | RayTracingEngine/Primitives/Cube.cs:50-54 | With the missing check, a ray parallel to a slab and outside it gets no hit; every other ray gets the unchecked result. |
| Cube.CheckedHitsOnSurface | RayTracingEngine/Primitives/Cube.cs:14-103 | With the check, and for a direction whose every component is either exactly zero or outside the source's near-zero band (`ClearDirection`), every hit point lies in [-1, 1]^3 and on its face's plane. |
| Cube.NearParallelCheckedHit | RayTracingEngine/Primitives/Cube.cs:50-54 | Outside that hypothesis the check is not enough: the ray from (0, 0.999999, 0) along (1, 0.000009, 0) starts inside every slab, yet its y face is skipped as parallel and it still gets the hit (1, 1.000008, 0), off the cube. |
| Sphere.QuadraticIsDistance | RayTracingEngine/Primitives/Sphere.cs:26-28 | The quadratic `a t^2 + b t + c` is the squared distance of `GetPoint(t)` from the centre, minus one. |
| Sphere.MovingRay | RayTracingEngine/Primitives/Sphere.cs:17-26 | A ray with non-zero direction has a positive leading coefficient. |
| Sphere.Coefficients | RayTracingEngine/Primitives/Sphere.cs:26-30 | `a = D.D`, `b = 2 D.S`, `c = S.S - 1`, and the discriminant is `b^2 - 4ac`. |
| Sphere.RootsOnSphere | RayTracingEngine/Primitives/Sphere.cs:30-35 | Both roots solve the quadratic, both points lie on the unit sphere, and `t0 <= t1`. |
| Sphere.HitLocal | RayTracingEngine/Primitives/Sphere.cs:15-69 | Null for a zero direction or a negative discriminant. The entering hit at `t0` is kept iff `t0 > 0.00001` or `t0 == 0`. The exiting hit at `t1` is kept iff `t1 > 0.00001`. Null exactly when neither is kept. A kept entering time always yields an entering first hit, a kept exiting time always yields an exiting last hit, and the number of hits is the number of kept times. The entering hit stores the local point and the exiting one goes through `GetHitPoint`. When there are two hits, the entering one comes first. |
| Sphere.HitsOnSphere | RayTracingEngine/Primitives/Sphere.cs:39-61 | Every hit's local point is on the sphere. For a sphere at the origin, the normal is that point. |
| Sphere.HitsOrdered | RayTracingEngine/Primitives/Sphere.cs:34-63 | When both hits are kept, the entering time is not later than the exiting one. |
| Sphere.TangentAtStart | RayTracingEngine/Primitives/Sphere.cs:39-63 | A ray starting on the sphere along its tangent plane has the double root 0 and gets exactly one hit, at time 0. |
| Sphere.MissBeside | Tests/Primitives/SphereIntersectionUnitTest.cs:9-19 | The ray from (1, 0.75, 0.75) along +X has discriminant -0.5 and no hit. |
| Sphere.ThroughCentre | Tests/Primitives/SphereIntersectionUnitTest.cs:21-30 | The ray from (1, 1, 1) along (-1, -1, -1) gets two hits. |
| Sphere.Touching | Tests/Primitives/SphereIntersectionUnitTest.cs:32-41 | The ray from (1, 0, 0) along +Y gets exactly one hit. |
| Sphere.ThroughCentreAsWritten | RayTracingEngine/Rendering/Ray.cs:5-8 | Built with the constructor as written, the two-hit test ray has no direction and gets no hit. |
| Plane.CrossingTimeUnique | RayTracingEngine/Primitives/Plane.cs:15 | `-start.y / direction.y` is the one time at which the ray is on `y = 0`. |
| Plane.SimpleHitLocal | RayTracingEngine/Primitives/Plane.cs:13-22 | The result is `[t]` exactly when the crossing time is at least 0.0001 and the crossing point is within half the scale in x and z; otherwise it is empty. |
| Plane.SimpleHitIsCrossing | RayTracingEngine/Primitives/Plane.cs:13-22 | A reported time is exactly a time past the threshold at which the ray is on the plane, inside the rectangle. |
| Plane.HasShadowHit | RayTracingEngine/Primitives/Plane.cs:24-29 | True iff there is a hit and its time is below 1. |
| Plane.ShadowMeansCrossingBeforeOne | RayTracingEngine/Primitives/Plane.cs:24-29 | The same shadow test stated on the geometry alone: the crossing lies in [0.0001, 1) and inside the rectangle. |
| Plane.HitLocal | RayTracingEngine/Primitives/Plane.cs:31-47 | One hit per time of `SimpleHitLocal`, tagged with the plane, with normal +Y, entering, and its point taken on the world ray. |
| Cylinder.SideHit | RayTracingEngine/Primitives/Cylinder.cs:31-47 | A lateral root is kept exactly when it is positive and its height is in [0, 1]. |
| Cylinder.LateralHits | RayTracingEngine/Primitives/Cylinder.cs:19-48 | At most two lateral times, each positive and between the caps; none for a negative discriminant or a vertical ray. |
| Cylinder.LateralHitsComplete | RayTracingEngine/Primitives/Cylinder.cs:19-48 | For a ray not parallel to the axis, every root of the lateral quadratic that is positive and between the caps is among the lateral times. |
| Cylinder.CapHit | RayTracingEngine/Primitives/Cylinder.cs:53-73 | A cap crossing is kept exactly when it is positive and inside the unit disc. |
| Cylinder.CapHits | RayTracingEngine/Primitives/Cylinder.cs:50-74 | At most two cap times, each positive and inside the disc; none when the vertical speed is at most 1e-6; otherwise the kept top crossing followed by the kept bottom crossing. |
| Cylinder.CapHitsComplete | RayTracingEngine/Primitives/Cylinder.cs:50-74 | When the vertical speed exceeds 1e-6, every positive time at which the ray is on a cap's plane inside the disc is among the cap times. |
| Cylinder.SimpleHitLocal | RayTracingEngine/Primitives/Cylinder.cs:15-77 | At most four positive times: the lateral ones, then the cap ones, in that order, not sorted (which times appear, in both directions, is stated by `HitsOnSurface` and `SurfaceTimesReported`). |
| Cylinder.LateralIsDistance | RayTracingEngine/Primitives/Cylinder.cs:20-22 | The lateral quadratic is the squared distance from the axis, minus one. |
| Cylinder.LateralHitOnSide | RayTracingEngine/Primitives/Cylinder.cs:19-48 | Every lateral hit is at distance 1 from the axis. |
| Cylinder.ReachesHeight | RayTracingEngine/Primitives/Cylinder.cs:53-64 | The cap times `(h - start.y) / direction.y` reach height h. |
| Cylinder.CapHitOnCap | RayTracingEngine/Primitives/Cylinder.cs:50-74 | Every cap hit is at height 1 or 0. |
| Cylinder.HitsOnSurface | RayTracingEngine/Primitives/Cylinder.cs:15-77 | Every reported time puts the ray on the cylinder's surface. |
| Cylinder.SurfaceTimesReported | RayTracingEngine/Primitives/Cylinder.cs:15-77 | Conversely, every positive time that puts the ray on the side is reported unless the ray is parallel to the axis, and every one that puts it on a cap is reported unless the vertical speed is at most 1e-6. |
| Cylinder.LateralOrdered | RayTracingEngine/Primitives/Cylinder.cs:27-29 | When both lateral roots are kept they come in ascending order. |
| Cylinder.HitLocal | RayTracingEngine/Primitives/Cylinder.cs:79-102 | One hit per time, in the same order. The normal is the local point with y zeroed, normalised. A hit is entering iff the direction's dot with the normal is negative. The point is taken on the world ray. |
| Cylinder.EnteringMovesTowardsAxis | RayTracingEngine/Primitives/Cylinder.cs:87-91 | When the hit point is off the axis, a hit is entering exactly when the ray moves towards the axis there. |
| Cylinder.HasShadowHit | RayTracingEngine/Primitives/Cylinder.cs:104-108 | True iff there is any hit, because every time is positive. |
| AObject.NewObject | RayTracingEngine/Primitives/AObject.cs:16-30 | The constructor stores position, rotation and scale unchanged, and both matrices start as the identity. |
| AObject.BuildTransformMatrix | RayTracingEngine/Primitives/AObject.cs:32-41 | The transform becomes translation times rotation times scale. The inverse is replaced when inversion succeeds and kept when it fails. Nothing else changes. |
| AObject.BuiltInverseUndoesTransform | RayTracingEngine/Primitives/AObject.cs:38-40 | When inversion succeeds, the stored inverse and transform multiply to the identity. |
| AObject.ZeroScaleKeepsInverse | RayTracingEngine/Primitives/AObject.cs:32-41 | A zero scale makes the transform singular, so the old inverse is kept. |
| AObject.NewLight | RayTracingEngine/Primitives/Light.cs:11-16 | A light keeps its intensity, colour and position, has zero rotation and scale, and keeps the identity inverse. |
| AObject.SimpleHit | RayTracingEngine/Primitives/AObject.cs:45-48 | The primitive's local test is applied to the world ray moved by the inverse matrix (its meaning is stated by `SimpleHitOnPlacedSurface`). |
| AObject.Hit | RayTracingEngine/Primitives/AObject.cs:50-53 | As `SimpleHit`, with the original world ray also passed on. |
| AObject.MoveRayPoint | RayTracingEngine/Primitives/AObject.cs:45-53 | The point at time t on a ray moved by a matrix (start as a point, direction as a direction) is the matrix applied to the point at t on the original ray. |
| AObject.MoveRayMapsPoints | RayTracingEngine/Primitives/AObject.cs:45-53 | Moving a ray's start as a point and its direction as a direction maps the ray's point at every time t to the moved point at the same t. |
| AObject.ComposeIsAffine | RayTracingEngine/Primitives/AObject.cs:32-37 | For an affine rotation matrix, translation times rotation times scale is affine. |
| AObject.LocalTimesAreWorldTimes | RayTracingEngine/Primitives/AObject.cs:32-53 | After a successful build, the local ray's point at time t is the world ray's point at t moved by the inverse, and the transform carries it back to the world point: a local hit time is a world hit time. |
| AObject.SimpleHitOnPlacedSurface | RayTracingEngine/Primitives/AObject.cs:32-48 | If every time the local test reports puts its ray on a surface, then every time `SimpleHit` reports puts the world ray on the placed surface: the world point, moved by the inverse, is on the local surface, and the transform moves it back. |
| AObject.NewObjectTestsInWorldSpace | RayTracingEngine/Primitives/AObject.cs:16-53 | Before its transform is built, an object tests rays unmoved. |
| AObject.GetCorrectedNormal | RayTracingEngine/Primitives/AObject.cs:63-66 | Returns the normal iff its dot with the direction is negative, else its negation. The result never points along the ray. |
| AObject.CorrectionSettles | RayTracingEngine/Primitives/AObject.cs:63-66 | Correcting an already corrected normal changes nothing, unless it is perpendicular to the ray. |
| MatrixTransformation.AffineMul | RayTracingEngine/Primitives/AObject.cs:35 | A product of affine matrices (bottom row 0, 0, 0, 1) is affine. |
| MatrixTransformation.AffineRightInverse | RayTracingEngine/Primitives/AObject.cs:38-40 | A right inverse of an affine matrix is affine. |
| MatrixTransformation.ApplyPointInverse | RayTracingEngine/Primitives/AObject.cs:38-40 | When `a` is affine and `a n` is the identity, moving a point by `n` and then by `a` gives it back. |
| MatrixTransformation.CreateTranslation | RayTracingEngine/Math/MatrixTransformation.cs:14-24 | The matrix is affine and moves the origin to (x, y, z). |
| MatrixTransformation.CreateScale | RayTracingEngine/Math/MatrixTransformation.cs:33-43 | The matrix is affine. |
| MatrixTransformation.CreateRotationZ | RayTracingEngine/Math/MatrixTransformation.cs:50-63 | Affine; fixes the z axis and turns the x axis to (cos a, sin a, 0). |
| MatrixTransformation.CreateRotationY | RayTracingEngine/Math/MatrixTransformation.cs:70-83 | Affine; fixes the y axis and turns the z axis to (sin a, 0, cos a). |
| MatrixTransformation.CreateRotationX | RayTracingEngine/Math/MatrixTransformation.cs:90-103 | Affine; fixes the x axis and turns the y axis to (0, cos a, sin a). |
| MatrixTransformation.TranslationMovesPoints | RayTracingEngine/Math/MatrixTransformation.cs:14-24 | A translation moves a point (w = 1) by its offset and leaves a direction (w = 0) alone. |
| MatrixTransformation.TranslationInverse | RayTracingEngine/Math/MatrixTransformation.cs:14-24 | Translating by (x, y, z) and by (-x, -y, -z) compose to the identity in either order. |
| MatrixTransformation.ScaleApply | RayTracingEngine/Math/MatrixTransformation.cs:33-43 | A scale multiplies each coordinate by its factor and keeps w. |
| MatrixTransformation.ScaleDefaultIsIdentity | RayTracingEngine/Math/MatrixTransformation.cs:33-43 | `CreateScale()` with its default arguments is the identity. |
| MatrixTransformation.ScaleInverse | RayTracingEngine/Math/MatrixTransformation.cs:33-43 | Scaling by the reciprocal factors undoes a scale with non-zero factors. |
| MatrixTransformation.ZeroScaleIsSingular | RayTracingEngine/Math/MatrixTransformation.cs:33-43 | No matrix multiplied by anything after a zero scale gives the identity. |
| MatrixTransformation.RotationsKeepTheirAxis | RayTracingEngine/Math/MatrixTransformation.cs:50-103 | Each rotation leaves the coordinate along its own axis, and w, unchanged. |
| MatrixTransformation.RotationsAreOrthogonal | RayTracingEngine/Math/MatrixTransformation.cs:50-103 | Given `cos^2 + sin^2 = 1`, each rotation times its transpose is the identity. |
| Lists.RemoveFirst | RayTracingEngine/Scene.cs:29-32 | `List.Remove` leaves a list without the element unchanged, and otherwise shortens it by one. |
| Lists.RemoveFirstCutsFirstOccurrence | RayTracingEngine/Scene.cs:29-32 | The element removed is the first occurrence: the result is the part before it followed by the part after it. |
| Lists.RemoveFirstMultiset | RayTracingEngine/Scene.cs:29-32 | Exactly one copy of the element leaves the list, if there is one. |
| Lists.RemoveAppended | RayTracingEngine/Scene.cs:24-32 | Appending an absent element and removing it gives back the list. |
| Lists.RemoveFirstKeepsOthers | RayTracingEngine/Scene.cs:29-32 | Every other element keeps its count. |
| Scenes.IsInShadow | RayTracingEngine/Scene.cs:11-22 | True iff some object's hit test succeeds, and false for no objects. The scan runs in insertion order and stops at the first success. |
| Scenes.AddObject | RayTracingEngine/Scene.cs:24-27 | The object goes at the end, the earlier objects stay in place, and the lights are untouched. |
| Scenes.RemoveObject | RayTracingEngine/Scene.cs:29-32 | One copy of the object is removed, nothing happens when it is absent, and the lights are untouched. |
| Scenes.AddThenRemove | RayTracingEngine/Scene.cs:24-32 | Adding an object that was not present and then removing it restores the scene. |
| Scenes.AddObjectShadow | RayTracingEngine/Scene.cs:11-27 | After an add, a ray is blocked iff it was blocked before or the new object blocks it. |
| Materials.Eta | RayTracingEngine/Material/StandardMaterial.cs:23 | For a reflectance in [0, 1), `(1 + sqrt f) / (1 - sqrt f)` is at least 1, and exactly 1 iff f is 0. |
| Materials.EtaStrictlyIncreasing | RayTracingEngine/Material/StandardMaterial.cs:23 | A more reflective channel gets a strictly larger index of refraction. |
| Materials.EtaOf | RayTracingEngine/Material/StandardMaterial.cs:12-25 | Four entries: each colour channel's index is at least 1, and the fourth entry stays 0. |
| Materials.CalculateEtaFresnel | RayTracingEngine/Material/StandardMaterial.cs:19-25 | The loop over the three colour channels yields the per-channel index, with the fourth left at 0. |
| Materials.NewStandardMaterial | RayTracingEngine/Material/StandardMaterial.cs:7-17 | The default colours, reflectance and roughness, the given coefficients, and an index that matches the reflectance. |
| Materials.SetFresnel | RayTracingEngine/Material/StandardMaterial.cs:9-17 | Assigning the reflectance later leaves the index as it was. |
| Materials.SetFresnelIntended | RayTracingEngine/Material/StandardMaterial.cs:14-25 | Assigning the reflectance and recomputing keeps the index consistent, and nothing else changes. |
| Materials.NewGoldMaterial | RayTracingEngine/Material/GoldMaterial.cs:8-15 | As written, gold has its own reflectance but the index derived from the default one, so the two disagree. |
| Materials.NewGoldMaterialIntended | RayTracingEngine/Material/GoldMaterial.cs:8-15 | With the index recomputed, gold's index matches its reflectance. |
| Materials.NewGlassMaterial | RayTracingEngine/Material/GlassMaterial.cs:8-15 | As written, glass also keeps the default reflectance's index. |
| Materials.StaleEta | RayTracingEngine/Material/StandardMaterial.cs:14-25 | A reflectance whose first channel is below the default's has a different index from the default, so a stale index is visible. |
| Textures.EvenTest | RayTracingEngine/Material/Textures/CheckerboardTexture.cs:25-28 | C#'s `% 2 == 0` is true exactly when 2 divides the sum, even when the sum is negative. |
| Textures.Pattern | RayTracingEngine/Material/Textures/CheckerboardTexture.cs:23-29 | The pattern holds iff the sum of `floor((p + 0.0001) s)` over the axes is even. |
| Textures.NextCell | RayTracingEngine/Material/Textures/CheckerboardTexture.cs:25-28 | Moving by `1/s` along an axis moves to the next cell. |
| Textures.ShiftFlipsPattern | RayTracingEngine/Material/Textures/CheckerboardTexture.cs:25-28 | Moving by one cell width along any axis flips the pattern. |
| Textures.SameCellSamePattern | RayTracingEngine/Material/Textures/CheckerboardTexture.cs:25-28 | Points in the same cell along every axis get the same pattern. |
| Textures.CheckerboardDiffuse | RayTracingEngine/Material/Textures/CheckerboardTexture.cs:13-16 | The material's diffuse colour where the pattern holds, dark grey elsewhere. |
| Textures.CheckerboardAmbient | RayTracingEngine/Material/Textures/CheckerboardTexture.cs:18-21 | The material's ambient colour where the pattern holds, opaque black elsewhere. |
| Textures.CheckerboardAlternates | RayTracingEngine/Material/Textures/CheckerboardTexture.cs:13-29 | Neighbouring cells never share a diffuse colour, unless the material's own colour is the dark grey. |
| Textures.NewSurfaceNormalTexture | RayTracingEngine/Material/Textures/SurfaceNormalTexture.cs:11-18 | Dark colours, and zero refraction index, reflection and transparency, so neither shader gate opens. |
| Textures.NormalDiffuse | RayTracingEngine/Material/Textures/SurfaceNormalTexture.cs:20-28 | Each normal component is mapped from [-1, 1] to [0, 1] (the colour maps back to the normal), with alpha 1. |
| Textures.NormalAmbient | RayTracingEngine/Material/Textures/SurfaceNormalTexture.cs:30-38 | Each normal component is mapped from [-1, 1] to [0, 0.5], with alpha 1. |
| Textures.NormalColoursInRange | RayTracingEngine/Material/Textures/SurfaceNormalTexture.cs:20-38 | For a normal in [-1, 1]^3 the diffuse colour is valid, and the ambient one is exactly half of it. |
| CookTorrance.Geometry | RayTracingEngine/Shaders/CookTorrance.cs:37-43 | The result is at most 1, at most each of `gm` and `gs`, and equal to one of the three. |
| CookTorrance.GeometrySymmetric | RayTracingEngine/Shaders/CookTorrance.cs:40-42 | The light and the viewer can be swapped. |
| CookTorrance.GeometryCases | RayTracingEngine/Shaders/CookTorrance.cs:40-42 | The result is 1 when both terms reach 1, and the smaller term otherwise. |
| CookTorrance.FresnelFunction | RayTracingEngine/Shaders/CookTorrance.cs:14-23 | Wherever it is defined, the reflectance is never negative. |
| CookTorrance.NormalIncidence | RayTracingEngine/Shaders/CookTorrance.cs:14-23 | At `c = 1`, `g` is eta and the reflectance is `((eta - 1)/(eta + 1))^2`. |
| CookTorrance.FresnelInvertsEta | RayTracingEngine/Shaders/CookTorrance.cs:14-23 | At normal incidence, the index a material derives from a reflectance f0 reproduces f0. |
| Utils.ClampRgbaValues | RayTracingEngine/Math/Utils.cs:7-20 | Reads the first four values and returns four. NaN becomes 0. Anything else is clamped into [min, max], with in-range values passing through. |
| Utils.Clamp | RayTracingEngine/Math/Utils.cs:16-19 | `Math.Clamp`: the result is in [lo, hi], equal to v when v is in range, lo below and hi above. |
| Utils.ClampRgba | RayTracingEngine/Math/Utils.cs:7-20 | With the default bounds the result is a valid colour in which each channel is that channel clamped into [0, 1], so channels already in [0, 1] pass through. |
| Utils.ClampDefaultInUnitRange | RayTracingEngine/Math/Utils.cs:7-19 | With the default bounds every output is in [0, 1]. |
| Utils.ClampIdempotent | RayTracingEngine/Math/Utils.cs:16-19 | Clamping a clamped colour changes nothing. |
| Utils.ClampRgbaKeepsUnitColor | RayTracingEngine/Math/Utils.cs:16-19 | A colour already in [0, 1] is returned unchanged. |
| Utils.LerpEndpoints | RayTracingEngine/Math/Utils.cs:28-31 | `Lerp(a, b, 0) = a` and `Lerp(a, b, 1) = b`. |
| Utils.LerpBetween | RayTracingEngine/Math/Utils.cs:28-31 | For t in [0, 1] the result lies between `min(a, b)` and `max(a, b)`. |
| Noise.Ascending | RayTracingEngine/Math/Noise.cs:22-28 | After the fill loop, entry i is i. |
| Noise.CopyStep | RayTracingEngine/Math/Noise.cs:31-37 | A shuffle step copies entry i to the drawn position and leaves entry i and every other entry as they were. |
| Noise.GetNoiseTables | RayTracingEngine/Math/Noise.cs:13-44 | With the draws given: the index table is the ascending table after the copy steps, every entry stays inside the table, and the noise table holds the drawn values. |
| Noise.CopyShuffleKeepsEntries | RayTracingEngine/Math/Noise.cs:31-37 | Every entry the copying shuffle leaves was already in the table: it can duplicate entries but never invent one. |
| Noise.CopyShuffleLosesEntries | RayTracingEngine/Math/Noise.cs:31-37 | Three entries with every draw equal to 1 (a draw the source can make) end as [0, 2, 2], which is not a permutation. |
| Noise.SwapStep | RayTracingEngine/Math/Noise.cs:31-37 | A swapping step exchanges two entries and keeps the multiset. |
| Noise.SwapShuffle | RayTracingEngine/Math/Noise.cs:31-37 | The swapping shuffle keeps the length and the multiset of entries after any number of steps. |
| Noise.PermutationInRange | RayTracingEngine/Math/Noise.cs:31-44 | A permutation of `0 .. n - 1` holds only indexes in [0, n), so the lookups stay in the table. |
| Noise.GetNoiseTablesIntended | RayTracingEngine/Math/Noise.cs:13-44 | With swaps, the index table is the ascending table after the swap steps, and so ends as a permutation of `0 .. amount - 1`. |
| Noise.PermutatePoint | RayTracingEngine/Math/Noise.cs:53-56 | For a non-negative point, the entry at `point % amount`, which is in [0, amount). It fails exactly when C#'s remainder is negative. |
| Noise.Trunc | RayTracingEngine/Math/Noise.cs:72-74 | For a non-negative value, `(long) x` is the integer part: not above x and within 1 of it. |
| Noise.LatticeNoiseAt | RayTracingEngine/Math/Noise.cs:47-56 | For non-negative lattice coordinates the nested lookups stay in range and return a noise-table entry. |
| Noise.GetLatticeNoise | RayTracingEngine/Math/Noise.cs:47-51 | For non-negative coordinates the noise exists and is a noise-table entry. |
| Noise.Corners | RayTracingEngine/Math/Noise.cs:82-93 | The eight lattice values around a non-negative cell all exist, each the lattice noise at its corner. |
| Noise.GetNoise | RayTracingEngine/Math/Noise.cs:65-102 | When every shifted coordinate is non-negative, the noise exists. |
| Noise.FractionsInUnitInterval | RayTracingEngine/Math/Noise.cs:68-79 | When `p * scale + 10000 >= 0`, the fractional part lies in [0, 1). |
| Noise.Trilinear | RayTracingEngine/Math/Noise.cs:95-101 | With all weights 0 the result is the first lattice value, and with all weights 1 the last. |
| Noise.TrilinearBetween | RayTracingEngine/Math/Noise.cs:95-101 | Interpolating with weights in [0, 1] stays within any bounds of the eight values. |
| Noise.NoiseBetweenCorners | RayTracingEngine/Math/Noise.cs:65-102 | Under the same condition, the noise lies between the smallest and largest of the eight lattice values. |
| Shader.FeelerRay | RayTracingEngine/Shaders/Shader.cs:38-56 | The feeler ray starts `Epsilon` times the ray's direction before the hit point, and its direction runs from the hit point to the light's position. |
| Shader.LitChannel | RayTracingEngine/Shaders/Shader.cs:75-79 | A lit channel gains its diffuse term plus the specular term clamped into [0, 1]. |
| Shader.AddLight | RayTracingEngine/Shaders/Shader.cs:55-80 | A light in shadow adds nothing. Otherwise each colour channel gains its diffuse and clamped specular terms, and alpha is untouched. |
| Shader.AddLights | RayTracingEngine/Shaders/Shader.cs:53-81 | The light loop keeps four channels and never touches alpha. |
| Shader.ShadowedLightsAddNothing | RayTracingEngine/Shaders/Shader.cs:53-60 | When every light is in shadow, the colour is the ambient colour unchanged. |
| Shader.LocalColor | RayTracingEngine/Shaders/Shader.cs:45-81 | Four channels, with the alpha of the material's ambient colour. |
| Shader.Blend | RayTracingEngine/Shaders/Shader.cs:100-109 | Each colour channel is `0.8 local + 0.1 reflection-coefficient reflected + transparency refracted`. Alpha is the local alpha. |
| Shader.ReflectionMirrors | RayTracingEngine/Shaders/Shader.cs:118-122 | For a unit normal, the reflected direction reverses the normal component and keeps the length. |
| Shader.ReflectionRay | RayTracingEngine/Shaders/Shader.cs:118-122 | The reflected ray starts just before the hit point, points along the normalised mirror image of the incoming direction, and is inside no object. |
| Shader.InnermostIndex | RayTracingEngine/Shaders/Shader.cs:169-179 | The refraction index of the last object on a stack, or 1 for an empty stack. |
| Shader.RefractiveIndexes | RayTracingEngine/Shaders/Shader.cs:155-184 | Entering appends the object, and exiting removes one copy of it. `c1` is read from the incoming stack and `c2` from the outgoing one. |
| Shader.EnteringDoesNotBend | RayTracingEngine/Shaders/Shader.cs:127-184 | `Shade` has already pushed the entered object, so both indexes are the object's own and the ray does not bend. |
| Shader.ExitLeavesObject | RayTracingEngine/Shaders/Shader.cs:155-167 | Entering pushes the object twice and exiting removes it once, so after the exit the object is still on the stack. |
| Shader.RefractiveIndexesIntended | RayTracingEngine/Shaders/Shader.cs:155-184 | The bookkeeping the formula calls for: `c1` is the medium before the hit and `c2` the one after. |
| Shader.IntendedEnteringBends | RayTracingEngine/Shaders/Shader.cs:155-184 | With that bookkeeping, entering from air goes from index 1 to the object's, and leaving restores the stack. |
| Shader.DenserMediumTransmits | RayTracingEngine/Shaders/Shader.cs:132-136 | Total internal reflection cannot happen when `c1 <= c2` and `-1 <= cos_i <= 1`. |
| Shader.Shade | RayTracingEngine/Shaders/Shader.cs:27-114 | Every result is four channels in [0, 1]. A miss returns the ambient colour. Past the depth bound the result is the clamped local colour. |
| Shader.CalculateReflections | RayTracingEngine/Shaders/Shader.cs:116-125 | The reflection is a valid colour, traced one level deeper. |
| Shader.CalculateRefraction | RayTracingEngine/Shaders/Shader.cs:127-144 | Total internal reflection gives the three-channel black; otherwise the result is a valid colour. |
| Shader.RefractedRay | RayTracingEngine/Shaders/Shader.cs:129-141 | The refracted ray starts just behind the surface and carries the new stack. |
| Shader.StackAfterRefraction | RayTracingEngine/Shaders/Shader.cs:155-184 | Every medium on the new stack has a positive index, and so does `c2`, so the index ratio is defined. |
| Shader.Entered | RayTracingEngine/Shaders/Shader.cs:32-35 | An entering hit pushes the object onto the ray's stack; an exiting hit leaves the stack alone; the ray itself is unchanged. |
| Shader.Reflected | RayTracingEngine/Shaders/Shader.cs:86-91 | A valid colour, and the untraced `[0, 0, 0, 1]` whenever the reflection coefficient is at most 0.4. |
| Shader.Refracted | RayTracingEngine/Shaders/Shader.cs:93-98 | At least three channels, and the untraced `[0, 0, 0, 1]` whenever the transparency is at most 0.5. |
| Shader.BlendWithoutReflection | RayTracingEngine/Shaders/Shader.cs:100-113 | With the reflection untraced, each colour channel of the result is the clamp of `0.8 local + transparency refracted`. |
| Shader.BlendWithoutRefraction | RayTracingEngine/Shaders/Shader.cs:100-113 | With the refraction untraced, each colour channel of the result is the clamp of `0.8 local + 0.1 reflection-coefficient reflected`. |
| Shader.ReflectionGateClosed | RayTracingEngine/Shaders/Shader.cs:86-113 | With the reflection gate closed, whatever the refraction gate does, `Shade` is the clamped blend of the local colour, the untraced reflection and the refraction colour that gate yields. |
| Shader.RefractionGateClosed | RayTracingEngine/Shaders/Shader.cs:86-113 | With the refraction gate closed, whatever the reflection gate does, `Shade` is the clamped blend of the local colour, the reflection colour that gate yields and the untraced refraction. |
| Shader.ClosedGatesUseLocalColor | RayTracingEngine/Shaders/Shader.cs:86-113 | With both gates closed nothing is traced: each colour channel is the clamped local colour scaled by 0.8. |
| Camera.PixelDirection | RayTracingEngine/Rendering/Camera.cs:19-23 | x and y lie in [-0.5, 0.5) and z is 1. Pixel (0, 0) maps to (-0.5, -0.5, 1). |
| Camera.PixelDirectionMonotonic | RayTracingEngine/Rendering/Camera.cs:19-23 | Directions move strictly right with x and strictly down with y, and each axis is independent of the other. |
| Camera.Render | RayTracingEngine/Rendering/Camera.cs:12-29 | One ray per pixel, row by row: ray `y * 640 + x` starts at the camera position and points through pixel (x, y). |
| Camera.RenderIndexIsPixel | RayTracingEngine/Rendering/Camera.cs:14-17 | Each ray index names exactly one pixel. |

## Left out

- Window, GPU and shader-program code (`OpenGL/`, `ViewWindow`, `Program`) and the scene loader: I/O and constant data.
- `Material/Shader.cs`: a superseded copy of the shader under the same class name.
- Marble, random-noise and wood-grain textures: they build a fresh random `Noise` on every call, or discard what they compute.
- `Utils.RandomFloat`: randomness. Noise construction takes the drawn indices and values as inputs.
- The Beckmann `NormalDistributionFunction` (exponential, tangent, arc cosine): transcendental. The specular term is an environment function of the shader.
- Square root, sine, cosine, `Matrix4x4.Invert`, `Vector3.Transform`, `CreateRotation(Vector3)` and `Ray.Transform` are parameters: they are library calls, or are not part of the files modelled.
- IEEE behaviour: rounding, NaN and infinity.
  - `Normalize` of the zero vector is modelled as zero; the source gives NaN.
  - A vertical ray in `Cylinder` (a = 0) gets no lateral hit, which is what its NaN roots give.
  - `Plane` requires `direction.y != 0`.
  - Only `ClampRgbaValues` sees NaN inputs.
- Conversions of large floats to `int`/`long` are exact integer parts: there is no overflow.
- `Scene.GetBestHit`, the scene query the shader uses, and the material's colour getters and coefficients are not part of the files modelled. They are environment functions of the shader.
- The reflection, transparency and refraction-index fields that the shader reads are not declared in `StandardMaterial.cs`. They are constructor parameters.
- Shader.Shade: the medium stack is modelled as a value copied into each traced ray. The source shares one list between a ray and its refracted ray (`Shader.cs:129`), so there `c1` is read after the update and `c1 == c2` on every hit. The copy reading agrees on an entering hit (`EnteringDoesNotBend`) and on an exit that leaves a copy behind. It differs on an exit that removes the last copy: for an exit from the stack `s + [o]` with `o` not in `s` (the second exit after entering `o` once), the copy reading gives `c1` = the index of `o` and `c2` = the innermost index of `s`, where the shared list gives the innermost index of `s` for both.
- Shader.WellFormed: the shader's environment is assumed to behave as the rest of the engine makes it. Each best hit names the object it belongs to, every colour getter returns four channels, and a transparent object (transparency above 0.5) has a positive refraction index so that `c1 / c2` is defined. The source does not check any of these.
- AObject.LocalTimesAreWorldTimes and AObject.SimpleHitOnPlacedSurface assume that `Ray.Transform` moves the start as a point and the direction as a direction (`MapsRayPoints`, met by `MoveRay`), and that `CreateRotation` returns an affine matrix. `Ray.Transform` and `CreateRotation(Vector3)` are not part of this model.
- Shader.ReflectionRay: the reflected ray starts inside no object. The source builds it with the two-argument constructor, which is given no list of objects. The model also builds it with `NewRayIntended`, so its direction is the normalised mirror direction. The source's constructor (`Shader.cs:118-122`, through `Ray.cs:5-8`) drops that argument, so as written the reflected ray has a zero direction (see Findings).
- Shader.AddLights: the contract bounds the channels and keeps alpha, but does not give the value after several lit lights, because the specular term is an environment function.
- `Light`'s hit methods throw `NotImplementedException` and are not modelled. A light is its colour, intensity and placed object.
- `IRayTraceable`, `Object` and `HitInfo.cs` declare types from other revisions. One `HitPoint` and one `HitInfo` datatype stand in for them.
- Camera.Render: the source discards each ray. The model returns the rays so that their directions can be stated. It builds them with `NewRayIntended`. The source's two-argument constructor (`Camera.cs:26`, through `Ray.cs:5-8`) leaves every camera ray's direction zero (see Findings).
- Cube.CheckedHitsOnSurface: holds only under `ClearDirection`. Every direction component must be exactly zero or at least 0.00001 in size. The corrected test still skips a face whose denominator is non-zero but inside the near-zero band, whatever the start. A near-parallel ray can then get a hit off the cube (`Cube.NearParallelCheckedHit`). The source's tolerance band has no exact counterpart over the reals.

## Findings

| source | as written | input that shows it | evidently intended | confidence | as-written member | corrected member |
|---|---|---|---|---|---|---|
| RayTracingEngine/Rendering/Ray.cs:5-8 | The primary constructor's `direction` argument is never assigned, so every new ray has a zero direction. | `new Ray((1,1,1), (-1,-1,-1))`, as in the sphere's two-hit test: the sphere reports no hit. | The direction is stored as given. | not executed | Rays.NewRay, Sphere.ThroughCentreAsWritten | Rays.NewRayIntended (used by Camera.Render, Shader.ReflectionRay and the test lemmas) |
| RayTracingEngine/Primitives/Cube.cs:50-54 | A face with a near-zero denominator is skipped whatever the start, so a ray parallel to a slab but outside it still gets hits. | Start (0, 5, 0), direction +X: an exiting hit at (1, 5, 0), outside the cube. | A parallel ray outside its slab misses. | not executed | Cube.ParallelOutsideSlabHits | Cube.HitLocalChecked, Cube.CheckedHitsOnSurface |
| RayTracingEngine/Math/Noise.cs:31-37 | The shuffle copies entry i over the drawn entry and writes the temporary back to i, so entries are lost. | Three entries, every draw 1: the table ends as [0, 2, 2]. | The two entries are swapped, so the table stays a permutation. | not executed | Noise.GetNoiseTables, Noise.CopyShuffleLosesEntries | Noise.SwapShuffle, Noise.GetNoiseTablesIntended |
| RayTracingEngine/Material/StandardMaterial.cs:14-25 | The index is computed once, in the base constructor. Gold and glass assign their reflectance afterwards, so they keep the default reflectance's index. | `GoldMaterial`: reflectance 0.797357 in red, index computed from 0.95. | The index follows the reflectance actually set. | not executed | Materials.NewGoldMaterial, Materials.NewGlassMaterial, Materials.StaleEta | Materials.SetFresnelIntended, Materials.NewGoldMaterialIntended |
