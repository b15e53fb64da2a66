/** The two deterministic textures: `CheckerboardTexture`, which alternates a
    material's colours with dark ones on a grid of cubes, and
    `SurfaceNormalTexture`, which paints a hit by its normal. */
module Textures {
  import opened RealMath
  import opened Vectors
  import opened Rays
  import opened Materials
  import opened Utils

  /** Added to each coordinate before flooring, so that points on a cell's
      boundary fall in a stable cell. */
  const Threshold: real := 0.0001

  const DefaultCheckerboardScale: Vec3 := Vec3(0.5, 0.5, 0.5)

  /** C#'s `% 2 == 0` agrees with the Euclidean test even for negative
      sums: both ask whether 2 divides the number. */
  lemma EvenTest(a: int)
    ensures TruncRem(a, 2) == 0 <==> a % 2 == 0
  {
  }

  /** The cell index along one axis. */
  function Cell(coordinate: real, scale: real): int {
    ((coordinate + Threshold) * scale).Floor
  }

  /** `GetCheckerboardPatternForCoords`: whether the cell indices add up to an
      even number. */
  function Pattern(scale: Vec3, p: Vec3): (b: bool)
    ensures b <==> (Cell(p.x, scale.x) + Cell(p.y, scale.y) + Cell(p.z, scale.z)) % 2 == 0
  {
    EvenTest(Cell(p.x, scale.x) + Cell(p.y, scale.y) + Cell(p.z, scale.z));
    TruncRem(Cell(p.x, scale.x) + Cell(p.y, scale.y) + Cell(p.z, scale.z), 2) == 0
  }

  /** Moving by one cell width along x takes the point to the next cell. */
  lemma NextCell(c: real, s: real)
    requires s != 0.0
    ensures Cell(c + 1.0 / s, s) == Cell(c, s) + 1
  {
    DivCancel(1.0, s);
    assert (c + 1.0 / s + Threshold) * s == (c + Threshold) * s + (1.0 / s) * s;
  }

  /** Moving a point by one cell width along any axis flips the pattern. */
  lemma ShiftFlipsPattern(scale: Vec3, p: Vec3)
    requires scale.x != 0.0 && scale.y != 0.0 && scale.z != 0.0
    ensures Pattern(scale, p.(x := p.x + 1.0 / scale.x)) != Pattern(scale, p)
    ensures Pattern(scale, p.(y := p.y + 1.0 / scale.y)) != Pattern(scale, p)
    ensures Pattern(scale, p.(z := p.z + 1.0 / scale.z)) != Pattern(scale, p)
  {
    NextCell(p.x, scale.x);
    NextCell(p.y, scale.y);
    NextCell(p.z, scale.z);
  }

  /** Points in the same cell along every axis get the same colour. */
  lemma SameCellSamePattern(scale: Vec3, p: Vec3, q: Vec3)
    requires Cell(p.x, scale.x) == Cell(q.x, scale.x)
    requires Cell(p.y, scale.y) == Cell(q.y, scale.y)
    requires Cell(p.z, scale.z) == Cell(q.z, scale.z)
    ensures Pattern(scale, p) == Pattern(scale, q)
  {
  }

  /** `CheckerboardTexture.GetDiffuseColor`: the material's diffuse colour on
      even cells, dark grey on odd ones. */
  function CheckerboardDiffuse(m: Material, scale: Vec3, hit: HitPoint): (c: seq<real>)
    ensures Pattern(scale, hit.point) ==> c == m.diffuseColor
    ensures !Pattern(scale, hit.point) ==> c == [0.1, 0.1, 0.1, 1.0]
  {
    if Pattern(scale, hit.point) then m.diffuseColor else [0.1, 0.1, 0.1, 1.0]
  }

  /** `CheckerboardTexture.GetAmbientColor`: the material's ambient colour on
      even cells, opaque black on odd ones. */
  function CheckerboardAmbient(m: Material, scale: Vec3, hit: HitPoint): (c: seq<real>)
    ensures Pattern(scale, hit.point) ==> c == m.ambientColor
    ensures !Pattern(scale, hit.point) ==> c == [0.0, 0.0, 0.0, 1.0]
  {
    if Pattern(scale, hit.point) then m.ambientColor else [0.0, 0.0, 0.0, 1.0]
  }

  /** Neighbouring cells along x never share a diffuse colour when the
      material's own differs from the dark grey. */
  lemma CheckerboardAlternates(m: Material, scale: Vec3, hit: HitPoint)
    requires scale.x != 0.0 && scale.y != 0.0 && scale.z != 0.0
    requires m.diffuseColor != [0.1, 0.1, 0.1, 1.0]
    ensures CheckerboardDiffuse(m, scale, hit.(point := hit.point.(x := hit.point.x + 1.0 / scale.x)))
            != CheckerboardDiffuse(m, scale, hit)
  {
    ShiftFlipsPattern(scale, hit.point);
  }

  /** The `SurfaceNormalTexture` constructor: dark colours, and no
      refraction, reflection or transparency. */
  method NewSurfaceNormalTexture(sqrt: real -> real) returns (m: Material)
    requires IsSqrt(sqrt)
    ensures m.ambientColor == [0.1, 0.1, 0.1, 1.0] && m.diffuseColor == [0.1, 0.1, 0.1, 1.0]
    ensures m.refractionIndex == 0.0 && m.reflectionCoefficient == 0.0 && m.transparencyCoefficient == 0.0
    ensures m.fresnel == DefaultFresnel && EtaConsistent(sqrt, m)
  {
    m := NewStandardMaterial(sqrt, 0.0, 0.0, 0.0);
    m := m.(ambientColor := [0.1, 0.1, 0.1, 1.0], diffuseColor := [0.1, 0.1, 0.1, 1.0]);
  }

  /** `SurfaceNormalTexture.GetDiffuseColor`: each normal component mapped
      from [-1, 1] to [0, 1]. */
  function NormalDiffuse(hit: HitPoint): (c: seq<real>)
    ensures |c| == 4 && c[3] == 1.0
    ensures c[0] * 2.0 - 1.0 == hit.normal.x
    ensures c[1] * 2.0 - 1.0 == hit.normal.y
    ensures c[2] * 2.0 - 1.0 == hit.normal.z
  {
    [(hit.normal.x + 1.0) / 2.0, (hit.normal.y + 1.0) / 2.0, (hit.normal.z + 1.0) / 2.0, 1.0]
  }

  /** `SurfaceNormalTexture.GetAmbientColor`: each normal component mapped
      from [-1, 1] to [0, 0.5]. */
  function NormalAmbient(hit: HitPoint): (c: seq<real>)
    ensures |c| == 4 && c[3] == 1.0
    ensures c[0] * 4.0 - 1.0 == hit.normal.x
    ensures c[1] * 4.0 - 1.0 == hit.normal.y
    ensures c[2] * 4.0 - 1.0 == hit.normal.z
  {
    [(hit.normal.x + 1.0) / 4.0, (hit.normal.y + 1.0) / 4.0, (hit.normal.z + 1.0) / 4.0, 1.0]
  }

  predicate InUnitCube(n: Vec3) {
    -1.0 <= n.x <= 1.0 && -1.0 <= n.y <= 1.0 && -1.0 <= n.z <= 1.0
  }

  /** For a normal with components in [-1, 1] the diffuse colour is a valid
      colour and the ambient one is half of it, in [0, 0.5]. */
  lemma NormalColoursInRange(hit: HitPoint)
    requires InUnitCube(hit.normal)
    ensures forall i :: 0 <= i < 4 ==> 0.0 <= NormalDiffuse(hit)[i] <= 1.0
    ensures forall i :: 0 <= i < 3 ==> 0.0 <= NormalAmbient(hit)[i] <= 0.5
    ensures forall i :: 0 <= i < 3 ==> NormalAmbient(hit)[i] * 2.0 == NormalDiffuse(hit)[i]
  {
  }
}
