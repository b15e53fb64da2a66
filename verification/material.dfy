/** `RayTracingEngine.Material.StandardMaterial` and the two materials that
    reassign its Fresnel reflectance. Colours are four reals (red, green,
    blue, alpha). */
module Materials {
  import opened RealMath

  /** A material's state. The reflection and transparency coefficients and
      the refraction index are read by the shader but are not declared in
      `StandardMaterial.cs`; they are carried here with the values their
      creator gives them. */
  datatype Material = Material(
    ambientColor: seq<real>,
    diffuseColor: seq<real>,
    fresnel: seq<real>,
    surfaceRoughness: real,
    etaFresnel: seq<real>,
    reflectionCoefficient: real,
    transparencyCoefficient: real,
    refractionIndex: real)

  const DefaultAmbient: seq<real> := [0.1, 0.1, 0.1, 1.0]
  const DefaultDiffuse: seq<real> := [0.5, 0.5, 0.5, 1.0]
  const DefaultFresnel: seq<real> := [0.95, 0.93, 0.88, 1.0]
  const DefaultRoughness: real := 0.5

  /** A reflectance whose colour channels the eta formula accepts: the square
      root is taken of each, and `1 - sqrt(F)` must not vanish. */
  predicate ValidFresnel(fresnel: seq<real>) {
    |fresnel| == 4 && forall i :: 0 <= i < 3 ==> 0.0 <= fresnel[i] < 1.0
  }

  /** The index of refraction that has reflectance `f` at normal incidence:
      `(1 + sqrt f) / (1 - sqrt f)`. */
  function Eta(sqrt: real -> real, f: real): (eta: real)
    requires IsSqrt(sqrt)
    requires 0.0 <= f < 1.0
    ensures eta >= 1.0
    ensures eta == 1.0 <==> f == 0.0
  {
    RootBounds(sqrt, f);
    var q := sqrt(f);
    EtaOfRoot(q);
    (1.0 + q) / (1.0 - q)
  }

  /** The square root of a reflectance in [0, 1) is in [0, 1) and vanishes
      only for a zero reflectance. */
  lemma RootBounds(sqrt: real -> real, f: real)
    requires IsSqrt(sqrt)
    requires 0.0 <= f < 1.0
    ensures 0.0 <= sqrt(f) < 1.0
    ensures sqrt(f) == 0.0 <==> f == 0.0
  {
    SqrtBelowOne(sqrt, f);
    SqrtZero(sqrt);
    if f != 0.0 {
      SqrtStrictlyMonotonic(sqrt, 0.0, f);
    }
  }

  /** For a root `q` in [0, 1) the quotient is at least 1, and exactly 1 only
      for `q = 0`. */
  lemma EtaOfRoot(q: real)
    requires 0.0 <= q < 1.0
    ensures (1.0 + q) / (1.0 - q) >= 1.0
    ensures (1.0 + q) / (1.0 - q) == 1.0 <==> q == 0.0
  {
    var eta := (1.0 + q) / (1.0 - q);
    DivCancel(1.0 + q, 1.0 - q);
    assert eta * (1.0 - q) == 1.0 + q;
  }

  /** A more reflective channel has a larger index of refraction. */
  lemma EtaStrictlyIncreasing(sqrt: real -> real, f: real, g: real)
    requires IsSqrt(sqrt)
    requires 0.0 <= f < g < 1.0
    ensures Eta(sqrt, f) < Eta(sqrt, g)
  {
    SqrtStrictlyMonotonic(sqrt, f, g);
    SqrtBelowOne(sqrt, f);
    SqrtBelowOne(sqrt, g);
    EtaOfRootIncreasing(sqrt(f), sqrt(g));
  }

  lemma EtaOfRootIncreasing(p: real, q: real)
    requires 0.0 <= p < q < 1.0
    ensures (1.0 + p) / (1.0 - p) < (1.0 + q) / (1.0 - q)
  {
    var a := (1.0 + p) / (1.0 - p);
    var b := (1.0 + q) / (1.0 - q);
    DivCancel(1.0 + p, 1.0 - p);
    DivCancel(1.0 + q, 1.0 - q);
    // a = 2 / (1 - p) - 1, so a grows with p.
    assert a == 2.0 / (1.0 - p) - 1.0;
    assert b == 2.0 / (1.0 - q) - 1.0;
    assert 2.0 / (1.0 - p) < 2.0 / (1.0 - q) by {
      DivCancel(2.0, 1.0 - p);
      DivCancel(2.0, 1.0 - q);
    }
  }

  /** The eta of each colour channel, with the alpha entry left at 0. */
  function EtaOf(sqrt: real -> real, fresnel: seq<real>): (eta: seq<real>)
    requires IsSqrt(sqrt)
    requires ValidFresnel(fresnel)
    ensures |eta| == 4 && eta[3] == 0.0
    ensures forall i :: 0 <= i < 3 ==> eta[i] >= 1.0
  {
    [Eta(sqrt, fresnel[0]), Eta(sqrt, fresnel[1]), Eta(sqrt, fresnel[2]), 0.0]
  }

  /** `CalculateEtaFresnel`: the loop over the three colour channels. The
      fourth entry is never written and keeps its zero default. */
  method CalculateEtaFresnel(sqrt: real -> real, fresnel: seq<real>) returns (eta: seq<real>)
    requires IsSqrt(sqrt)
    requires ValidFresnel(fresnel)
    ensures eta == EtaOf(sqrt, fresnel)
  {
    eta := [0.0, 0.0, 0.0, 0.0];
    for i := 0 to 3
      invariant |eta| == 4 && eta[3] == 0.0
      invariant forall j :: 0 <= j < i ==> eta[j] == Eta(sqrt, fresnel[j])
      invariant forall j :: i <= j < 4 ==> eta[j] == 0.0
    {
      eta := eta[i := Eta(sqrt, fresnel[i])];
    }
  }

  /** The material's eta matches its current reflectance. */
  ghost predicate EtaConsistent(sqrt: real -> real, m: Material) {
    IsSqrt(sqrt) && ValidFresnel(m.fresnel) && m.etaFresnel == EtaOf(sqrt, m.fresnel)
  }

  /** The `StandardMaterial` constructor: the default colours, reflectance and
      roughness, and the eta computed from that reflectance. */
  method NewStandardMaterial(sqrt: real -> real, reflection: real, transparency: real, refractionIndex: real)
    returns (m: Material)
    requires IsSqrt(sqrt)
    ensures m.ambientColor == DefaultAmbient && m.diffuseColor == DefaultDiffuse
    ensures m.fresnel == DefaultFresnel && m.surfaceRoughness == DefaultRoughness
    ensures m.reflectionCoefficient == reflection && m.transparencyCoefficient == transparency
    ensures m.refractionIndex == refractionIndex
    ensures EtaConsistent(sqrt, m)
  {
    var eta := CalculateEtaFresnel(sqrt, DefaultFresnel);
    m := Material(DefaultAmbient, DefaultDiffuse, DefaultFresnel, DefaultRoughness, eta,
                  reflection, transparency, refractionIndex);
  }

  /** Assigning `Fresnel` as the source does: the property is a plain
      auto-property, so the eta stays as it was. */
  function SetFresnel(m: Material, fresnel: seq<real>): (m': Material)
    ensures m'.fresnel == fresnel && m'.etaFresnel == m.etaFresnel
  {
    m.(fresnel := fresnel)
  }

  /** Assigning `Fresnel` as the eta's derivation requires: the eta is
      recomputed from the new reflectance. */
  method SetFresnelIntended(sqrt: real -> real, m: Material, fresnel: seq<real>) returns (m': Material)
    requires IsSqrt(sqrt)
    requires ValidFresnel(fresnel)
    ensures m'.fresnel == fresnel
    ensures EtaConsistent(sqrt, m')
    ensures m' == m.(fresnel := m'.fresnel, etaFresnel := m'.etaFresnel)
  {
    var eta := CalculateEtaFresnel(sqrt, fresnel);
    m' := m.(fresnel := fresnel, etaFresnel := eta);
  }

  const GoldFresnel: seq<real> := [0.797357, 0.723991, 0.208006, 1.0]
  const GlassFresnel: seq<real> := [0.633, 0.727811, 0.633, 0.55]

  /** `GoldMaterial` as written: the base constructor computes the eta from
      the default reflectance, and only then is the gold reflectance
      assigned. */
  method NewGoldMaterial(sqrt: real -> real, transparency: real, refractionIndex: real) returns (m: Material)
    requires IsSqrt(sqrt)
    ensures m.fresnel == GoldFresnel && m.reflectionCoefficient == 0.7 && m.surfaceRoughness == 0.832
    ensures m.etaFresnel == EtaOf(sqrt, DefaultFresnel)
    ensures !EtaConsistent(sqrt, m)
  {
    m := NewStandardMaterial(sqrt, 0.0, transparency, refractionIndex);
    m := m.(ambientColor := [0.24725, 0.2245, 0.0645, 1.0], diffuseColor := [0.34615, 0.3143, 0.0903, 1.0]);
    m := SetFresnel(m, GoldFresnel);
    m := m.(surfaceRoughness := 0.832, reflectionCoefficient := 0.7);
    StaleEta(sqrt, GoldFresnel);
  }

  /** `GoldMaterial` with the reflectance assigned through the recomputing
      setter. */
  method NewGoldMaterialIntended(sqrt: real -> real, transparency: real, refractionIndex: real) returns (m: Material)
    requires IsSqrt(sqrt)
    ensures m.fresnel == GoldFresnel && m.reflectionCoefficient == 0.7 && m.surfaceRoughness == 0.832
    ensures EtaConsistent(sqrt, m)
  {
    m := NewStandardMaterial(sqrt, 0.0, transparency, refractionIndex);
    m := m.(ambientColor := [0.24725, 0.2245, 0.0645, 1.0], diffuseColor := [0.34615, 0.3143, 0.0903, 1.0]);
    m := SetFresnelIntended(sqrt, m, GoldFresnel);
    m := m.(surfaceRoughness := 0.832, reflectionCoefficient := 0.7);
  }

  /** `GlassMaterial` as written: the same ordering, so glass too keeps the
      default eta. */
  method NewGlassMaterial(sqrt: real -> real, reflection: real) returns (m: Material)
    requires IsSqrt(sqrt)
    ensures m.fresnel == GlassFresnel && m.refractionIndex == 1.5 && m.transparencyCoefficient == 0.9
    ensures m.etaFresnel == EtaOf(sqrt, DefaultFresnel)
    ensures !EtaConsistent(sqrt, m)
  {
    m := NewStandardMaterial(sqrt, reflection, 0.0, 0.0);
    m := m.(ambientColor := [0.1, 0.1, 0.1, 1.0], diffuseColor := [0.1, 0.1, 0.1, 1.0]);
    m := SetFresnel(m, GlassFresnel);
    m := m.(refractionIndex := 1.5, transparencyCoefficient := 0.9);
    StaleEta(sqrt, GlassFresnel);
  }

  /** A reflectance whose first channel is below the default's has a
      different eta from the default one. */
  lemma StaleEta(sqrt: real -> real, fresnel: seq<real>)
    requires IsSqrt(sqrt)
    requires ValidFresnel(fresnel) && fresnel[0] < DefaultFresnel[0]
    ensures EtaOf(sqrt, fresnel) != EtaOf(sqrt, DefaultFresnel)
  {
    EtaStrictlyIncreasing(sqrt, fresnel[0], DefaultFresnel[0]);
    assert EtaOf(sqrt, fresnel)[0] != EtaOf(sqrt, DefaultFresnel)[0];
  }
}
