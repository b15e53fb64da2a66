/** The algebraic parts of `RayTracingEngine.Shaders.CookTorrance`: the
    geometric attenuation term and the Fresnel reflectance. The Beckmann
    distribution (exponential, tangent and arc cosine) is not part of this
    model. */
module CookTorrance {
  import opened RealMath
  import opened Materials

  /** `Geometry`: the masking and shadowing terms `gm` and `gs`, capped at 1. */
  function Geometry(nDotH: real, nDotS: real, nDotV: real, hDotS: real): (g: real)
    requires hDotS != 0.0
    ensures g <= 1.0
    ensures g <= 2.0 * nDotH * nDotS / hDotS && g <= 2.0 * nDotH * nDotV / hDotS
    ensures g == 1.0 || g == 2.0 * nDotH * nDotS / hDotS || g == 2.0 * nDotH * nDotV / hDotS
  {
    var gm := 2.0 * nDotH * nDotS / hDotS;
    var gs := 2.0 * nDotH * nDotV / hDotS;
    Min(1.0, Min(gm, gs))
  }

  /** The light and the viewer play the same part. */
  lemma GeometrySymmetric(nDotH: real, nDotS: real, nDotV: real, hDotS: real)
    requires hDotS != 0.0
    ensures Geometry(nDotH, nDotS, nDotV, hDotS) == Geometry(nDotH, nDotV, nDotS, hDotS)
  {
  }

  /** The cap applies exactly when both terms reach 1; otherwise the smaller
      term is the result. */
  lemma GeometryCases(nDotH: real, nDotS: real, nDotV: real, hDotS: real)
    requires hDotS != 0.0
    ensures var gm, gs := 2.0 * nDotH * nDotS / hDotS, 2.0 * nDotH * nDotV / hDotS;
            (gm >= 1.0 && gs >= 1.0 ==> Geometry(nDotH, nDotS, nDotV, hDotS) == 1.0)
            && (gm < 1.0 || gs < 1.0 ==> Geometry(nDotH, nDotS, nDotV, hDotS) == Min(gm, gs))
  {
  }

  /** `g = sqrt(eta^2 + c^2 - 1)`, the quantity the Fresnel formula is built
      on. */
  function FresnelG(sqrt: real -> real, c: real, eta: real): real {
    sqrt(Sq(eta) + Sq(c) - 1.0)
  }

  /** Where the Fresnel formula is a number: the square root's argument is
      not negative and neither denominator vanishes. */
  predicate FresnelDefined(sqrt: real -> real, c: real, eta: real) {
    var g := FresnelG(sqrt, c, eta);
    Sq(eta) + Sq(c) - 1.0 >= 0.0 && g + c != 0.0 && c * (g - c) + 1.0 != 0.0
  }

  /** `FresnelFunction(c, eta)` with `c` the cosine between the normal and the
      light: `1/2 ((g-c)/(g+c))^2 (1 + ((c(g+c)-1)/(c(g-c)+1))^2)`. A
      reflectance is never negative. */
  function FresnelFunction(sqrt: real -> real, c: real, eta: real): (f: real)
    requires FresnelDefined(sqrt, c, eta)
    ensures f >= 0.0
  {
    var g := FresnelG(sqrt, c, eta);
    var second := (c * (g + c) - 1.0) / (c * (g - c) + 1.0);
    var first := Sq((g - c) / (g + c));
    SqNonNegative((g - c) / (g + c));
    SqNonNegative(second);
    MulNonNegative(first, 1.0 + Sq(second));
    0.5 * first * (1.0 + Sq(second))
  }

  /** At normal incidence `g` is `eta` and the second factor is 1, so the
      reflectance is `((eta - 1) / (eta + 1))^2`. */
  lemma NormalIncidence(sqrt: real -> real, eta: real)
    requires IsSqrt(sqrt)
    requires eta > 0.0
    ensures FresnelG(sqrt, 1.0, eta) == eta
    ensures FresnelDefined(sqrt, 1.0, eta)
    ensures FresnelFunction(sqrt, 1.0, eta) == Sq((eta - 1.0) / (eta + 1.0))
  {
    assert Sq(1.0) == 1.0;
    SqrtUnique(sqrt, Sq(eta), eta);
    var g := FresnelG(sqrt, 1.0, eta);
    assert g == eta;
    var second := (1.0 * (g + 1.0) - 1.0) / (1.0 * (g - 1.0) + 1.0);
    assert second == eta / eta;
    DivCancel(eta, eta);
    assert Sq(second) == 1.0;
    assert FresnelFunction(sqrt, 1.0, eta) == 0.5 * Sq((g - 1.0) / (g + 1.0)) * (1.0 + Sq(second));
  }

  /** The eta a material derives from its reflectance `f0` reproduces `f0` at
      normal incidence: `StandardMaterial`'s eta formula inverts this
      function. */
  lemma FresnelInvertsEta(sqrt: real -> real, f0: real)
    requires IsSqrt(sqrt)
    requires 0.0 <= f0 < 1.0
    ensures FresnelDefined(sqrt, 1.0, Eta(sqrt, f0))
    ensures FresnelFunction(sqrt, 1.0, Eta(sqrt, f0)) == f0
  {
    var eta := Eta(sqrt, f0);
    RootBounds(sqrt, f0);
    NormalIncidence(sqrt, eta);
    RatioRecoversRoot(sqrt(f0));
  }

  /** With `eta = (1 + q) / (1 - q)`, the ratio `(eta - 1) / (eta + 1)` is
      `q` again. */
  lemma RatioRecoversRoot(q: real)
    requires 0.0 <= q < 1.0
    ensures var eta := (1.0 + q) / (1.0 - q); (eta - 1.0) / (eta + 1.0) == q
  {
    var eta := (1.0 + q) / (1.0 - q);
    DivCancel(1.0 + q, 1.0 - q);
    EtaOfRoot(q);
    assert eta - 1.0 == q * (eta + 1.0);
  }
}
