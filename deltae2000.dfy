/**
 * CIEDE2000 colour difference (the `dE00` class). The transcendental functions are fields of
 * a `MathLib` value and stay uninterpreted; only the few facts listed in `MathLib.Valid` are
 * assumed of them. Everything else (weight defaulting, the intermediate terms, the hue-angle
 * branch logic) is exact real arithmetic.
 */
module DeltaE00 {
  import opened Types

  /** `Math.PI`: the exact value of the double nearest to pi. */
  const PI: real := 3.141592653589793115997963468544185161590576171875

  /** `Math.sqrt`, `Math.sin`, `Math.cos`, `Math.exp` and `Math.atan2`, uninterpreted. */
  datatype MathLib = MathLib(
    sqrt: real -> real,
    sin: real -> real,
    cos: real -> real,
    exp: real -> real,
    atan2: (real, real) -> real)
  {
    /** The facts the model relies on: square roots of non-negative numbers are non-negative
        (positive for positive arguments, 0 at 0), `sin` is odd, `cos` lies in [-1, 1],
        and `atan2` lies in [-PI, PI] with `atan2(0, 0) == 0`. */
    ghost predicate Valid() {
      && sqrt(0.0) == 0.0
      && (forall x :: x >= 0.0 ==> sqrt(x) >= 0.0)
      && (forall x :: x > 0.0 ==> sqrt(x) > 0.0)
      && (forall x, y :: x + y == 0.0 ==> sin(x) == -sin(y))
      && (forall x :: -1.0 <= cos(x) <= 1.0)
      && (forall y, x :: -PI <= atan2(y, x) <= PI)
      && atan2(0.0, 0.0) == 0.0
    }
  }

  /** A CIE Lab colour `{L, A, B}`. */
  datatype Lab = Lab(L: real, A: real, B: real)

  /** The optional `{lightness, chroma, hue}` weights; `None` is an absent property. */
  datatype Weights = Weights(lightness: Option<real>, chroma: Option<real>, hue: Option<real>)

  /** `weights || {}`: absent weights are an empty object. */
  function WeightsOrEmpty(weights: Option<Weights>): Weights {
    if weights.Some? then weights.value else Weights(None, None, None)
  }

  /** `w || 1`: an absent or zero weight becomes 1, any other weight is kept. */
  function WeightOr1(w: Option<real>): (k: real)
    ensures k != 0.0
    ensures k == 1.0 <==> (w.None? || w.value == 0.0 || w.value == 1.0)
    ensures w.Some? && w.value != 0.0 ==> k == w.value
  {
    if w.Some? && w.value != 0.0 then w.value else 1.0
  }

  function Sq(x: real): real { x * x }

  function Pow7(x: real): real { Sq(Sq(x)) * Sq(x) * x }

  lemma Pow7NonNegative(x: real)
    requires x >= 0.0
    ensures Pow7(x) >= 0.0
  {
    var s := Sq(x);
    assert s >= 0.0;
    assert Sq(s) >= 0.0;
    MulNonNegative(Sq(s), s);
    MulNonNegative(Sq(s) * s, x);
  }

  lemma MulNonNegative(a: real, b: real)
    requires a >= 0.0 && b >= 0.0
    ensures a * b >= 0.0
  {
  }

  function RadiansToDegrees(radians: real): real { radians * (180.0 / PI) }
  function DegreesToRadians(degrees: real): real { degrees * (PI / 180.0) }

  /** Over the reals the two angle conversions are inverse to each other. */
  lemma DegreesRadiansRoundTrip(r: real, d: real)
    ensures DegreesToRadians(RadiansToDegrees(r)) == r
    ensures RadiansToDegrees(DegreesToRadians(d)) == d
  {
    assert (180.0 / PI) * (PI / 180.0) == 1.0;
  }

  /** The G-corrected a′ of one colour, given the mean chroma `CBar`. */
  function APrime(m: MathLib, A: real, CBar: real): real
    requires m.Valid() && CBar >= 0.0
  {
    Pow7NonNegative(CBar);
    A + (A / 2.0) * (1.0 - m.sqrt(Pow7(CBar) / (Pow7(CBar) + Pow7(25.0))))
  }

  /** The terms the `dE00` constructor computes. */
  datatype Terms = Terms(
    deltaLPrime: real, LBar: real, C1: real, C2: real, CBar: real,
    aPrime1: real, aPrime2: real, CPrime1: real, CPrime2: real,
    CBarPrime: real, deltaCPrime: real, SsubL: real, SsubC: real)

  lemma NonNegQuotient(x: real, y: real)
    requires x >= 0.0 && y > 0.0
    ensures x / y >= 0.0
  {
  }

  /** The constructor's terms; the chromas are non-negative and the two scale factors at least 1. */
  function ConstructorTerms(m: MathLib, c1: Lab, c2: Lab): (t: Terms)
    requires m.Valid()
    ensures t.C1 >= 0.0 && t.C2 >= 0.0 && t.CBar >= 0.0
    ensures t.CPrime1 >= 0.0 && t.CPrime2 >= 0.0 && t.CBarPrime >= 0.0
    ensures t.SsubL >= 1.0 && t.SsubC >= 1.0
  {
    var deltaLPrime := c2.L - c1.L;
    var LBar := (c1.L + c2.L) / 2.0;
    var C1 := m.sqrt(Sq(c1.A) + Sq(c1.B));
    var C2 := m.sqrt(Sq(c2.A) + Sq(c2.B));
    var CBar := (C1 + C2) / 2.0;
    var aPrime1 := APrime(m, c1.A, CBar);
    var aPrime2 := APrime(m, c2.A, CBar);
    var CPrime1 := m.sqrt(Sq(aPrime1) + Sq(c1.B));
    var CPrime2 := m.sqrt(Sq(aPrime2) + Sq(c2.B));
    var CBarPrime := (CPrime1 + CPrime2) / 2.0;
    var deltaCPrime := CPrime2 - CPrime1;
    var dL2 := Sq(LBar - 50.0);
    assert m.sqrt(20.0 + dL2) > 0.0;
    NonNegQuotient(0.015 * dL2, m.sqrt(20.0 + dL2));
    var SsubL := 1.0 + (0.015 * dL2) / m.sqrt(20.0 + dL2);
    var SsubC := 1.0 + 0.045 * CBarPrime;
    Terms(deltaLPrime, LBar, C1, C2, CBar, aPrime1, aPrime2, CPrime1, CPrime2,
          CBarPrime, deltaCPrime, SsubL, SsubC)
  }

  /** Swapping the colours negates ΔL′ and ΔC′, swaps a′ and C′, and keeps L̄, C̄ and C̄′. */
  lemma SwapSymmetry(m: MathLib, c1: Lab, c2: Lab)
    requires m.Valid()
    ensures var t, u := ConstructorTerms(m, c1, c2), ConstructorTerms(m, c2, c1);
      && u.deltaLPrime == -t.deltaLPrime && u.deltaCPrime == -t.deltaCPrime
      && u.aPrime1 == t.aPrime2 && u.aPrime2 == t.aPrime1
      && u.CPrime1 == t.CPrime2 && u.CPrime2 == t.CPrime1
      && u.C1 == t.C2 && u.C2 == t.C1
      && u.LBar == t.LBar && u.CBar == t.CBar && u.CBarPrime == t.CBarPrime
      && u.SsubL == t.SsubL && u.SsubC == t.SsubC
  {
  }

  /** `_gethPrimeFn(x, y)`: 0 when both are 0, else `atan2(x, y)` in degrees moved into [0, 360). */
  function HPrimeFn(m: MathLib, x: real, y: real): real
  {
    if x == 0.0 && y == 0.0 then 0.0
    else
      var hueAngle := RadiansToDegrees(m.atan2(x, y));
      if hueAngle >= 0.0 then hueAngle else hueAngle + 360.0
  }

  lemma AtanDegrees(m: MathLib, x: real, y: real)
    requires m.Valid()
    ensures -180.0 <= RadiansToDegrees(m.atan2(x, y)) <= 180.0
  {
    var t := m.atan2(x, y);
    assert -PI <= t <= PI;
    assert PI * (180.0 / PI) == 180.0;
    MulMonotone(-PI, t, 180.0 / PI);
    MulMonotone(t, PI, 180.0 / PI);
  }

  lemma MulMonotone(a: real, b: real, k: real)
    requires a <= b && k >= 0.0
    ensures a * k <= b * k
  {
  }

  /** A hue angle is 0 for the origin and always lies in [0, 360). */
  lemma HPrimeRange(m: MathLib, x: real, y: real)
    requires m.Valid()
    ensures x == 0.0 && y == 0.0 ==> HPrimeFn(m, x, y) == 0.0
    ensures 0.0 <= HPrimeFn(m, x, y) < 360.0
  {
    if !(x == 0.0 && y == 0.0) {
      AtanDegrees(m, x, y);
    }
  }

  /** `getDeltahPrime`: 0 when a chroma is 0, else h′2 − h′1 brought onto the shorter arc. */
  function DeltahPrime(C1: real, C2: real, hPrime1: real, hPrime2: real): real
  {
    if 0.0 == C1 || 0.0 == C2 then 0.0
    else if RealAbs(hPrime1 - hPrime2) <= 180.0 then hPrime2 - hPrime1
    else if hPrime2 <= hPrime1 then hPrime2 - hPrime1 + 360.0
    else hPrime2 - hPrime1 - 360.0
  }

  /** Δh′ is 0 for an achromatic colour; otherwise it differs from h′2 − h′1 by a whole turn
      (or nothing) and, for angles in [0, 360), lies in [−180, 180]. */
  lemma DeltahPrimeArc(C1: real, C2: real, h1: real, h2: real)
    ensures C1 == 0.0 || C2 == 0.0 ==> DeltahPrime(C1, C2, h1, h2) == 0.0
    ensures C1 != 0.0 && C2 != 0.0 ==>
      var d := DeltahPrime(C1, C2, h1, h2);
      d == h2 - h1 || d == h2 - h1 + 360.0 || d == h2 - h1 - 360.0
    ensures 0.0 <= h1 < 360.0 && 0.0 <= h2 < 360.0 ==>
      -180.0 <= DeltahPrime(C1, C2, h1, h2) <= 180.0
  {
  }

  /** Δh′ is antisymmetric: swapping the colours (chromas and angles) negates it. */
  lemma DeltahPrimeAntisymmetric(C1: real, C2: real, h1: real, h2: real)
    ensures DeltahPrime(C2, C1, h2, h1) == -DeltahPrime(C1, C2, h1, h2)
  {
  }

  /** `getHBarPrime`: the mean angle, plus 180 when the angles are more than 180 apart. */
  function HBarPrimeOf(hPrime1: real, hPrime2: real): real
  {
    if RealAbs(hPrime1 - hPrime2) > 180.0 then (hPrime1 + hPrime2 + 360.0) / 2.0
    else (hPrime1 + hPrime2) / 2.0
  }

  /** H̄′ is symmetric; for angles in [0, 360) it lies in [0, 450) — it never subtracts 360,
      so the far-apart case yields values at or above 270 — and it is within 90 degrees of
      h′1 going round the circle. */
  lemma HBarPrimeProperties(h1: real, h2: real)
    ensures HBarPrimeOf(h1, h2) == HBarPrimeOf(h2, h1)
    ensures RealAbs(h1 - h2) <= 180.0 ==> HBarPrimeOf(h1, h2) == (h1 + h2) / 2.0
    ensures RealAbs(h1 - h2) > 180.0 ==> HBarPrimeOf(h1, h2) == (h1 + h2) / 2.0 + 180.0
    ensures 0.0 <= h1 < 360.0 && 0.0 <= h2 < 360.0 ==>
      && 0.0 <= HBarPrimeOf(h1, h2) < 450.0
      && (RealAbs(h1 - h2) > 180.0 ==> HBarPrimeOf(h1, h2) > 270.0)
      && (RealAbs(HBarPrimeOf(h1, h2) - h1) <= 90.0 || RealAbs(HBarPrimeOf(h1, h2) - h1 - 360.0) <= 90.0)
  {
  }

  /** `getT`: the four-cosine polynomial in H̄′. */
  function TTerm(m: MathLib, HBar: real): (t: real)
    requires m.Valid()
    ensures 0.07 <= t <= 1.93
  {
    1.0
    - 0.17 * m.cos(DegreesToRadians(HBar - 30.0))
    + 0.24 * m.cos(DegreesToRadians(2.0 * HBar))
    + 0.32 * m.cos(DegreesToRadians(3.0 * HBar + 6.0))
    - 0.2 * m.cos(DegreesToRadians(4.0 * HBar - 63.0))
  }

  /** `getRsubT`: the rotation term. */
  function RsubTOf(m: MathLib, CBarPrime: real, HBar: real): real
    requires m.Valid() && CBarPrime >= 0.0
  {
    Pow7NonNegative(CBarPrime);
    -2.0 * m.sqrt(Pow7(CBarPrime) / (Pow7(CBarPrime) + Pow7(25.0)))
    * m.sin(DegreesToRadians(60.0 * m.exp(-Sq((HBar - 275.0) / 25.0))))
  }

  /** ΔH′ from the C′ and Δh′. */
  function DeltaHPrimeOf(m: MathLib, CPrime1: real, CPrime2: real, deltahPrime: real): real {
    2.0 * m.sqrt(CPrime1 * CPrime2) * m.sin(DegreesToRadians(deltahPrime) / 2.0)
  }

  /** ΔH′ is odd in Δh′ and 0 when Δh′ is 0. */
  lemma DeltaHPrimeOdd(m: MathLib, CPrime1: real, CPrime2: real, dh: real)
    requires m.Valid()
    ensures DeltaHPrimeOf(m, CPrime2, CPrime1, -dh) == -DeltaHPrimeOf(m, CPrime1, CPrime2, dh)
    ensures DeltaHPrimeOf(m, CPrime1, CPrime2, 0.0) == 0.0
  {
    var x := DegreesToRadians(dh) / 2.0;
    assert DegreesToRadians(-dh) / 2.0 == -x;
    assert m.sin(-x) == -m.sin(x) by { assert -x + x == 0.0; }
    assert CPrime2 * CPrime1 == CPrime1 * CPrime2;
    assert DegreesToRadians(0.0) / 2.0 == 0.0;
    assert m.sin(0.0) == 0.0 by { assert 0.0 + 0.0 == 0.0; }
  }

  /** `1 + 0.015 * C̄′ * T`, at least 1. */
  function SsubHOf(CBarPrime: real, T: real): (s: real)
    requires CBarPrime >= 0.0 && T >= 0.0
    ensures s >= 1.0
  {
    MulNonNegative(CBarPrime, T);
    1.0 + 0.015 * CBarPrime * T
  }

  /** One weighted term `delta / (k * S)`. */
  function Weighted(delta: real, k: real, S: real): real
    requires k != 0.0 && S >= 1.0
  {
    assert k * S != 0.0 by { if k * S == 0.0 { ZeroProduct(k, S); } }
    delta / (k * S)
  }

  lemma ZeroProduct(a: real, b: real)
    requires a * b == 0.0
    ensures a == 0.0 || b == 0.0
  {
  }

  lemma WeightedOdd(delta: real, k: real, S: real)
    requires k != 0.0 && S >= 1.0
    ensures Weighted(-delta, k, S) == -Weighted(delta, k, S)
    ensures Weighted(0.0, k, S) == 0.0
  {
  }

  /** The weighted combination under the final square root. */
  function Combine(m: MathLib, lightness: real, chroma: real, hue: real, rsubT: real): real {
    m.sqrt(Sq(lightness) + Sq(chroma) + Sq(hue) + rsubT * chroma * hue)
  }

  /** The combination only depends on the terms up to a common change of sign. */
  lemma CombineSign(m: MathLib, l: real, c: real, h: real, r: real)
    ensures Combine(m, -l, -c, -h, r) == Combine(m, l, c, h, r)
  {
    assert r * (-c) * (-h) == r * c * h;
  }

  /** What `getDeltaE` computes from the constructor's terms, the two hue angles and the weights. */
  function Finish(m: MathLib, t: Terms, h1: real, h2: real, kL: real, kC: real, kH: real): real
    requires m.Valid() && t.CBarPrime >= 0.0 && t.SsubL >= 1.0 && t.SsubC >= 1.0
    requires kL != 0.0 && kC != 0.0 && kH != 0.0
  {
    var dh := DeltahPrime(t.C1, t.C2, h1, h2);
    var dH := DeltaHPrimeOf(m, t.CPrime1, t.CPrime2, dh);
    var HBar := HBarPrimeOf(h1, h2);
    var SsubH := SsubHOf(t.CBarPrime, TTerm(m, HBar));
    Combine(m, Weighted(t.deltaLPrime, kL, t.SsubL), Weighted(t.deltaCPrime, kC, t.SsubC),
            Weighted(dH, kH, SsubH), RsubTOf(m, t.CBarPrime, HBar))
  }

  /** The whole of `new dE00(color1, color2, weights).getDeltaE()`. */
  function DeltaE(m: MathLib, c1: Lab, c2: Lab, weights: Option<Weights>): real
    requires m.Valid()
  {
    var w := WeightsOrEmpty(weights);
    var t := ConstructorTerms(m, c1, c2);
    Finish(m, t, HPrimeFn(m, c1.B, t.aPrime1), HPrimeFn(m, c2.B, t.aPrime2),
           WeightOr1(w.lightness), WeightOr1(w.chroma), WeightOr1(w.hue))
  }

  /** `Finish` applied to the constructor's terms and the colours' hue angles is `DeltaE`. */
  lemma FinishIsDeltaE(m: MathLib, c1: Lab, c2: Lab, w: Weights, e: real)
    requires m.Valid()
    requires var t := ConstructorTerms(m, c1, c2);
      e == Finish(m, t, HPrimeFn(m, c1.B, t.aPrime1), HPrimeFn(m, c2.B, t.aPrime2),
                  WeightOr1(w.lightness), WeightOr1(w.chroma), WeightOr1(w.hue))
    ensures e == DeltaE(m, c1, c2, Some(w))
  {
  }

  /** The distance from a colour to itself is 0, whatever the weights. */
  lemma DeltaEReflexive(m: MathLib, c: Lab, weights: Option<Weights>)
    requires m.Valid()
    ensures DeltaE(m, c, c, weights) == 0.0
  {
    var w := WeightsOrEmpty(weights);
    var kL, kC, kH := WeightOr1(w.lightness), WeightOr1(w.chroma), WeightOr1(w.hue);
    var t := ConstructorTerms(m, c, c);
    var h := HPrimeFn(m, c.B, t.aPrime1);
    assert DeltahPrime(t.C1, t.C2, h, h) == 0.0;
    DeltaHPrimeOdd(m, t.CPrime1, t.CPrime2, 0.0);
    var SsubH := SsubHOf(t.CBarPrime, TTerm(m, HBarPrimeOf(h, h)));
    WeightedOdd(0.0, kL, t.SsubL);
    WeightedOdd(0.0, kC, t.SsubC);
    WeightedOdd(0.0, kH, SsubH);
    assert Combine(m, 0.0, 0.0, 0.0, RsubTOf(m, t.CBarPrime, HBarPrimeOf(h, h))) == 0.0;
  }

  /** `Finish` is unchanged when the terms are those of the swapped pair and the angles swap. */
  lemma FinishSwap(m: MathLib, t: Terms, u: Terms, h1: real, h2: real, kL: real, kC: real, kH: real)
    requires m.Valid() && t.CBarPrime >= 0.0 && t.SsubL >= 1.0 && t.SsubC >= 1.0
    requires kL != 0.0 && kC != 0.0 && kH != 0.0
    requires u.deltaLPrime == -t.deltaLPrime && u.deltaCPrime == -t.deltaCPrime
    requires u.CPrime1 == t.CPrime2 && u.CPrime2 == t.CPrime1 && u.C1 == t.C2 && u.C2 == t.C1
    requires u.CBarPrime == t.CBarPrime && u.SsubL == t.SsubL && u.SsubC == t.SsubC
    ensures Finish(m, u, h2, h1, kL, kC, kH) == Finish(m, t, h1, h2, kL, kC, kH)
  {
    var dh := DeltahPrime(t.C1, t.C2, h1, h2);
    DeltahPrimeAntisymmetric(t.C1, t.C2, h1, h2);
    DeltaHPrimeOdd(m, t.CPrime1, t.CPrime2, dh);
    var dH := DeltaHPrimeOf(m, t.CPrime1, t.CPrime2, dh);
    assert DeltaHPrimeOf(m, u.CPrime1, u.CPrime2, DeltahPrime(u.C1, u.C2, h2, h1)) == -dH;
    HBarPrimeProperties(h1, h2);
    var HBar := HBarPrimeOf(h1, h2);
    var SsubH := SsubHOf(t.CBarPrime, TTerm(m, HBar));
    WeightedOdd(t.deltaLPrime, kL, t.SsubL);
    WeightedOdd(t.deltaCPrime, kC, t.SsubC);
    WeightedOdd(dH, kH, SsubH);
    CombineSign(m, Weighted(t.deltaLPrime, kL, t.SsubL), Weighted(t.deltaCPrime, kC, t.SsubC),
                Weighted(dH, kH, SsubH), RsubTOf(m, t.CBarPrime, HBar));
  }

  /** The distance is symmetric in its two colours. */
  lemma DeltaESymmetric(m: MathLib, c1: Lab, c2: Lab, weights: Option<Weights>)
    requires m.Valid()
    ensures DeltaE(m, c1, c2, weights) == DeltaE(m, c2, c1, weights)
  {
    var w := WeightsOrEmpty(weights);
    var t, u := ConstructorTerms(m, c1, c2), ConstructorTerms(m, c2, c1);
    SwapSymmetry(m, c1, c2);
    var h1, h2 := HPrimeFn(m, c1.B, t.aPrime1), HPrimeFn(m, c2.B, t.aPrime2);
    FinishSwap(m, t, u, h1, h2, WeightOr1(w.lightness), WeightOr1(w.chroma), WeightOr1(w.hue));
  }

  /**
   * The `dE00` object: the constructor fills the weight and chroma fields, `GetDeltaE` fills
   * the hue fields and returns the distance. The getters read the fields written before them.
   */
  class DE00 {
    const m: MathLib
    var color1: Lab
    var color2: Lab
    var weights: Weights
    var ksubL: real
    var ksubC: real
    var ksubH: real
    var deltaLPrime: real
    var LBar: real
    var C1: real
    var C2: real
    var CBar: real
    var aPrime1: real
    var aPrime2: real
    var CPrime1: real
    var CPrime2: real
    var CBarPrime: real
    var deltaCPrime: real
    var SsubL: real
    var SsubC: real
    var hPrime1: real
    var hPrime2: real
    var deltahPrime: real
    var deltaHPrime: real
    var HBarPrime: real
    var T: real
    var SsubH: real
    var RsubT: real

    /** The terms the constructor stored. */
    function StoredTerms(): Terms
      reads this
    {
      Terms(deltaLPrime, LBar, C1, C2, CBar, aPrime1, aPrime2, CPrime1, CPrime2,
            CBarPrime, deltaCPrime, SsubL, SsubC)
    }

    /** What the later computations rely on: valid maths, the defaulted weights, and the
        signs of the stored chroma and scale terms. */
    ghost predicate Valid()
      reads this
    {
      && m.Valid()
      && ksubL == WeightOr1(weights.lightness)
      && ksubC == WeightOr1(weights.chroma)
      && ksubH == WeightOr1(weights.hue)
      && CBarPrime >= 0.0 && SsubL >= 1.0 && SsubC >= 1.0
    }

    constructor (m: MathLib, color1: Lab, color2: Lab, weights: Option<Weights>)
      requires m.Valid()
      ensures Valid()
      ensures StoredTerms() == ConstructorTerms(m, color1, color2)
      ensures this.m == m && this.color1 == color1 && this.color2 == color2
      ensures this.weights == WeightsOrEmpty(weights)
      ensures ksubL == WeightOr1(this.weights.lightness)
      ensures ksubC == WeightOr1(this.weights.chroma)
      ensures ksubH == WeightOr1(this.weights.hue)
      ensures hPrime1 == 0.0 && hPrime2 == 0.0 && deltahPrime == 0.0 && deltaHPrime == 0.0
      ensures HBarPrime == 0.0 && T == 0.0 && SsubH == 0.0 && RsubT == 0.0
    {
      this.m := m;
      this.color1 := color1;
      this.color2 := color2;
      var w := WeightsOrEmpty(weights);
      this.weights := w;
      ksubL := WeightOr1(w.lightness);
      ksubC := WeightOr1(w.chroma);
      ksubH := WeightOr1(w.hue);
      var t := ConstructorTerms(m, color1, color2);
      deltaLPrime := t.deltaLPrime;
      LBar := t.LBar;
      C1 := t.C1;
      C2 := t.C2;
      CBar := t.CBar;
      aPrime1 := t.aPrime1;
      aPrime2 := t.aPrime2;
      CPrime1 := t.CPrime1;
      CPrime2 := t.CPrime2;
      CBarPrime := t.CBarPrime;
      deltaCPrime := t.deltaCPrime;
      SsubL := t.SsubL;
      SsubC := t.SsubC;
      hPrime1, hPrime2, deltahPrime, deltaHPrime := 0.0, 0.0, 0.0, 0.0;
      HBarPrime, T, SsubH, RsubT := 0.0, 0.0, 0.0, 0.0;
    }

    function GethPrime1(): real reads this { HPrimeFn(m, color1.B, aPrime1) }
    function GethPrime2(): real reads this { HPrimeFn(m, color2.B, aPrime2) }
    function GetDeltahPrime(): real reads this { DeltahPrime(C1, C2, hPrime1, hPrime2) }
    function GetHBarPrime(): real reads this { HBarPrimeOf(hPrime1, hPrime2) }

    function GetT(): real
      reads this
      requires m.Valid()
    {
      TTerm(m, HBarPrime)
    }

    function GetRsubT(): real
      reads this
      requires m.Valid() && CBarPrime >= 0.0
    {
      RsubTOf(m, CBarPrime, HBarPrime)
    }

    /** The angle part of `getDeltaE`: writes h′1, h′2, Δh′ and ΔH′ in the source's order. */
    method WriteAngleTerms()
      requires Valid()
      modifies this
      ensures Valid()
      ensures color1 == old(color1) && color2 == old(color2) && weights == old(weights)
      ensures StoredTerms() == old(StoredTerms())
      ensures hPrime1 == HPrimeFn(m, color1.B, aPrime1) && hPrime2 == HPrimeFn(m, color2.B, aPrime2)
      ensures deltahPrime == DeltahPrime(C1, C2, hPrime1, hPrime2)
      ensures deltaHPrime == DeltaHPrimeOf(m, CPrime1, CPrime2, deltahPrime)
    {
      var h1, h2 := GethPrime1(), GethPrime2();
      var dh := DeltahPrime(C1, C2, h1, h2);
      hPrime1, hPrime2, deltahPrime, deltaHPrime := h1, h2, dh, DeltaHPrimeOf(m, CPrime1, CPrime2, dh);
    }

    /** The weighting part of `getDeltaE`: writes H̄′, T, S_H and R_T in the source's order,
        from the angles written before. */
    method WriteWeightTerms()
      requires Valid()
      modifies this
      ensures Valid()
      ensures color1 == old(color1) && color2 == old(color2) && weights == old(weights)
      ensures StoredTerms() == old(StoredTerms())
      ensures hPrime1 == old(hPrime1) && hPrime2 == old(hPrime2)
      ensures deltahPrime == old(deltahPrime) && deltaHPrime == old(deltaHPrime)
      ensures HBarPrime == HBarPrimeOf(hPrime1, hPrime2)
      ensures T == TTerm(m, HBarPrime) && SsubH == SsubHOf(CBarPrime, T)
      ensures RsubT == RsubTOf(m, CBarPrime, HBarPrime)
    {
      var hBar := GetHBarPrime();
      var t := TTerm(m, hBar);
      HBarPrime, T, SsubH, RsubT := hBar, t, SsubHOf(CBarPrime, t), RsubTOf(m, CBarPrime, hBar);
    }

    /** The first half of `getDeltaE`: writes the hue fields in the source's order, each from
        the fields written before it. */
    method WriteHueTerms()
      requires Valid()
      modifies this
      ensures Valid()
      ensures color1 == old(color1) && color2 == old(color2) && weights == old(weights)
      ensures StoredTerms() == old(StoredTerms())
      ensures hPrime1 == HPrimeFn(m, color1.B, aPrime1) && hPrime2 == HPrimeFn(m, color2.B, aPrime2)
      ensures deltahPrime == DeltahPrime(C1, C2, hPrime1, hPrime2)
      ensures deltaHPrime == DeltaHPrimeOf(m, CPrime1, CPrime2, deltahPrime)
      ensures HBarPrime == HBarPrimeOf(hPrime1, hPrime2)
      ensures T == TTerm(m, HBarPrime) && SsubH == SsubHOf(CBarPrime, T)
      ensures RsubT == RsubTOf(m, CBarPrime, HBarPrime)
    {
      WriteAngleTerms();
      WriteWeightTerms();
    }

    /** `getDeltaE`: writes the hue fields and returns the weighted distance built from the
        stored terms; on an object the constructor built, `FinishIsDeltaE` turns this into
        `DeltaE` of the two colours under the object's weights. */
    method GetDeltaE() returns (e: real)
      requires Valid()
      modifies this
      ensures Valid()
      ensures e == Finish(m, StoredTerms(), hPrime1, hPrime2, ksubL, ksubC, ksubH)
      ensures color1 == old(color1) && color2 == old(color2) && weights == old(weights)
      ensures StoredTerms() == old(StoredTerms())
      ensures hPrime1 == HPrimeFn(m, color1.B, aPrime1) && hPrime2 == HPrimeFn(m, color2.B, aPrime2)
      ensures deltahPrime == DeltahPrime(C1, C2, hPrime1, hPrime2)
      ensures deltaHPrime == DeltaHPrimeOf(m, CPrime1, CPrime2, deltahPrime)
      ensures HBarPrime == HBarPrimeOf(hPrime1, hPrime2)
      ensures T == TTerm(m, HBarPrime) && SsubH == SsubHOf(CBarPrime, T)
      ensures RsubT == RsubTOf(m, CBarPrime, HBarPrime)
    {
      WriteHueTerms();
      var lightness := Weighted(deltaLPrime, ksubL, SsubL);
      var chroma := Weighted(deltaCPrime, ksubC, SsubC);
      var hue := Weighted(deltaHPrime, ksubH, SsubH);
      e := Combine(m, lightness, chroma, hue, RsubT);
    }
  }
}
