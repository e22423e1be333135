/**
 * Comparison of colours and of colour groups: the CIEDE2000 entry point for RGB colours,
 * the duplicated hue helpers, the group distance and the average of a list of numbers.
 */
module Comparison {
  import opened Types
  import opened Sorting
  import opened DeltaE00

  /** `deltaE2000(color1, color2)`: both colours are converted with `toLab` (the RGB to Lab
      conversion, not part of this model) and compared with default weights. */
  function DeltaE2000(m: MathLib, toLab: Color -> Lab, color1: Color, color2: Color): real
    requires m.Valid()
  {
    DeltaE(m, toLab(color1), toLab(color2), None)
  }

  /** The entry point builds a `dE00` object and asks it for the distance. */
  method ComputeDeltaE2000(m: MathLib, toLab: Color -> Lab, color1: Color, color2: Color)
    returns (e: real)
    requires m.Valid()
    ensures e == DeltaE2000(m, toLab, color1, color2)
  {
    var d := new DE00(m, toLab(color1), toLab(color2), None);
    e := d.GetDeltaE();
    FinishIsDeltaE(m, toLab(color1), toLab(color2), Weights(None, None, None), e);
  }

  /** The RGB distance is 0 from a colour to itself and symmetric. */
  lemma DeltaE2000Metric(m: MathLib, toLab: Color -> Lab, c1: Color, c2: Color)
    requires m.Valid()
    ensures DeltaE2000(m, toLab, c1, c1) == 0.0
    ensures DeltaE2000(m, toLab, c1, c2) == DeltaE2000(m, toLab, c2, c1)
  {
    DeltaEReflexive(m, toLab(c1), None);
    DeltaESymmetric(m, toLab(c1), toLab(c2), None);
  }

  /** `calculateLabAngle(b, a)`: `atan2(b, a)` in degrees, moved into [0, 360). */
  function CalculateLabAngle(m: MathLib, b: real, a: real): real {
    var angle := RadiansToDegrees(m.atan2(b, a));
    if angle < 0.0 then angle + 360.0 else angle
  }

  /** The duplicated angle helper agrees with the class's `_gethPrimeFn` everywhere, and so
      lies in [0, 360). */
  lemma CalculateLabAngleAgrees(m: MathLib, b: real, a: real)
    requires m.Valid()
    ensures CalculateLabAngle(m, b, a) == HPrimeFn(m, b, a)
    ensures 0.0 <= CalculateLabAngle(m, b, a) < 360.0
  {
    if b == 0.0 && a == 0.0 {
      assert RadiansToDegrees(0.0) == 0.0;
    }
    HPrimeRange(m, b, a);
  }

  /** `calculateDeltaHPrime(h1prime, h2prime, C1prime, C2prime)`. */
  function CalculateDeltaHPrime(h1prime: real, h2prime: real, C1prime: real, C2prime: real): real {
    var deltaHPrime := h2prime - h1prime;
    if C1prime * C2prime == 0.0 then 0.0
    else if RealAbs(deltaHPrime) <= 180.0 then deltaHPrime
    else if deltaHPrime > 180.0 then deltaHPrime - 360.0
    else deltaHPrime + 360.0
  }

  /** The duplicated hue-difference helper agrees with `getDeltahPrime` on all inputs: a zero
      product of chromas is the same test as one chroma being 0, and the two wrap branches
      are the same cases written the other way round. */
  lemma CalculateDeltaHPrimeAgrees(h1: real, h2: real, C1: real, C2: real)
    ensures CalculateDeltaHPrime(h1, h2, C1, C2) == DeltahPrime(C1, C2, h1, h2)
  {
    if C1 * C2 == 0.0 {
      ZeroProduct(C1, C2);
    } else {
      assert C1 != 0.0 && C2 != 0.0;
    }
  }

  /** `arr.reduce((sum, num) => sum + num, 0)`, folding from the left. */
  function Sum(arr: seq<real>): real
    decreases |arr|
  {
    if |arr| == 0 then 0.0 else Sum(arr[..|arr| - 1]) + arr[|arr| - 1]
  }

  /** `average(arr)`: the sum over the length; `None` stands for the `NaN` of an empty list. */
  function Average(arr: seq<real>): (r: Option<real>)
    ensures r.None? <==> |arr| == 0
    ensures r.Some? ==> r.value * |arr| as real == Sum(arr)
  {
    if |arr| == 0 then None else Some(Sum(arr) / |arr| as real)
  }

  /** A sum of values in [lo, hi] lies between |arr| * lo and |arr| * hi. */
  lemma {:induction false} SumBounds(arr: seq<real>, lo: real, hi: real)
    requires forall i :: 0 <= i < |arr| ==> lo <= arr[i] <= hi
    ensures |arr| as real * lo <= Sum(arr) <= |arr| as real * hi
    decreases |arr|
  {
    if |arr| > 0 {
      var init := arr[..|arr| - 1];
      assert forall i :: 0 <= i < |init| ==> init[i] == arr[i];
      SumBounds(init, lo, hi);
    }
  }

  /** The average of a non-empty list lies between its lower and upper bounds; in particular
      the average of a constant list is that constant. */
  lemma AverageBounds(arr: seq<real>, lo: real, hi: real)
    requires |arr| > 0
    requires forall i :: 0 <= i < |arr| ==> lo <= arr[i] <= hi
    ensures lo <= Average(arr).value <= hi
  {
    SumBounds(arr, lo, hi);
    QuotientBetween(Sum(arr), |arr| as real, lo, hi);
  }

  lemma QuotientBetween(x: real, n: real, lo: real, hi: real)
    requires n > 0.0 && n * lo <= x <= n * hi
    ensures lo <= x / n <= hi
  {
  }

  /** The distances of the pairs `(A[i], B[i])` for `i` below the shorter length. */
  function PairedDistances(A: seq<Color>, B: seq<Color>, dist: (Color, Color) -> real): (d: seq<real>)
    ensures |d| == MinOf(|A|, |B|)
    ensures forall i :: 0 <= i < |d| ==> d[i] == dist(A[i], B[i])
    decreases |A|
  {
    if |A| == 0 || |B| == 0 then [] else [dist(A[0], B[0])] + PairedDistances(A[1..], B[1..], dist)
  }

  /** `groupA[i] || groupA[groupA.length - 1]`: an index outside the group falls back to the
      last colour. */
  function Pick(group: seq<Color>, i: int): (c: Color)
    requires |group| > 0
    ensures c in group
    ensures 0 <= i < |group| ==> c == group[i]
    ensures !(0 <= i < |group|) ==> c == group[|group| - 1]
  {
    if 0 <= i < |group| then group[i] else group[|group| - 1]
  }

  /**
   * The loop of `deltaE2000Groups`: `index` runs from `-midPoint` up to
   * `minLength - midPoint` and each step pushes the distance of `groupA[index + midPoint]`
   * and `groupB[index + midPoint]` (with the shorter-array fallback). The paired index runs
   * over exactly `0 .. minLength - 1`, so the loop makes `minLength` steps, the fallbacks are
   * never taken and position `i` holds the distance of the two colours at position `i`.
   */
  method PairDistances(groupA: array<Color>, groupB: array<Color>, dist: (Color, Color) -> real)
    returns (diffValues: seq<real>)
    ensures diffValues == PairedDistances(groupA[..], groupB[..], dist)
  {
    diffValues := [];
    var minLength := MinOf(groupA.Length, groupB.Length);
    var maxLength := MaxOf(groupA.Length, groupB.Length);
    var midPoint := maxLength / 2;
    ghost var paired := PairedDistances(groupA[..], groupB[..], dist);
    var index := -midPoint;
    while index < minLength - midPoint
      invariant -midPoint <= index <= minLength - midPoint
      invariant diffValues == paired[..index + midPoint]
    {
      var color1 := Pick(groupA[..], index + midPoint);
      var color2 := Pick(groupB[..], index + midPoint);
      diffValues := diffValues + [dist(color1, color2)];
      index := index + 1;
    }
    assert paired[..minLength] == paired;
  }

  /**
   * `deltaE2000Groups(groupA, groupB)`: sorts both groups in place by lightness and averages
   * the distances of the colours at equal positions of the sorted groups; `None` (the `NaN`
   * of an empty average) when either group is empty. The same array may be passed twice.
   */
  method DeltaE2000Groups(groupA: array<Color>, groupB: array<Color>, dist: (Color, Color) -> real)
    returns (r: Option<real>)
    modifies groupA, groupB
    ensures r == Average(PairedDistances(groupA[..], groupB[..], dist))
    ensures r.None? <==> groupA.Length == 0 || groupB.Length == 0
    ensures SortedBy(groupA[..], Lightness) && SortedBy(groupB[..], Lightness)
    ensures multiset(groupA[..]) == multiset(old(groupA[..]))
    ensures multiset(groupB[..]) == multiset(old(groupB[..]))
    ensures SortedBy(old(groupA[..]), Lightness) ==> groupA[..] == old(groupA[..])
    ensures SortedBy(old(groupB[..]), Lightness) ==> groupB[..] == old(groupB[..])
  {
    var a := SortColorsByLightness(groupA);
    var b := SortColorsByLightness(groupB);
    var diffValues := PairDistances(a, b, dist);
    r := Average(diffValues);
  }
}
