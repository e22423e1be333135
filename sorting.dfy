/** In-place colour sorts keyed by one HSL component (`Array.prototype.sort`). */
module Sorting {
  import opened Types
  import opened Conversion

  /** Nondecreasing under `key`. */
  predicate SortedBy(s: seq<Color>, key: Color -> real) {
    forall i, j :: 0 <= i < j < |s| ==> key(s[i]) <= key(s[j])
  }

  function Lightness(c: Color): real { RgbToHsl(c).l }
  function Hue(c: Color): real { RgbToHsl(c).h }
  function Saturation(c: Color): real { RgbToHsl(c).s }

  /** The integer lightness key `max + min`, which orders colours exactly as HSL lightness does. */
  function LightKey(c: Color): int { MaxChannel(c) + MinChannel(c) }

  /** Sorted by HSL lightness if and only if sorted by the channel key `max + min`. */
  lemma SortedByLightnessIffByKey(s: seq<Color>)
    ensures SortedBy(s, Lightness) <==>
            forall i, j :: 0 <= i < j < |s| ==> LightKey(s[i]) <= LightKey(s[j])
  {
    forall i, j | 0 <= i < j < |s| {
      LightnessOrder(s[i], s[j]);
    }
  }

  /** Swaps the adjacent elements at `k - 1` and `k`; the multiset is unchanged. */
  method SwapDown(a: array<Color>, k: int)
    requires 0 < k < a.Length
    modifies a
    ensures a[..] == old(a[..])[k - 1 := old(a[k])][k := old(a[k - 1])]
    ensures multiset(a[..]) == multiset(old(a[..]))
  {
    a[k - 1], a[k] := a[k], a[k - 1];
  }

  /** One insertion step: moves `a[i]` left past every strictly larger element of the sorted
      prefix `a[..i]`, so that `a[..i + 1]` is sorted; nothing from `i + 1` on is touched. */
  method InsertStep(a: array<Color>, i: int, key: Color -> real)
    requires 0 < i < a.Length
    requires forall p, q :: 0 <= p < q < i ==> key(a[p]) <= key(a[q])
    modifies a
    ensures forall p, q :: 0 <= p < q <= i ==> key(a[p]) <= key(a[q])
    ensures multiset(a[..]) == multiset(old(a[..]))
    ensures key(old(a[i - 1])) <= key(old(a[i])) ==> a[..] == old(a[..])
  {
    var j := i;
    while j > 0 && key(a[j - 1]) > key(a[j])
      invariant 0 <= j <= i
      invariant forall p, q :: 0 <= p < q <= i && p != j && q != j ==> key(a[p]) <= key(a[q])
      invariant forall q :: j < q <= i ==> key(a[j]) <= key(a[q])
      invariant multiset(a[..]) == multiset(old(a[..]))
      invariant key(old(a[i - 1])) <= key(old(a[i])) ==> j == i && a[..] == old(a[..])
    {
      SwapDown(a, j);
      j := j - 1;
    }
  }

  /**
   * `colors.sort(compare)` with `compare(x, y) = key(x) - key(y)`: an insertion sort that
   * only swaps adjacent elements that are strictly out of order. The result is ordered by
   * `key`, is a permutation of the input, and an input already in order is left as it is.
   */
  method SortByKey(a: array<Color>, key: Color -> real)
    modifies a
    ensures SortedBy(a[..], key)
    ensures multiset(a[..]) == multiset(old(a[..]))
    ensures SortedBy(old(a[..]), key) ==> a[..] == old(a[..])
  {
    if a.Length == 0 {
      return;
    }
    var i := 1;
    while i < a.Length
      invariant 1 <= i <= a.Length
      invariant forall p, q :: 0 <= p < q < i ==> key(a[p]) <= key(a[q])
      invariant multiset(a[..]) == multiset(old(a[..]))
      invariant SortedBy(old(a[..]), key) ==> a[..] == old(a[..])
    {
      InsertStep(a, i, key);
      i := i + 1;
    }
  }

  /** `sortColorsByLightness`: sorts the given array in place and returns that same array. */
  method SortColorsByLightness(colors: array<Color>) returns (r: array<Color>)
    modifies colors
    ensures r == colors
    ensures SortedBy(colors[..], Lightness)
    ensures multiset(colors[..]) == multiset(old(colors[..]))
    ensures SortedBy(old(colors[..]), Lightness) ==> colors[..] == old(colors[..])
  {
    SortByKey(colors, Lightness);
    r := colors;
  }

  /** `sortColorsByHue`: the same in-place sort, keyed by HSL component 0. */
  method SortColorsByHue(colors: array<Color>) returns (r: array<Color>)
    modifies colors
    ensures r == colors
    ensures SortedBy(colors[..], Hue)
    ensures multiset(colors[..]) == multiset(old(colors[..]))
    ensures SortedBy(old(colors[..]), Hue) ==> colors[..] == old(colors[..])
  {
    SortByKey(colors, Hue);
    r := colors;
  }

  /** `sortColorBySaturation`: the same in-place sort, keyed by HSL component 1. */
  method SortColorBySaturation(colors: array<Color>) returns (r: array<Color>)
    modifies colors
    ensures r == colors
    ensures SortedBy(colors[..], Saturation)
    ensures multiset(colors[..]) == multiset(old(colors[..]))
    ensures SortedBy(old(colors[..]), Saturation) ==> colors[..] == old(colors[..])
  {
    SortByKey(colors, Saturation);
    r := colors;
  }
}
