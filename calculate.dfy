/**
 * The shade calculation: unpacking the pixels of the rectangles, sorting and pruning them,
 * comparing the tooth colours with every shade and picking the nearest shade.
 * The canvas is the function `image` from a rectangle to its RGBA bytes
 * (`getImageData(rect).data`); the colour distance is the function `dist`.
 */
module Calculate {
  import opened Types
  import opened Data
  import opened Sorting
  import opened Comparison

  /** The threshold a colour's distance to the median must stay below to survive pruning. */
  const PruneThreshold: real := 15.0

  /** Image data holds whole RGBA pixels, four bytes each. */
  ghost predicate WholePixels(image: Rect -> seq<Byte>) {
    forall rect :: |image(rect)| % 4 == 0
  }

  /** The colours of an RGBA buffer: one colour per four bytes, alpha dropped. */
  function Unpack(data: seq<Byte>): (colors: seq<Color>)
    requires |data| % 4 == 0
    ensures |colors| == |data| / 4
    ensures forall i :: 0 <= i < |colors| ==>
      colors[i] == Color(data[4 * i], data[4 * i + 1], data[4 * i + 2])
    decreases |data|
  {
    if |data| == 0 then []
    else [Color(data[0], data[1], data[2])] + Unpack(data[4..])
  }

  /** An RGBA buffer for a list of colours, with the given alpha byte. */
  function Pack(colors: seq<Color>, alpha: Byte): (data: seq<Byte>)
    ensures |data| == 4 * |colors|
  {
    if |colors| == 0 then []
    else [colors[0].r, colors[0].g, colors[0].b, alpha] + Pack(colors[1..], alpha)
  }

  /** Unpacking a packed buffer gives back the colours, whatever the alpha. */
  lemma {:induction false} UnpackPack(colors: seq<Color>, alpha: Byte)
    ensures Unpack(Pack(colors, alpha)) == colors
  {
    if |colors| > 0 {
      var data := Pack(colors, alpha);
      assert data[4..] == Pack(colors[1..], alpha);
      UnpackPack(colors[1..], alpha);
    }
  }

  /** `rectangle2AllColors(rect, ctx)`: walks the buffer four bytes at a time and pushes the
      red, green and blue bytes of each pixel. */
  method Rectangle2AllColors(rect: Rect, image: Rect -> seq<Byte>) returns (allColors: seq<Color>)
    requires WholePixels(image)
    ensures allColors == Unpack(image(rect))
  {
    allColors := [];
    var data := image(rect);
    assert |data| % 4 == 0;
    var index := 0;
    while index < |data|
      invariant 0 <= index <= |data| && index % 4 == 0
      invariant allColors == Unpack(data)[..index / 4]
    {
      allColors := allColors + [Color(data[index], data[index + 1], data[index + 2])];
      index := index + 4;
    }
  }

  /** The area the colours come from: one rectangle or a list of them. */
  datatype Area = Single(rect: Rect) | Several(rects: seq<Rect>)

  function AreaRects(area: Area): seq<Rect> {
    if area.Single? then [area.rect] else area.rects
  }

  /** `rect.map((x) => rectangle2AllColors(x, ctx)).flat()`: the per-rectangle colour lists,
      concatenated in order. */
  function Gathered(rects: seq<Rect>, image: Rect -> seq<Byte>): seq<Color>
    requires WholePixels(image)
  {
    if |rects| == 0 then [] else Gathered(rects[..|rects| - 1], image) + Unpack(image(rects[|rects| - 1]))
  }

  /** Gathering one more rectangle appends its colours; a single rectangle gives its own. */
  lemma GatheredAppend(rects: seq<Rect>, rect: Rect, image: Rect -> seq<Byte>)
    requires WholePixels(image)
    ensures Gathered(rects + [rect], image) == Gathered(rects, image) + Unpack(image(rect))
    ensures Gathered([rect], image) == Unpack(image(rect))
  {
    assert (rects + [rect])[..|rects|] == rects;
  }

  /** The colours of a gathered list are, with multiplicity, those of its rectangles. */
  lemma {:induction false} GatheredCount(rects: seq<Rect>, image: Rect -> seq<Byte>)
    requires WholePixels(image)
    ensures |Gathered(rects, image)| == SumQuarters(rects, image)
    decreases |rects|
  {
    if |rects| > 0 {
      GatheredCount(rects[..|rects| - 1], image);
    }
  }

  function SumQuarters(rects: seq<Rect>, image: Rect -> seq<Byte>): nat
    decreases |rects|
  {
    if |rects| == 0 then 0 else SumQuarters(rects[..|rects| - 1], image) + |image(rects[|rects| - 1])| / 4
  }

  /** `colors.filter(keep)`. */
  function Filter(colors: seq<Color>, keep: Color -> bool): (r: seq<Color>)
    ensures |r| <= |colors|
    ensures forall c :: c in r <==> c in colors && keep(c)
    ensures forall c :: multiset(r)[c] == if keep(c) then multiset(colors)[c] else 0
    decreases |colors|
  {
    if |colors| == 0 then []
    else
      assert colors == [colors[0]] + colors[1..];
      if keep(colors[0]) then [colors[0]] + Filter(colors[1..], keep)
      else Filter(colors[1..], keep)
  }

  /** Filtering keeps the order of what it keeps: a sorted list stays sorted. */
  lemma {:induction false} FilterSorted(colors: seq<Color>, keep: Color -> bool, key: Color -> real)
    requires SortedBy(colors, key)
    ensures SortedBy(Filter(colors, keep), key)
    decreases |colors|
  {
    if |colors| > 0 {
      var rest := colors[1..];
      assert SortedBy(rest, key) by {
        forall i, j | 0 <= i < j < |rest| ensures key(rest[i]) <= key(rest[j]) {
          assert rest[i] == colors[i + 1] && rest[j] == colors[j + 1];
        }
      }
      FilterSorted(rest, keep, key);
      if keep(colors[0]) {
        var r := [colors[0]] + Filter(rest, keep);
        forall i, j | 0 <= i < j < |r| ensures key(r[i]) <= key(r[j]) {
          if i == 0 {
            assert r[j] in rest;
            var k :| 0 <= k < |rest| && rest[k] == r[j];
            assert colors[k + 1] == r[j];
          }
        }
      }
    }
  }

  /** The pruning step: the colours whose distance to the median colour (the one at index
      `floor(length / 2)` of the sorted list) is below the threshold; empty for an empty list. */
  function Prune(sorted: seq<Color>, dist: (Color, Color) -> real): seq<Color> {
    if |sorted| == 0 then []
    else
      var medianColor := sorted[|sorted| / 2];
      Filter(sorted, c => dist(c, medianColor) < PruneThreshold)
  }

  /** The pruned list contains exactly the colours close to the median, each as often as in
      the input, keeps the sort order, and is not empty when the input is not and the median
      is close to itself. */
  lemma PruneProperties(sorted: seq<Color>, dist: (Color, Color) -> real)
    requires SortedBy(sorted, Lightness)
    ensures SortedBy(Prune(sorted, dist), Lightness)
    ensures |sorted| > 0 ==> forall c ::
      c in Prune(sorted, dist) <==> c in sorted && dist(c, sorted[|sorted| / 2]) < PruneThreshold
    ensures |sorted| > 0 ==> forall c :: multiset(Prune(sorted, dist))[c] ==
                                 if dist(c, sorted[|sorted| / 2]) < PruneThreshold then multiset(sorted)[c] else 0
    ensures |sorted| > 0 && dist(sorted[|sorted| / 2], sorted[|sorted| / 2]) < PruneThreshold ==>
      sorted[|sorted| / 2] in Prune(sorted, dist)
  {
    if |sorted| > 0 {
      var medianColor := sorted[|sorted| / 2];
      FilterSorted(sorted, c => dist(c, medianColor) < PruneThreshold, Lightness);
    }
  }

  /** `rect.map((x) => rectangle2AllColors(x, ctx)).flat()`, one rectangle at a time. */
  method GatherColors(rects: seq<Rect>, image: Rect -> seq<Byte>) returns (allColors: seq<Color>)
    requires WholePixels(image)
    ensures allColors == Gathered(rects, image)
  {
    allColors := [];
    var k := 0;
    while k < |rects|
      invariant 0 <= k <= |rects|
      invariant allColors == Gathered(rects[..k], image)
    {
      var colors := Rectangle2AllColors(rects[k], image);
      GatheredAppend(rects[..k], rects[k], image);
      assert rects[..k + 1] == rects[..k] + [rects[k]];
      allColors := allColors + colors;
      k := k + 1;
    }
    assert rects[..k] == rects;
  }

  /** Pruning a sorted permutation of a list keeps exactly the list's colours that are close
      to the median of the sorted order, each as often as in the list. */
  lemma PruneOfPermutation(sorted: seq<Color>, colors: seq<Color>, dist: (Color, Color) -> real)
    requires SortedBy(sorted, Lightness) && multiset(sorted) == multiset(colors)
    ensures SortedBy(Prune(sorted, dist), Lightness)
    ensures |sorted| == |colors|
    ensures |sorted| > 0 ==> forall c :: c in Prune(sorted, dist) <==>
      c in colors && dist(c, sorted[|sorted| / 2]) < PruneThreshold
    ensures |sorted| > 0 ==> forall c :: multiset(Prune(sorted, dist))[c] ==
                                 if dist(c, sorted[|sorted| / 2]) < PruneThreshold then multiset(colors)[c] else 0
  {
    PruneProperties(sorted, dist);
    assert |sorted| == |multiset(sorted)| == |colors|;
    forall c ensures c in sorted <==> c in colors {
      assert c in sorted <==> c in multiset(sorted);
      assert c in colors <==> c in multiset(colors);
    }
  }

  /** A new array holding the given colours. */
  method ToArray(colors: seq<Color>) returns (a: array<Color>)
    ensures fresh(a) && a[..] == colors
  {
    a := new Color[|colors|](i requires 0 <= i < |colors| => colors[i]);
  }

  /**
   * `rectangle2SortedColors(rect, n, ctx)`: gathers the colours of the area, sorts them in
   * place by lightness and keeps those close to the median colour. `sorted` is the list after
   * sorting: a lightness-sorted permutation of the gathered colours.
   */
  method Rectangle2SortedColors(area: Area, image: Rect -> seq<Byte>, dist: (Color, Color) -> real)
    returns (result: seq<Color>, ghost sorted: seq<Color>)
    requires WholePixels(image)
    ensures SortedBy(sorted, Lightness)
    ensures multiset(sorted) == multiset(Gathered(AreaRects(area), image))
    ensures result == Prune(sorted, dist)
    ensures SortedBy(result, Lightness)
    ensures |sorted| == 0 ==> result == []
    ensures |sorted| > 0 ==> forall c :: c in result <==>
      c in Gathered(AreaRects(area), image) && dist(c, sorted[|sorted| / 2]) < PruneThreshold
  {
    var allColors := GatherColors(AreaRects(area), image);
    var a := ToArray(allColors);
    a := SortColorsByLightness(a);
    sorted := a[..];
    if a.Length == 0 {
      result := [];
    } else {
      var medianColor := a[a.Length / 2];
      result := Filter(a[..], c => dist(c, medianColor) < PruneThreshold);
    }
    PruneOfPermutation(sorted, Gathered(AreaRects(area), image), dist);
  }

  /** The `<` of two possibly-NaN numbers (`None` is NaN): false when either is NaN. */
  predicate Less(x: Option<real>, y: Option<real>) {
    x.Some? && y.Some? && x.value < y.value
  }

  /** `arr.reduce((minIndex, v, i, array) => v < array[minIndex] ? i : minIndex, 0)` over the
      first `n` entries. */
  function FindMinIndexPrefix(arr: seq<Option<real>>, n: nat): (r: nat)
    requires n <= |arr|
    ensures n == 0 ==> r == 0
    ensures n > 0 ==> r < n
    ensures r > 0 ==> arr[r].Some?
  {
    if n == 0 then 0
    else
      var minIndex := FindMinIndexPrefix(arr, n - 1);
      if Less(arr[n - 1], arr[minIndex]) then n - 1 else minIndex
  }

  /** `findMinIndex(arr)`: 0 for an empty list. */
  function FindMinIndex(arr: seq<Option<real>>): nat {
    FindMinIndexPrefix(arr, |arr|)
  }

  /** When every entry is a number, `findMinIndex` is the first index of a minimum. */
  lemma {:induction false} FindMinIndexIsFirstMinimum(arr: seq<Option<real>>, n: nat)
    requires 0 < n <= |arr|
    requires forall i :: 0 <= i < |arr| ==> arr[i].Some?
    ensures var r := FindMinIndexPrefix(arr, n);
      && r < n
      && (forall i :: 0 <= i < n ==> arr[r].value <= arr[i].value)
      && (forall i :: 0 <= i < r ==> arr[r].value < arr[i].value)
  {
    if n > 1 {
      FindMinIndexIsFirstMinimum(arr, n - 1);
    }
  }

  /** A NaN in front poisons the comparison: nothing is less than it, so the result is 0. */
  lemma {:induction false} FindMinIndexNaNFirst(arr: seq<Option<real>>, n: nat)
    requires 0 < n <= |arr| && arr[0].None?
    ensures FindMinIndexPrefix(arr, n) == 0
  {
    if n > 1 {
      FindMinIndexNaNFirst(arr, n - 1);
    }
  }

  /** The group distance from the teeth colours to every shade's colours. */
  function ShadeDeltas(teeth: seq<Color>, shades: seq<seq<Color>>, dist: (Color, Color) -> real)
    : (deltas: seq<Option<real>>)
    ensures |deltas| == |shades|
    ensures forall i :: 0 <= i < |shades| ==> deltas[i] == Average(PairedDistances(teeth, shades[i], dist))
  {
    seq(|shades|, i requires 0 <= i < |shades| => Average(PairedDistances(teeth, shades[i], dist)))
  }

  /** `pruned` is what `rectangle2SortedColors` makes of `colors`: `sorted` is a lightness-sorted
      permutation of them, and `pruned` keeps the entries of `sorted` close to its median. */
  ghost predicate PrunedFrom(pruned: seq<Color>, sorted: seq<Color>, colors: seq<Color>,
                             dist: (Color, Color) -> real) {
    SortedBy(sorted, Lightness) && multiset(sorted) == multiset(colors) && pruned == Prune(sorted, dist)
  }

  /** One step of `shadesColors.map(...)` and `deltas.map(...)`: prunes the colours of one
      shade rectangle and compares the (already sorted, so unchanged) teeth colours with them. */
  method ShadeDelta(teethArray: array<Color>, shade: Rect, image: Rect -> seq<Byte>,
                    dist: (Color, Color) -> real)
    returns (delta: Option<real>, ghost shadeColors: seq<Color>, ghost sortedShade: seq<Color>)
    requires WholePixels(image)
    requires SortedBy(teethArray[..], Lightness)
    modifies teethArray
    ensures teethArray[..] == old(teethArray[..])
    ensures delta == Average(PairedDistances(teethArray[..], shadeColors, dist))
    ensures PrunedFrom(shadeColors, sortedShade, Unpack(image(shade)), dist)
  {
    var colors;
    colors, sortedShade := Rectangle2SortedColors(Single(shade), image, dist);
    GatheredAppend([], shade, image);
    shadeColors := colors;
    var shadeArray := ToArray(colors);
    delta := DeltaE2000Groups(teethArray, shadeArray, dist);
  }

  /** Appending one shade appends its group distance. */
  lemma ShadeDeltasAppend(teeth: seq<Color>, shades: seq<seq<Color>>, s: seq<Color>, dist: (Color, Color) -> real)
    ensures ShadeDeltas(teeth, shades + [s], dist) == ShadeDeltas(teeth, shades, dist) + [Average(PairedDistances(teeth, s, dist))]
  {
    var l, r := ShadeDeltas(teeth, shades + [s], dist), ShadeDeltas(teeth, shades, dist) + [Average(PairedDistances(teeth, s, dist))];
    assert |l| == |r|;
    forall i | 0 <= i < |l| ensures l[i] == r[i] {
      if i < |shades| {
        assert (shades + [s])[i] == shades[i];
      }
    }
  }

  /** Each shade colour list is what `rectangle2SortedColors` makes of its rectangle, through
      the matching sorted list. */
  ghost predicate ShadesFrom(shades: seq<seq<Color>>, sortedShades: seq<seq<Color>>, shadeRects: seq<Rect>,
                             image: Rect -> seq<Byte>, dist: (Color, Color) -> real)
    requires WholePixels(image) && |shades| == |sortedShades| <= |shadeRects|
  {
    forall i :: 0 <= i < |shades| ==> PrunedFrom(shades[i], sortedShades[i], Unpack(image(shadeRects[i])), dist)
  }

  /** The deltas of `findNearestShadeIndex`: one group distance per shade rectangle, in order. */
  method CompareShades(teethArray: array<Color>, shadeRects: seq<Rect>, image: Rect -> seq<Byte>,
                       dist: (Color, Color) -> real)
    returns (deltas: seq<Option<real>>, ghost shades: seq<seq<Color>>, ghost sortedShades: seq<seq<Color>>)
    requires WholePixels(image)
    requires SortedBy(teethArray[..], Lightness)
    modifies teethArray
    ensures teethArray[..] == old(teethArray[..])
    ensures |shades| == |sortedShades| == |shadeRects|
    ensures deltas == ShadeDeltas(teethArray[..], shades, dist)
    ensures ShadesFrom(shades, sortedShades, shadeRects, image, dist)
  {
    ghost var teeth := teethArray[..];
    deltas, shades, sortedShades := [], [], [];
    var k := 0;
    while k < |shadeRects|
      invariant 0 <= k <= |shadeRects|
      invariant |shades| == |sortedShades| == k
      invariant teethArray[..] == teeth
      invariant deltas == ShadeDeltas(teeth, shades, dist)
      invariant ShadesFrom(shades, sortedShades, shadeRects, image, dist)
    {
      var delta, shadeColors, sortedShade := ShadeDelta(teethArray, shadeRects[k], image, dist);
      ShadeDeltasAppend(teeth, shades, shadeColors, dist);
      shades, sortedShades := shades + [shadeColors], sortedShades + [sortedShade];
      deltas := deltas + [delta];
      k := k + 1;
    }
  }

  /**
   * `findNearestShadeIndex(ctx)`: -1 unless there are both shade and tooth rectangles;
   * otherwise the index `findMinIndex` picks among the group distances from the pruned
   * tooth colours `teeth` to the pruned colours `shades[i]` of each shade rectangle. `teeth`
   * and each `shades[i]` are what `rectangle2SortedColors` makes of the tooth rectangles and
   * of shade rectangle `i`, through the sorted lists `sortedTeeth` and `sortedShades[i]`.
   */
  method FindNearestShadeIndex(rectangles: Rectangles, image: Rect -> seq<Byte>,
                               dist: (Color, Color) -> real)
    returns (index: int, ghost teeth: seq<Color>, ghost sortedTeeth: seq<Color>,
             ghost shades: seq<seq<Color>>, ghost sortedShades: seq<seq<Color>>)
    requires WholePixels(image)
    ensures index == -1 <==> |rectangles.shades| == 0 || |rectangles.teeth| == 0
    ensures index != -1 ==> 0 <= index < |rectangles.shades|
    ensures index != -1 ==> |shades| == |sortedShades| == |rectangles.shades|
    ensures index != -1 ==> index == FindMinIndex(ShadeDeltas(teeth, shades, dist))
    ensures index != -1 ==> PrunedFrom(teeth, sortedTeeth, Gathered(rectangles.teeth, image), dist)
    ensures index != -1 ==> ShadesFrom(shades, sortedShades, rectangles.shades, image, dist)
  {
    if |rectangles.shades| > 0 && |rectangles.teeth| > 0 {
      var teethColors;
      teethColors, sortedTeeth := Rectangle2SortedColors(Several(rectangles.teeth), image, dist);
      teeth := teethColors;
      var teethArray := ToArray(teethColors);
      var deltas;
      deltas, shades, sortedShades := CompareShades(teethArray, rectangles.shades, image, dist);
      index := FindMinIndex(deltas);
    } else {
      index, teeth, sortedTeeth, shades, sortedShades := -1, [], [], [], [];
    }
  }
}
