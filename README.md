# Shade matcher: a Dafny model

This project models the core of a dental shade-matching web app. The user loads a photo and
draws rectangles on it: "teeth" rectangles over the teeth and "shades" rectangles over the
shade-guide tabs. The app gathers each region's pixel colours, sorts them by HSL lightness,
drops the ones far from the median, and matches the colours pairwise with the CIEDE2000
colour difference. The shade tab with the smallest average difference wins.

The model covers:

- colour conversions: RGB to hex and back, and RGB to HSL;
- the three in-place colour sorts;
- the CIEDE2000 object `dE00`, with its constructor, its getters and `getDeltaE`;
- the comparison helpers and the group averaging;
- the pipeline that gathers, sorts, prunes and finds the minimum;
- the drawing layer:
  - the pointer hit tests and the resize-edge and cursor tables;
  - resizing a rectangle by one edge;
  - the drag-to-rectangle normalisation;
  - the tap-to-select flood fill;
  - the aspect-preserving `resize` and the `handleOnce` throttle;
- the pinch-zoom engine:
  - the 2×2 vector and matrix algebra, affine transforms and their cascade;
  - the two-finger zoom fit with its magnification clamp;
  - averaging, configuration defaults, CSS output;
  - the `Zoom` object's touch state machine.

Modules, one per source file:

- `Types` (types.ts) and `Data` (data.ts): shared value types and the rectangle store.
- `Conversion` (conversion.ts).
- `Sorting` (sorting.ts): the sorts are insertion sorts on an `array`, proved sorted and a
  permutation.
- `DeltaE00` (deltae2000.ts):
  - the pure formula is a family of functions ending in `DeltaE`;
  - the `DE00` class keeps the source's fields and fills them in the source's order.
- `Comparison` (comparison.ts), `Calculate` (calculate.ts), `Draw` (draw.ts) and `Zooming`
  (zoom.ts).

Inputs that are modelled as parameters:

- Transcendental functions (`sqrt`, `sin`, `cos`, `exp`, `atan2`, `pow`, the constant π) come
  in through the `MathLib` datatype in `DeltaE00`. `MathLib.Valid()` states only the facts
  the proofs need:
  - the square root is non-negative, positive for positive arguments, and 0 at 0;
  - the sine is odd, and the cosine lies in [-1, 1];
  - `atan2` lies in [-π, π] and is 0 at the origin.
  Integer powers are written out as products.
- `rgbToLab` is a parameter (`toLab`). The per-pair colour distance is a parameter (`dist`)
  wherever the source calls `deltaE2000` on colours. `Comparison.DeltaE2000` is the function
  that instantiates it.
- The canvas 2D context's `getImageData` is a function `Rect -> seq<Byte>` returning RGBA
  bytes. The flood fill instead reads a `Canvas` value of width, height and RGBA data.
- The zoom engine's `Math.sqrt` and touch coordinates are parameters.

JavaScript's `NaN`, `Infinity` and `undefined` are modelled with `Option`:

- An average of zero numbers (`0/0`) is `None`, and `findMinIndex` treats a `None` like `NaN`:
  no comparison with it is true.
- The zoom configuration's `maxZoom` of `Infinity` is `None`.
- When the current magnification is 0, a clamp bound of `0/0` would be `NaN` and `maxZoom`
  over 0 with `maxZoom` infinite stays infinite; both are `None`, and a bound of `None` never
  triggers the clamp, just as a comparison with `NaN` never does. A `minZoom` above 0, or a
  `maxZoom` below 0, over a zero magnification is an infinite bound that does trigger the
  clamp, and the fitted transform is then not finite: `AdditionalZoom` is `None` in those two
  cases.

Where the code and its documentation differ, the model follows the code:

- `rectOnTap`'s guard against small fills tests the loop's step counter, not the number of
  pixels visited. Discarded regions are the rectangle (0, 0, 0, 0).
- In `deltaE2000Groups`, the centring index of the longer group cancels out. The pairs compared
  are always the first `min(|A|, |B|)` elements of both sorted groups, so the fallback to the
  last element is never taken.
- `getHBarPrime` adds 360 whenever the two hues are more than 180 apart. It never subtracts,
  so for hues in [0, 360) the mean lies in [0, 450).
- `findNearestShadeIndex` returns -1 exactly when one of the two rectangle lists is empty.
- `hexToRGBA` removes only the first `#`, and it takes the low 32 bits of the parsed value
  before shifting.

## Model

| member | source | states |
|---|---|---|
| Conversion.ComponentHexDigits | src/conversion.ts:11-14 | a channel becomes exactly two lower-case hex digits (zero-padded if needed), and they parse back to the channel |
| Conversion.RgbToHexFormat | src/conversion.ts:7-17 | the hex string is `#` followed by six lower-case digits: two for red, then green, then blue |
| Conversion.FirstHash | src/conversion.ts:21 | the position of a `#` with no `#` before it: the one `replace("#", "")` removes |
| Conversion.RemoveFirstHash | src/conversion.ts:21 | when a `#` is present, the result is the string with its first `#` removed and every other character kept in order; with no `#` the string is unchanged |
| Conversion.ToInt32 | src/conversion.ts:25-27 | the signed 32-bit value that the shift operators see: in range, and congruent to the input modulo 2^32 |
| Conversion.HexToRgbaChannels | src/conversion.ts:19-30 | each channel is the matching byte of the parsed value; the 32-bit truncation does not change the low 24 bits |
| Conversion.HexToRgbaRecompose | src/conversion.ts:19-30 | for six hex digits, the three channels recompose into exactly the parsed number |
| Conversion.HexRoundTrip | src/conversion.ts:7-30 | for every colour, `rgbToHex` yields a well-formed hex string, and `hexToRGBA` of it gives the colour back |
| Conversion.LightnessIsMidRange | src/conversion.ts:35-42 | HSL lightness is (max channel + min channel) / 510 and lies in [0, 1] |
| Conversion.LightnessOrder | src/conversion.ts:35-42 | lightness order is the order of max+min channel sums |
| Conversion.AchromaticHsl | src/conversion.ts:44-45 | a grey colour has hue 0 and saturation 0 |
| Conversion.SaturationRange | src/conversion.ts:46-48 | a chromatic colour's saturation lies in [0, 1], in both lightness branches |
| Conversion.HueRange | src/conversion.ts:49-63 | hue lies in [0, 1), and the formula is picked by which channel is largest, with red tested before green before blue |
| Sorting.SortedByLightnessIffByKey | src/sorting.ts:9-16 | sortedness by lightness is the same as sortedness by the integer key max+min |
| Sorting.SwapDown | src/sorting.ts:10-14 | swaps two neighbouring cells in place and keeps the multiset |
| Sorting.InsertStep | src/sorting.ts:10-14 | extends a sorted prefix by one element in place, keeping the multiset; an element already in order does not move |
| Sorting.SortByKey | src/sorting.ts:9-34 | the array becomes sorted by the key and is a permutation of its old contents; an already sorted array is unchanged |
| Sorting.SortColorsByLightness | src/sorting.ts:9-16 | sorts in place by HSL lightness and returns the same array; it is a permutation, and an already sorted input is unchanged |
| Sorting.SortColorsByHue | src/sorting.ts:18-25 | the same for HSL hue |
| Sorting.SortColorBySaturation | src/sorting.ts:27-34 | the same for HSL saturation |
| DeltaE00.WeightOr1 | src/deltae2000.ts:46-49 | a missing or zero weight becomes 1, any other weight is kept, and the result is never 0 |
| DeltaE00.DegreesRadiansRoundTrip | src/deltae2000.ts:247-253 | the degree and radian conversions undo each other |
| DeltaE00.ConstructorTerms | src/deltae2000.ts:51-93 | the chromas and their means are non-negative, and the lightness and chroma scales S_L and S_C are at least 1 |
| DeltaE00.SwapSymmetry | src/deltae2000.ts:51-93 | swapping the colours negates ΔL′ and ΔC′, swaps the per-colour terms and keeps the mean terms |
| DeltaE00.HPrimeRange | src/deltae2000.ts:231-245 | h′ lies in [0, 360), and it is 0 at the origin |
| DeltaE00.DeltahPrimeArc | src/deltae2000.ts:203-221 | Δh′ is 0 when either chroma is 0; otherwise it is the hue difference, possibly shifted by ±360; for hues in [0, 360) it lies in [-180, 180] |
| DeltaE00.DeltahPrimeAntisymmetric | src/deltae2000.ts:203-221 | swapping the colours negates Δh′ |
| DeltaE00.HBarPrimeProperties | src/deltae2000.ts:193-201 | the mean hue is symmetric; it is the plain mean when the hues are at most 180 apart and the mean plus 180 otherwise; for hues in [0, 360) it lies in [0, 450), is above 270 in the far-apart case, and is within 90 degrees of h′1 around the circle |
| DeltaE00.TTerm | src/deltae2000.ts:181-191 | the hue weighting T lies in [0.07, 1.93] |
| DeltaE00.DeltaHPrimeOdd | src/deltae2000.ts:137-141 | ΔH′ is odd in Δh′ under a swap of the chromas, and 0 when Δh′ is 0 |
| DeltaE00.SsubHOf | src/deltae2000.ts:149-150 | S_H is at least 1 |
| DeltaE00.WeightedOdd | src/deltae2000.ts:155-158 | each weighted difference is odd and vanishes with its difference |
| DeltaE00.CombineSign | src/deltae2000.ts:160-165 | the final combination is unchanged when all three differences change sign |
| DeltaE00.DeltaEReflexive | src/deltae2000.ts:35-166 | the distance from a colour to itself is 0, for any weights |
| DeltaE00.FinishSwap | src/deltae2000.ts:123-166 | the finishing formula is invariant under the term swap that exchanging the colours causes |
| DeltaE00.DeltaESymmetric | src/deltae2000.ts:35-166 | the distance is symmetric in the two colours, for any weights |
| DeltaE00.DE00.constructor | src/deltae2000.ts:35-121 | stores the colours, the defaulted weights and the terms, establishes the invariant, and zeroes the hue fields |
| DeltaE00.DE00.WriteAngleTerms | src/deltae2000.ts:128-141 | writes h′1, h′2, Δh′ and ΔH′ from the stored terms, keeping the invariant and the stored terms |
| DeltaE00.DE00.WriteWeightTerms | src/deltae2000.ts:143-153 | writes H̄′, T, S_H and R_T from the angles, leaving the angles, the stored terms and the invariant as they were |
| DeltaE00.DE00.WriteHueTerms | src/deltae2000.ts:123-155 | writes h′1, h′2, Δh′, ΔH′, H̄′, T, S_H and R_T in order, each from the fields before it, and keeps the stored terms |
| DeltaE00.DE00.GetDeltaE | src/deltae2000.ts:123-166 | returns the CIEDE2000 finishing formula over the stored terms; the stored `deltaHPrime`, `T`, `SsubH` and `RsubT` become the hue difference, the T term, the hue weight and the rotation term of those terms, and the invariant is kept |
| Comparison.ComputeDeltaE2000 | src/comparison.ts:30-40 | builds a `dE00` from the two Lab colours and returns `DeltaE2000` of the RGB colours |
| Comparison.DeltaE2000Metric | src/comparison.ts:30-40 | the RGB-level distance is 0 on equal colours and symmetric |
| Comparison.CalculateLabAngleAgrees | src/comparison.ts:46-53 | `calculateLabAngle` is the class's h′ function and lies in [0, 360) |
| Comparison.CalculateDeltaHPrimeAgrees | src/comparison.ts:55-71 | `calculateDeltaHPrime` is the class's Δh′ function |
| Comparison.Average | src/comparison.ts:9-13 | it is `None` (NaN) exactly for the empty list; otherwise it is the value whose product with the count is the sum |
| Comparison.SumBounds | src/comparison.ts:10 | the sum of n values in [lo, hi] lies in [n·lo, n·hi] |
| Comparison.AverageBounds | src/comparison.ts:9-13 | the average of values in [lo, hi] lies in [lo, hi] |
| Comparison.PairedDistances | src/comparison.ts:82-92 | one distance per index below the shorter length, between the elements at that index |
| Comparison.Pick | src/comparison.ts:89-90 | `group[i] \|\| group[last]`: `group[i]` when `i` is in range, the last element otherwise |
| Comparison.PairDistances | src/comparison.ts:81-92 | the loop pushes exactly the paired distances of the two arrays |
| Comparison.DeltaE2000Groups | src/comparison.ts:77-95 | sorts both groups in place by lightness as permutations; the result is the average of the paired distances, and `None` iff a group is empty |
| Data.Rectangles.Push | src/draw.ts:287-288 | appends to the chosen list and leaves the other unchanged |
| Calculate.Unpack | src/calculate.ts:14-16 | one colour per 4 bytes, made of the R, G, B bytes at that offset |
| Calculate.Pack | src/calculate.ts:13 | an RGBA buffer is 4 bytes per colour |
| Calculate.UnpackPack | src/calculate.ts:11-18 | unpacking a packed buffer gives the colours back, whatever the alpha |
| Calculate.Rectangle2AllColors | src/calculate.ts:11-18 | the loop collects exactly the unpacked pixels of the rectangle |
| Calculate.GatheredAppend | src/calculate.ts:31 | the flattened colours of several rectangles are the concatenation, one rectangle at a time |
| Calculate.GatheredCount | src/calculate.ts:31 | the number of gathered colours is the sum of each buffer's size over 4 |
| Calculate.GatherColors | src/calculate.ts:30-32 | the loop gathers exactly the flattened colours |
| Calculate.Filter | src/calculate.ts:39 | keeps exactly the colours that satisfy the predicate, each as many times as it occurs in the input, and no others |
| Calculate.FilterSorted | src/calculate.ts:39 | filtering keeps the sort order |
| Calculate.PruneProperties | src/calculate.ts:38-39 | pruning keeps exactly the colours within 15 of the median, each with its multiplicity in the sorted list, keeps the order, and keeps the median when it is close to itself |
| Calculate.PruneOfPermutation | src/calculate.ts:35-39 | pruning a sorted permutation keeps exactly the input's colours that are close to the median, each as many times as it occurs in the input |
| Calculate.Rectangle2SortedColors | src/calculate.ts:25-41 | the sorted colours are a lightness-sorted permutation of the gathered ones; the result is the pruned list, sorted, and holds exactly the colours within 15 of the median |
| Calculate.FindMinIndexPrefix | src/calculate.ts:47-53 | the reduce's index is within range, and a non-zero index points at a number |
| Calculate.FindMinIndexIsFirstMinimum | src/calculate.ts:47-53 | on numbers, the index is that of the first minimum: no element is smaller, and every earlier one is strictly larger |
| Calculate.FindMinIndexNaNFirst | src/calculate.ts:47-53 | a NaN at index 0 makes every comparison false, so the result is 0 |
| Calculate.ShadeDelta | src/calculate.ts:62-65 | the delta is the group average of the teeth against the shade's colours, and those colours are the pruning of a lightness-sorted permutation of the shade rectangle's pixels; the teeth array is left as it was |
| Calculate.ShadeDeltasAppend | src/calculate.ts:65 | mapping one more shade appends its group distance |
| Calculate.CompareShades | src/calculate.ts:62-65 | a delta per shade rectangle; the i-th shade's colours are the pruning of a lightness-sorted permutation of the i-th rectangle's pixels |
| Calculate.FindNearestShadeIndex | src/calculate.ts:59-69 | -1 iff a rectangle list is empty; otherwise a valid shade index, the first-minimum index of the shade deltas, where the teeth colours are the pruning of a lightness-sorted permutation of all teeth-rectangle pixels and each shade's colours likewise of its rectangle's pixels |
| Draw.EdgeHitHasEdge | src/draw.ts:22-41 | a pointer over an edge always gets a resize edge and a resize cursor |
| Draw.CursorStyleTable | src/draw.ts:83-94 | horizontal cursor iff left or right, vertical iff top or bottom, default otherwise |
| Draw.DeleteStripTouchesBottomEdge | src/draw.ts:10-19 | the delete strip is the 15 px under the rectangle and overlaps the bottom edge's band in its upper 5 px |
| Draw.ControlPointsAroundRect | src/draw.ts:44-80 | the corners are control points, and every control-point hit lies within 3 px of the rectangle |
| Draw.Resized | src/draw.ts:138-155 | left and top move to the pointer keeping the opposite edge; right and bottom put the far edge at the pointer; other edges change nothing |
| Draw.ResizeRectangle | src/draw.ts:138-155 | updates the rectangle's fields in place to `Resized` of the old rectangle |
| Draw.ResizeAtEdgeIsIdentity | src/draw.ts:138-155 | dragging an edge to where it already is leaves the rectangle unchanged |
| Draw.EditableRect.constructor | src/types.ts:7-12 | holds the given rectangle |
| Draw.PixelIndexInRange | src/draw.ts:413-414 | a pixel inside the canvas has its index inside the image |
| Draw.PixelAtIsUnpacked | src/draw.ts:413-419 | reading a pixel at (y·w + x)·4 gives that pixel of the unpacked image |
| Draw.RowStartIsProduct | src/draw.ts:413-414 | the row offset summed row by row is y·w |
| Draw.BoxOfBounds | src/draw.ts:370-373 | the bounding box has non-negative sides, encloses the seed and every accepted pixel, and each side is attained |
| Draw.BoxOfWithin | src/draw.ts:407-427 | with the seed and the accepted pixels on the canvas, the box is on the canvas |
| Draw.FillBoxInCanvas | src/draw.ts:442-451 | the fill rectangle lies on the canvas and encloses the seed and every accepted pixel |
| Draw.SimilarOfExactly | src/draw.ts:405-422 | of the neighbours, exactly those on the canvas whose colour is within tolerance of the seed colour are accepted, and nothing else |
| Draw.BoxOfAppend | src/draw.ts:422-426 | widening the box by each newly accepted pixel keeps it the bounding box of the seed and all accepted pixels |
| Draw.ExpandNeighbour | src/draw.ts:406-427 | an accepted neighbour is queued and widens the extremes; a rejected or off-canvas one changes nothing |
| Draw.ExpandPixel | src/draw.ts:398-429 | the queue grows by exactly the accepted neighbours, left, right, above, below in that order, and the extremes are widened by each of them |
| Draw.VisitFront | src/draw.ts:388-431 | one dequeue-and-expand step equals `Visit`: an off-canvas or already visited pixel is just dropped, otherwise it is marked visited and expanded |
| Draw.ExpandKeepsFillState | src/draw.ts:388-431 | expanding keeps the fill invariant: the box bounds the accepted pixels, which are within tolerance; the visited set is exactly the expanded pixels, which are distinct and on the canvas and no more than the steps |
| Draw.VisitKeepsFillState | src/draw.ts:378-431 | every loop step keeps the fill invariant, including that a seed off the canvas is dropped at the first step |
| Draw.FillLoopOutcome | src/draw.ts:378-432 | from any state with the invariant the loop ends at most one step past 80 000, with the zero box if it passed it and the bounding box of the accepted pixels otherwise; accepted pixels are within tolerance and expanded ones distinct, on the canvas and no more than the steps |
| Draw.FloodFill | src/draw.ts:375-432 | the loop's final extremes and step count equal `FillLoop` from the seed alone in the queue |
| Draw.TapRectOutcome | src/draw.ts:364-452 | the tap rectangle is zero when the fill passed 80 000 steps, took fewer than 500 or started off the canvas; otherwise it is the bounding box of the seed and the accepted pixels and lies on the canvas; accepted pixels are within tolerance of the seed colour |
| Draw.RectOnTap | src/draw.ts:364-452 | returns `TapRect`: the fill from the seed with the seed pixel's colour, zeroed below 500 steps (its meaning is `TapRectOutcome`) |
| Draw.DragRect | src/draw.ts:278-283 | non-negative sides, both corners enclosed, and the corners are the two pointer positions |
| Draw.EndDrawing | src/draw.ts:273-296 | uses the drag rectangle unless a side is 0; then exactly the flood-fill rectangle `TapRect` from the press point, which is either the zero rectangle or encloses the press point; the rectangle is stored exactly when it is non-empty and a draw type is chosen |
| Draw.Resize | src/draw.ts:488-500 | positive size, the original aspect ratio, and one side equal to the new one, chosen as in the source |
| Draw.Throttle.constructor | src/draw.ts:454 | the time stamp starts at 0 |
| Draw.Throttle.Accept | src/draw.ts:455-461 | fires iff more than 100 ms have passed since the last firing, and records the time stamp only then |
| Zooming.MatrixMultiplyComposes | src/zoom.ts:45-55 | applying a product of matrices is applying one after the other |
| Zooming.ApplyIsLinear | src/zoom.ts:26-49 | applying a matrix preserves vector addition and subtraction |
| Zooming.CascadeActs | src/zoom.ts:88-92 | the cascaded transform acts as T after U |
| Zooming.CascadeIdentity | src/zoom.ts:88-92 | cascading the identity in front changes nothing |
| Zooming.RotationScalingMapsAToB | src/zoom.ts:101-106 | the rotation-scaling matrix maps a to b whenever a is not zero |
| Zooming.RotationScalingOfSame | src/zoom.ts:101-106 | fitting a to itself gives the identity matrix |
| Zooming.JustScalingMatrix | src/zoom.ts:109-114 | the scaling-only fit is a uniform scaling: no off-diagonal entries, and equal diagonal entries |
| Zooming.MagnificationOfScaled | src/zoom.ts:117-124 | scaling a matrix by s scales its magnification by abs(s) |
| Zooming.ClampWithinBounds | src/zoom.ts:134-151 | for ordered, non-negative bounds, the clamp always succeeds, scales the fit by a non-negative factor, and brings the magnification within the bounds |
| Zooming.ZoomFixesFirstPoint | src/zoom.ts:127-160 | the zoom transform maps the first source touch onto the first destination touch |
| Zooming.ZoomMapsSecondPoint | src/zoom.ts:127-160 | with rotation and no clamping, it also maps the second touch onto the second |
| Zooming.ZoomWithoutRotationScalesOnly | src/zoom.ts:127-160 | without rotation, the zoom matrix is a uniform scaling |
| Zooming.ZoomOfStillTouches | src/zoom.ts:127-160 | touches that have not moved give the identity transform when 1 is within the bounds |
| Zooming.AverageEndpoints | src/zoom.ts:79-84 | the average is the first transform at progress 0 and the second at 1, and averaging a transform with itself gives it back |
| Zooming.ApplyDefaults | src/zoom.ts:438-440 | a provided value is used, otherwise the default |
| Zooming.SetDefaultConfig | src/zoom.ts:419-436 | each field is its provided value or the default |
| Zooming.SetDefaultConfigExtremes | src/zoom.ts:419-436 | nothing provided gives the defaults; everything provided gives the provided configuration |
| Zooming.PanResetProperties | src/zoom.ts:67-76 | resetting the pan is idempotent, keeps the matrix, makes an identity-matrix transform act as the identity, and changes nothing otherwise |
| Zooming.Transform.constructor | src/zoom.ts:61-64 | holds the given matrix and pan vector |
| Zooming.Transform.Css | src/zoom.ts:67-76 | resets the pan in place on a full zoom-out, and renders the six matrix entries of the new state |
| Zooming.Zoom.constructor | src/zoom.ts:175-216 | configuration defaulted from the provided one; no touches; identity transforms in two distinct objects; zero coordinates |
| Zooming.Zoom.Finalize | src/zoom.ts:267-269 | the active zoom becomes the resultant zoom, and nothing else changes |
| Zooming.Zoom.PreviewZoom | src/zoom.ts:243-273 | the resultant zoom is a new transform: the extra zoom, with bounds divided by the current magnification, cascaded onto the active zoom, with the pan reset that repainting performs; it returns what was rendered |
| Zooming.Zoom.HandleZoom | src/zoom.ts:354-389 | a change in finger count records it, finalises, and unless no finger remains sets source and destination to the new touches; the same count moves only the destination and previews |
| Zooming.StillGestureKeepsZoom | src/zoom.ts:243-260 | fingers that have not moved, within the zoom bounds, leave the active zoom as it is |

## Left out

- `rgbToLab` (src/conversion.ts:72-112) is a parameter. It is floating-point colour-space
  arithmetic built on `Math.pow`. The model proves nothing about Lab values beyond what the
  distance formula needs.
- `euclideanDistance` (src/comparison.ts:20-24) is not modelled: it is unused code, and its
  result is a square root.
- Floating point: all of the colour and zoom arithmetic is over exact reals. Rounding,
  `NaN` propagation beyond the cases named above, and `Infinity` arithmetic are not modelled.
- Transcendentals come from a `MathLib` value that satisfies only a few stated facts, so the
  model says nothing about their digits. `PI` is `Math.PI`, the double just below true π, and
  `MathLib.Valid` bounds `atan2` by it. That bound is the one `Math.atan2` keeps, because its
  results are doubles and `Math.atan2(0, -1)` is `Math.PI`. An exact-real arc tangent would
  reach true π and break it. No proved range uses true π; the hue range 0 to 360 comes from
  this bound.
- `Calculate.FindNearestShadeIndex`, `Calculate.CompareShades`, `Calculate.ShadeDelta`: the
  sorted colours are pinned as a lightness-sorted permutation of the rectangle's pixels. The
  order among colours of equal lightness, which the stable sort would fix, is not stated.
- `calculate`, `debounce` and `drawWinner` (src/calculate.ts:75-101, src/draw.ts:475-486) are
  not modelled: they only call `findNearestShadeIndex`, delay with timers, and draw on the
  canvas.
- The `n` parameter of `rectangle2SortedColors` is dropped, because the source never reads it.
- Canvas and DOM I/O is not modelled: `getImageData`, `getMouseCoords`, the `draw` repaint, and
  the listener registration in `mouseEventsListeners`. Pixel data and coordinates are
  parameters.
- The `down` and `move` pointer handlers (src/draw.ts:222-271, 298-357) are not modelled as
  state machines. This includes the choice between delete, resize, corner and move, the
  splice, and moving or corner-resizing a selected rectangle. Their building blocks are
  modelled: the hit tests, `getResizeEdge`, `getCursorStyle` and `resizeRectangle`.
- `isMultiTouch` and `setToDefault` are not modelled: the first depends on `Date.now()` and
  touch lists, and the second only resets flags.
- `Sorting.SortColorsByLightness`, `Sorting.SortColorsByHue`, `Sorting.SortColorBySaturation`:
  JavaScript's `Array.prototype.sort` is stable. The model's insertion sort is stable too,
  but stability is not stated. The contract gives sortedness, permutation, and that a sorted
  input is left unchanged.
- `Conversion.HexToRgba`: `parseInt` is modelled only on strings of 1 to 13 hex digits after
  the first `#` is removed. With 13 digits or fewer the value is exact in a double. Longer
  strings, empty strings (NaN) and partial parses of strings with trailing non-hex characters
  are not modelled.
- `Draw.RectOnTap`: the `visited` set is a set of coordinates rather than of the strings
  `"x-y"`. The two are equivalent because the coordinates are integers.
- `Draw.Resize`: requires all four sizes to be positive. Zero or negative sizes produce
  `NaN` or `Infinity` in the source.
- `Zooming.RotationScalingMapsAToB`, `Zooming.ZoomMapsSecondPoint`,
  `Zooming.ZoomOfStillTouches`, `Zooming.StillGestureKeepsZoom`: these are stated for touch
  offsets whose squared length is non-zero, rather than for two distinct touch points.
- `Zooming.Zoom.PreviewZoom`: requires the extra zoom to be finite. It excludes the case where
  a zero fit meets an active bound, which yields `NaN` entries in the source.
- `Zooming.Zoom.HandleZoom`: carries the same requirement when the finger count is
  unchanged.
- `reset`, `setZoom`, `destroy`, `handleTouchEvent` and `handleTouchStart` (zoom.ts) are not
  modelled. They run a `requestAnimationFrame` animation, detect a double tap with timers,
  and attach and detach DOM listeners.
- `getCoords`, `getCoordsSingle` and `getCoordsDouble` are not modelled. The touch
  coordinates reach `HandleZoom` as a matrix; the single-touch construction of
  `[x, y], [x + 1, y + 1]` is the caller's.
- The CSS string formatting of `css()` is modelled as the six-number `CssMatrix`. Number to
  string conversion is not modelled.
