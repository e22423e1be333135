/**
 * The drawing layer's logic: pointer hit tests, the resize-edge and cursor tables, resizing a
 * rectangle by one edge, the drag-to-rectangle normalisation at the end of a gesture, the
 * flood-fill `rectOnTap`, the aspect-preserving `resize` and the `handleOnce` throttle.
 */
module Draw {
  import opened Types
  import opened Data
  import opened Calculate

  // ---------- Hit tests ----------

  /** `isMouseOverDelete`: the 15-pixel strip under the rectangle. */
  predicate IsMouseOverDelete(mouse: Coords, rect: Rect) {
    var buttonX, buttonY := rect.x, rect.y + rect.height;
    mouse.x >= buttonX && mouse.x <= buttonX + rect.width && mouse.y >= buttonY && mouse.y <= buttonY + 15
  }

  /** `isMouseOverRectEdge`: within 5 pixels of one of the four edges, inside that edge's span. */
  predicate IsMouseOverRectEdge(mouse: Coords, rect: Rect) {
    || (mouse.x >= rect.x - 5 && mouse.x <= rect.x + 5 && mouse.y >= rect.y && mouse.y <= rect.y + rect.height)
    || (mouse.x >= rect.x + rect.width - 5 && mouse.x <= rect.x + rect.width + 5
        && mouse.y >= rect.y && mouse.y <= rect.y + rect.height)
    || (mouse.y >= rect.y - 5 && mouse.y <= rect.y + 5 && mouse.x >= rect.x && mouse.x <= rect.x + rect.width)
    || (mouse.y >= rect.y + rect.height - 5 && mouse.y <= rect.y + rect.height + 5
        && mouse.x >= rect.x && mouse.x <= rect.x + rect.width)
  }

  /** The square of side `controlSize` (6) centred on `(cx, cy)`, in real coordinates since the
      mid-edge points sit at half-widths. */
  predicate InControlSquare(mouse: Coords, cx: real, cy: real) {
    var half := 6.0 / 2.0;
    mouse.x as real >= cx - half && mouse.x as real <= cx + half
    && mouse.y as real >= cy - half && mouse.y as real <= cy + half
  }

  /** `isMouseOverControlPoint`: the eight squares, in the source's order (top-left, top-middle,
      top-right, right-middle, bottom-right, bottom-middle, bottom-left, left-middle). */
  predicate IsMouseOverControlPoint(mouse: Coords, rect: Rect) {
    var x, y, w, h := rect.x as real, rect.y as real, rect.width as real, rect.height as real;
    || InControlSquare(mouse, x, y)
    || InControlSquare(mouse, x + w / 2.0, y)
    || InControlSquare(mouse, x + w, y)
    || InControlSquare(mouse, x + w, y + h / 2.0)
    || InControlSquare(mouse, x + w, y + h)
    || InControlSquare(mouse, x + w / 2.0, y + h)
    || InControlSquare(mouse, x, y + h)
    || InControlSquare(mouse, x, y + h / 2.0)
  }

  /** `getResizeEdge`: left, right, top and bottom bands tried in that order; `""` for none. */
  function GetResizeEdge(mouse: Coords, rect: Rect): string {
    if mouse.x >= rect.x - 5 && mouse.x <= rect.x + 5 then "left"
    else if mouse.x >= rect.x + rect.width - 5 && mouse.x <= rect.x + rect.width + 5 then "right"
    else if mouse.y >= rect.y - 5 && mouse.y <= rect.y + 5 then "top"
    else if mouse.y >= rect.y + rect.height - 5 && mouse.y <= rect.y + rect.height + 5 then "bottom"
    else ""
  }

  /** `getCursorStyle`. */
  function GetCursorStyle(edge: string): string {
    if edge == "left" || edge == "right" then "ew-resize"
    else if edge == "top" || edge == "bottom" then "ns-resize"
    else "auto"
  }

  /** A pointer over an edge always has a resize edge, and so a resize cursor: horizontal for
      the side edges, vertical for the top and bottom ones. */
  lemma EdgeHitHasEdge(mouse: Coords, rect: Rect)
    requires IsMouseOverRectEdge(mouse, rect)
    ensures GetResizeEdge(mouse, rect) in {"left", "right", "top", "bottom"}
    ensures GetCursorStyle(GetResizeEdge(mouse, rect)) in {"ew-resize", "ns-resize"}
  {
  }

  /** The edge strings map to their cursors, both ways: a resize cursor comes only from an edge
      string, and every other string (`""`, `"corner"`) shows the default cursor. */
  lemma CursorStyleTable(edge: string)
    ensures GetCursorStyle(edge) == "ew-resize" <==> edge == "left" || edge == "right"
    ensures GetCursorStyle(edge) == "ns-resize" <==> edge == "top" || edge == "bottom"
    ensures GetCursorStyle(edge) == "auto" <==> edge !in {"left", "right", "top", "bottom"}
  {
  }

  /** The delete strip hangs under the rectangle and overlaps the lower half of the bottom
      edge's band; since `down` tries the delete test first, a press there deletes. */
  lemma DeleteStripTouchesBottomEdge(mouse: Coords, rect: Rect)
    requires IsMouseOverDelete(mouse, rect)
    ensures rect.y + rect.height <= mouse.y <= rect.y + rect.height + 15
    ensures rect.x <= mouse.x <= rect.x + rect.width
    ensures mouse.y <= rect.y + rect.height + 5 ==> IsMouseOverRectEdge(mouse, rect)
    ensures rect.height >= 0 && mouse.y > rect.y + rect.height + 5 ==> GetResizeEdge(mouse, rect) in {"", "left", "right"}
  {
  }

  /** The four corners are control points, and for a rectangle of non-negative size every
      control-point hit lies within half a control square (3 pixels) of the rectangle. */
  lemma ControlPointsAroundRect(mouse: Coords, rect: Rect)
    ensures IsMouseOverControlPoint(Coords(rect.x, rect.y), rect)
    ensures IsMouseOverControlPoint(Coords(rect.x + rect.width, rect.y), rect)
    ensures IsMouseOverControlPoint(Coords(rect.x, rect.y + rect.height), rect)
    ensures IsMouseOverControlPoint(Coords(rect.x + rect.width, rect.y + rect.height), rect)
    ensures rect.width >= 0 && rect.height >= 0 && IsMouseOverControlPoint(mouse, rect) ==>
      && rect.x - 3 <= mouse.x <= rect.x + rect.width + 3
      && rect.y - 3 <= mouse.y <= rect.y + rect.height + 3
  {
  }

  // ---------- Resizing by one edge ----------

  /** A rectangle the pointer handlers edit in place. */
  class EditableRect {
    var x: int
    var y: int
    var width: int
    var height: int

    function Value(): Rect
      reads this
    {
      Rect(x, y, width, height)
    }

    constructor (r: Rect)
      ensures Value() == r
    {
      x, y, width, height := r.x, r.y, r.width, r.height;
    }
  }

  /** What `resizeRectangle` makes of a rectangle: the left and top edges move to the pointer
      keeping the opposite edge fixed, the right and bottom edges move to the pointer keeping
      the origin, and any other edge string leaves the rectangle alone. */
  function Resized(mouse: Coords, rect: Rect, edge: string): (r: Rect)
    ensures edge == "left" ==>
      r.x == mouse.x && r.x + r.width == rect.x + rect.width && r.y == rect.y && r.height == rect.height
    ensures edge == "right" ==>
      r.x == rect.x && r.x + r.width == mouse.x && r.y == rect.y && r.height == rect.height
    ensures edge == "top" ==>
      r.y == mouse.y && r.y + r.height == rect.y + rect.height && r.x == rect.x && r.width == rect.width
    ensures edge == "bottom" ==>
      r.y == rect.y && r.y + r.height == mouse.y && r.x == rect.x && r.width == rect.width
    ensures edge !in {"left", "right", "top", "bottom"} ==> r == rect
  {
    if edge == "left" then rect.(width := rect.width + rect.x - mouse.x, x := mouse.x)
    else if edge == "right" then rect.(width := mouse.x - rect.x)
    else if edge == "top" then rect.(height := rect.height + rect.y - mouse.y, y := mouse.y)
    else if edge == "bottom" then rect.(height := mouse.y - rect.y)
    else rect
  }

  /** `resizeRectangle(mouseCoords, rect, edge)`: writes the rectangle's fields in place. */
  method ResizeRectangle(mouse: Coords, rect: EditableRect, edge: string)
    modifies rect
    ensures rect.Value() == Resized(mouse, old(rect.Value()), edge)
  {
    if edge == "left" {
      rect.width := rect.width + rect.x - mouse.x;
      rect.x := mouse.x;
    } else if edge == "right" {
      rect.width := mouse.x - rect.x;
    } else if edge == "top" {
      rect.height := rect.height + rect.y - mouse.y;
      rect.y := mouse.y;
    } else if edge == "bottom" {
      rect.height := mouse.y - rect.y;
    }
  }

  /** Resizing with the pointer already on the edge being dragged changes nothing. */
  lemma ResizeAtEdgeIsIdentity(rect: Rect, edge: string)
    ensures edge == "left" ==> Resized(Coords(rect.x, 0), rect, edge) == rect
    ensures edge == "right" ==> Resized(Coords(rect.x + rect.width, 0), rect, edge) == rect
    ensures edge == "top" ==> Resized(Coords(0, rect.y), rect, edge) == rect
    ensures edge == "bottom" ==> Resized(Coords(0, rect.y + rect.height), rect, edge) == rect
  {
  }

  // ---------- The canvas and the flood fill ----------

  /** The canvas's full image data: `width * height` RGBA pixels, row by row. */
  datatype Canvas = Canvas(width: nat, height: nat, data: seq<Byte>)
  {
    ghost predicate Valid() {
      |data| == 4 * (width * height)
    }

    predicate Contains(p: Coords) {
      0 <= p.x < width && 0 <= p.y < height
    }

    /** The colour at `(x, y)`: the bytes at `(y * width + x) * 4`. */
    function PixelAt(p: Coords): Color
      requires Valid() && Contains(p)
    {
      PixelIndexInRange(width, height, p.x, p.y);
      var i := (RowStart(width, p.y) + p.x) * 4;
      Color(data[i], data[i + 1], data[i + 2])
    }

    /** `getImageData(x, y, 1, 1)`: outside the canvas it reads transparent black. */
    function SeedColor(p: Coords): Color
      requires Valid()
    {
      if Contains(p) then PixelAt(p) else Color(0, 0, 0)
    }
  }

  /** `y * width`, the index of the first pixel of row `y`, written as a sum row by row. */
  function RowStart(width: nat, y: nat): nat {
    if y == 0 then 0 else RowStart(width, y - 1) + width
  }

  lemma {:induction false} RowStartIsProduct(width: nat, y: nat)
    ensures RowStart(width, y) == y * width
  {
    if y > 0 {
      RowStartIsProduct(width, y - 1);
      assert (y - 1) * width + width == y * width;
    }
  }

  lemma PixelIndexInRange(width: nat, height: nat, x: int, y: int)
    requires 0 <= x < width && 0 <= y < height
    ensures 0 <= RowStart(width, y) + x < width * height
    ensures RowStart(width, y) == y * width
  {
    RowStartIsProduct(width, y);
    assert y * width <= (height - 1) * width by { MulLeMono(y, height - 1, width); }
  }

  lemma MulLeMono(a: int, b: int, c: nat)
    requires a <= b
    ensures a * c <= b * c
  {
  }

  /** A pixel's colour is the one `rectangle2AllColors` reads for it from the whole canvas. */
  lemma PixelAtIsUnpacked(canvas: Canvas, p: Coords)
    requires canvas.Valid() && canvas.Contains(p)
    ensures |canvas.data| % 4 == 0
    ensures 0 <= p.y * canvas.width + p.x < |canvas.data| / 4
    ensures canvas.PixelAt(p) == Unpack(canvas.data)[p.y * canvas.width + p.x]
  {
    PixelIndexInRange(canvas.width, canvas.height, p.x, p.y);
    var n := canvas.width * canvas.height;
    assert |canvas.data| == 4 * n;
    assert |canvas.data| % 4 == 0;
    var k := p.y * canvas.width + p.x;
    var colors := Unpack(canvas.data);
    assert 0 <= k < |colors|;
    assert colors[k] == Color(canvas.data[4 * k], canvas.data[4 * k + 1], canvas.data[4 * k + 2]);
  }

  /** The flood fill's constants: colour tolerance, step cap and smallest accepted fill. */
  const Tolerance: real := 2.8
  const StepCap: nat := 80 * 1000
  const MinSteps: nat := 500

  /** The extremes `minX, minY, maxX, maxY` the fill tracks. */
  datatype Box = Box(minX: int, minY: int, maxX: int, maxY: int)

  /** The four `if` updates when a neighbour is accepted. */
  function Widen(b: Box, p: Coords): Box {
    Box(if b.minX > p.x then p.x else b.minX, if b.minY > p.y then p.y else b.minY,
        if b.maxX < p.x then p.x else b.maxX, if b.maxY < p.y then p.y else b.maxY)
  }

  /** The extremes after starting at the seed and accepting `accepted` in order. */
  function BoxOf(seed: Coords, accepted: seq<Coords>): Box
    decreases |accepted|
  {
    if |accepted| == 0 then SeedBox(seed)
    else Widen(BoxOf(seed, accepted[..|accepted| - 1]), accepted[|accepted| - 1])
  }

  /** The extremes before anything is accepted: `minX = maxX = x`, `minY = maxY = y`. */
  function SeedBox(seed: Coords): Box {
    Box(seed.x, seed.y, seed.x, seed.y)
  }

  /** `b` widened by each of `ps` in order. */
  function WidenAll(b: Box, ps: seq<Coords>): Box
    decreases |ps|
  {
    if |ps| == 0 then b else Widen(WidenAll(b, ps[..|ps| - 1]), ps[|ps| - 1])
  }

  function BoxRect(b: Box): Rect {
    Rect(b.minX, b.minY, b.maxX - b.minX, b.maxY - b.minY)
  }

  predicate Encloses(r: Rect, p: Coords) {
    r.x <= p.x <= r.x + r.width && r.y <= p.y <= r.y + r.height
  }

  /** The tracked box is the bounding box of the seed and the accepted points: it encloses
      each of them, and each of its four sides is attained by one of them. */
  lemma {:induction false} BoxOfBounds(seed: Coords, accepted: seq<Coords>)
    ensures var r := BoxRect(BoxOf(seed, accepted));
      && r.width >= 0 && r.height >= 0 && Encloses(r, seed)
      && (forall i :: 0 <= i < |accepted| ==> Encloses(r, accepted[i]))
    ensures var b := BoxOf(seed, accepted);
      && (b.minX == seed.x || exists i :: 0 <= i < |accepted| && accepted[i].x == b.minX)
      && (b.maxX == seed.x || exists i :: 0 <= i < |accepted| && accepted[i].x == b.maxX)
      && (b.minY == seed.y || exists i :: 0 <= i < |accepted| && accepted[i].y == b.minY)
      && (b.maxY == seed.y || exists i :: 0 <= i < |accepted| && accepted[i].y == b.maxY)
    decreases |accepted|
  {
    if |accepted| > 0 {
      var init := accepted[..|accepted| - 1];
      BoxOfBounds(seed, init);
      assert forall i :: 0 <= i < |init| ==> init[i] == accepted[i];
    }
  }

  /** With the seed and every accepted point inside the canvas, so is the box. */
  lemma {:induction false} BoxOfWithin(canvas: Canvas, seed: Coords, accepted: seq<Coords>)
    requires canvas.Contains(seed)
    requires forall i :: 0 <= i < |accepted| ==> canvas.Contains(accepted[i])
    ensures var b := BoxOf(seed, accepted);
      0 <= b.minX && b.maxX < canvas.width && 0 <= b.minY && b.maxY < canvas.height
    decreases |accepted|
  {
    if |accepted| > 0 {
      var init := accepted[..|accepted| - 1];
      assert forall i :: 0 <= i < |init| ==> init[i] == accepted[i];
      BoxOfWithin(canvas, seed, init);
    }
  }

  /** Every accepted pixel lies in the canvas, within the tolerance of the seed colour. */
  ghost predicate AllSimilar(canvas: Canvas, basicColor: Color, dist: (Color, Color) -> real, ps: seq<Coords>)
    requires canvas.Valid()
  {
    forall i :: 0 <= i < |ps| ==> canvas.Contains(ps[i]) && dist(basicColor, canvas.PixelAt(ps[i])) <= Tolerance
  }

  /** The four neighbours of `rectOnTap`, in its order: left, right, above, below. */
  function Neighbours(c: Coords): seq<Coords> {
    [Coords(c.x - 1, c.y), Coords(c.x + 1, c.y), Coords(c.x, c.y - 1), Coords(c.x, c.y + 1)]
  }

  /** `[p]` when the fill accepts `p` (inside the canvas, with a colour within the tolerance
      of the seed colour), `[]` otherwise. */
  function Accept(canvas: Canvas, basicColor: Color, dist: (Color, Color) -> real, p: Coords)
    : (r: seq<Coords>)
    requires canvas.Valid()
    ensures |r| <= 1
  {
    if canvas.Contains(p) && dist(basicColor, canvas.PixelAt(p)) <= Tolerance then [p] else []
  }

  /** The points of `ps` the fill accepts, in order. */
  function SimilarOf(canvas: Canvas, basicColor: Color, dist: (Color, Color) -> real, ps: seq<Coords>)
    : (r: seq<Coords>)
    requires canvas.Valid()
    ensures |r| <= |ps|
    decreases |ps|
  {
    if |ps| == 0 then []
    else SimilarOf(canvas, basicColor, dist, ps[..|ps| - 1]) + Accept(canvas, basicColor, dist, ps[|ps| - 1])
  }

  /** Exactly the points of `ps` that are inside the canvas and similar to the seed colour are
      kept, and nothing else. */
  lemma {:induction false} SimilarOfExactly(canvas: Canvas, basicColor: Color, dist: (Color, Color) -> real,
                                            ps: seq<Coords>)
    requires canvas.Valid()
    ensures AllSimilar(canvas, basicColor, dist, SimilarOf(canvas, basicColor, dist, ps))
    ensures forall q :: q in SimilarOf(canvas, basicColor, dist, ps) ==> q in ps
    ensures forall i :: 0 <= i < |ps| && canvas.Contains(ps[i]) && dist(basicColor, canvas.PixelAt(ps[i])) <= Tolerance
              ==> ps[i] in SimilarOf(canvas, basicColor, dist, ps)
    decreases |ps|
  {
    if |ps| > 0 {
      var init := ps[..|ps| - 1];
      SimilarOfExactly(canvas, basicColor, dist, init);
      assert forall i :: 0 <= i < |init| ==> init[i] == ps[i];
    }
  }

  /** Extending the prefix of `ps` by one point appends that point's acceptance. */
  lemma SimilarOfPrefix(canvas: Canvas, basicColor: Color, dist: (Color, Color) -> real, ps: seq<Coords>, k: nat)
    requires canvas.Valid() && k < |ps|
    ensures SimilarOf(canvas, basicColor, dist, ps[..k + 1])
         == SimilarOf(canvas, basicColor, dist, ps[..k]) + Accept(canvas, basicColor, dist, ps[k])
  {
    assert ps[..k + 1][..k] == ps[..k];
  }

  /** Widening by a concatenation widens by each part in turn. */
  lemma {:induction false} WidenAllAppend(b: Box, ps: seq<Coords>, qs: seq<Coords>)
    ensures WidenAll(b, ps + qs) == WidenAll(WidenAll(b, ps), qs)
    decreases |qs|
  {
    if |qs| > 0 {
      assert (ps + qs)[..|ps + qs| - 1] == ps + qs[..|qs| - 1];
      WidenAllAppend(b, ps, qs[..|qs| - 1]);
    } else {
      assert ps + qs == ps;
    }
  }

  /** Accepting pixels one at a time keeps the box the bounding box of the accepted ones. */
  lemma {:induction false} BoxOfAppend(seed: Coords, accepted: seq<Coords>, more: seq<Coords>)
    ensures BoxOf(seed, accepted + more) == WidenAll(BoxOf(seed, accepted), more)
    decreases |more|
  {
    if |more| > 0 {
      assert (accepted + more)[..|accepted + more| - 1] == accepted + more[..|more| - 1];
      BoxOfAppend(seed, accepted, more[..|more| - 1]);
    } else {
      assert accepted + more == accepted;
    }
  }

  /** One neighbour of the current pixel: queued and widening the box when accepted. */
  method ExpandNeighbour(canvas: Canvas, basicColor: Color, dist: (Color, Color) -> real, neighbor: Coords,
                         queue0: seq<Coords>, box0: Box)
    returns (queue: seq<Coords>, box: Box)
    requires canvas.Valid()
    ensures queue == queue0 + Accept(canvas, basicColor, dist, neighbor)
    ensures box == WidenAll(box0, Accept(canvas, basicColor, dist, neighbor))
  {
    queue, box := queue0, box0;
    if canvas.Contains(neighbor) {
      var neighborColor := canvas.PixelAt(neighbor);
      var difference := dist(basicColor, neighborColor);
      if difference <= Tolerance {
        queue := queue + [neighbor];
        var minX, minY, maxX, maxY := box.minX, box.minY, box.maxX, box.maxY;
        if maxX < neighbor.x { maxX := neighbor.x; }
        if minX > neighbor.x { minX := neighbor.x; }
        if maxY < neighbor.y { maxY := neighbor.y; }
        if minY > neighbor.y { minY := neighbor.y; }
        box := Box(minX, minY, maxX, maxY);
        assert [neighbor][..0] == [];
      }
    }
  }

  /** Queueing and widening by `similar` and then by `more` is queueing and widening by both. */
  lemma ExpandStep(queue0: seq<Coords>, box0: Box, similar: seq<Coords>, more: seq<Coords>,
                   queueK: seq<Coords>, boxK: Box, queue: seq<Coords>, box: Box)
    requires queueK == queue0 + similar && boxK == WidenAll(box0, similar)
    requires queue == queueK + more && box == WidenAll(boxK, more)
    ensures queue == queue0 + (similar + more) && box == WidenAll(box0, similar + more)
  {
    WidenAllAppend(box0, similar, more);
  }

  /** One pixel's expansion: each of the four neighbours inside the canvas whose colour is
      within the tolerance of the seed colour (not of the current pixel) is queued and widens
      the box, in order. */
  method ExpandPixel(canvas: Canvas, basicColor: Color, dist: (Color, Color) -> real, current: Coords,
                     queue0: seq<Coords>, box0: Box)
    returns (queue: seq<Coords>, box: Box)
    requires canvas.Valid()
    ensures queue == queue0 + SimilarOf(canvas, basicColor, dist, Neighbours(current))
    ensures box == WidenAll(box0, SimilarOf(canvas, basicColor, dist, Neighbours(current)))
  {
    var neighbors := Neighbours(current);
    queue, box := queue0, box0;
    var k := 0;
    while k < |neighbors|
      invariant 0 <= k <= |neighbors|
      invariant queue == queue0 + SimilarOf(canvas, basicColor, dist, neighbors[..k])
      invariant box == WidenAll(box0, SimilarOf(canvas, basicColor, dist, neighbors[..k]))
    {
      ghost var queueK, boxK := queue, box;
      ghost var similar := SimilarOf(canvas, basicColor, dist, neighbors[..k]);
      ghost var more := Accept(canvas, basicColor, dist, neighbors[k]);
      queue, box := ExpandNeighbour(canvas, basicColor, dist, neighbors[k], queue, box);
      ExpandStep(queue0, box0, similar, more, queueK, boxK, queue, box);
      SimilarOfPrefix(canvas, basicColor, dist, neighbors, k);
      k := k + 1;
    }
    assert neighbors[..k] == neighbors;
  }

  /** The pixels taken off the queue are each expanded once. */
  ghost predicate Distinct(ps: seq<Coords>) {
    forall i, j :: 0 <= i < j < |ps| ==> ps[i] != ps[j]
  }

  ghost predicate AllInCanvas(canvas: Canvas, ps: seq<Coords>) {
    forall i :: 0 <= i < |ps| ==> canvas.Contains(ps[i])
  }

  /** The fill's state: the queue, the visited set and the tracked extremes. */
  datatype Fill = Fill(queue: seq<Coords>, visited: set<Coords>, box: Box)

  /** One iteration of the fill after the step count: take the front of the queue and, if it
      is in the canvas and not yet visited, mark it visited and queue its accepted neighbours. */
  function Visit(canvas: Canvas, basicColor: Color, dist: (Color, Color) -> real, f: Fill): Fill
    requires canvas.Valid() && |f.queue| > 0
  {
    var current := f.queue[0];
    if canvas.Contains(current) && current !in f.visited then
      var similar := SimilarOf(canvas, basicColor, dist, Neighbours(current));
      Fill(f.queue[1..] + similar, f.visited + {current}, WidenAll(f.box, similar))
    else
      Fill(f.queue[1..], f.visited, f.box)
  }

  /** The fill loop from state `f` after `steps` steps: the final extremes and step count. An
      empty queue stops it; a step past `StepCap` stops it with the extremes zeroed. */
  function FillLoop(canvas: Canvas, basicColor: Color, dist: (Color, Color) -> real, f: Fill, steps: nat)
    : (Box, nat)
    requires canvas.Valid() && steps <= StepCap
    decreases StepCap - steps
  {
    if |f.queue| == 0 then (f.box, steps)
    else if steps + 1 > StepCap then (Box(0, 0, 0, 0), steps + 1)
    else FillLoop(canvas, basicColor, dist, Visit(canvas, basicColor, dist, f), steps + 1)
  }

  /** The fill's starting state: the seed alone in the queue, nothing visited, the seed's box. */
  function InitialFill(seed: Coords): Fill {
    Fill([seed], {}, SeedBox(seed))
  }

  /** What `rectOnTap(x, y)` returns: the fill from the seed with the seed pixel's colour, with
      the extremes zeroed when it took fewer than `MinSteps` steps. */
  function TapRect(canvas: Canvas, x: int, y: int, dist: (Color, Color) -> real): Rect
    requires canvas.Valid()
  {
    var seed := Coords(x, y);
    RectOf(FillLoop(canvas, canvas.SeedColor(seed), dist, InitialFill(seed), 0))
  }

  /** The rectangle of a finished fill with result `r`: zero below `MinSteps` steps. */
  function RectOf(r: (Box, nat)): Rect {
    if r.1 < MinSteps then BoxRect(Box(0, 0, 0, 0)) else BoxRect(r.0)
  }

  /** A history of the fill: the pixels expanded, in order, and the neighbours accepted onto
      the queue, in order. */
  datatype Trace = Trace(expanded: seq<Coords>, accepted: seq<Coords>)

  /** The history of one `Visit`: the pixel it expands (if any) and the neighbours it accepts. */
  ghost function VisitTrace(canvas: Canvas, basicColor: Color, dist: (Color, Color) -> real, f: Fill, t: Trace)
    : Trace
    requires canvas.Valid() && |f.queue| > 0
  {
    var current := f.queue[0];
    if canvas.Contains(current) && current !in f.visited then
      Trace(t.expanded + [current], t.accepted + SimilarOf(canvas, basicColor, dist, Neighbours(current)))
    else t
  }

  /** The history of `FillLoop`, step for step. */
  ghost function FillTrace(canvas: Canvas, basicColor: Color, dist: (Color, Color) -> real, f: Fill, t: Trace,
                           steps: nat): Trace
    requires canvas.Valid() && steps <= StepCap
    decreases StepCap - steps
  {
    if |f.queue| == 0 || steps + 1 > StepCap then t
    else FillTrace(canvas, basicColor, dist, Visit(canvas, basicColor, dist, f), VisitTrace(canvas, basicColor, dist, f, t), steps + 1)
  }

  /** The fill's invariant after `steps` steps: the box bounds the accepted pixels, which are
      all similar to the seed colour; the visited set holds exactly the expanded pixels, which
      are distinct, on the canvas and no more than the steps; and a seed off the canvas is
      dropped at the first step without accepting anything. */
  ghost predicate FillState(canvas: Canvas, basicColor: Color, dist: (Color, Color) -> real, seed: Coords,
                            f: Fill, t: Trace, steps: nat)
    requires canvas.Valid()
  {
    && f.box == BoxOf(seed, t.accepted) && AllSimilar(canvas, basicColor, dist, t.accepted)
    && AllInCanvas(canvas, t.expanded) && Distinct(t.expanded)
    && (forall p :: p in f.visited <==> p in t.expanded)
    && |t.expanded| <= steps
    && (!canvas.Contains(seed) ==>
          t.accepted == [] && |f.queue| + steps == 1 && (|f.queue| > 0 ==> f.queue[0] == seed))
  }

  /** Expanding an unvisited pixel of the canvas keeps the fill invariant, one step later. */
  lemma ExpandKeepsFillState(canvas: Canvas, basicColor: Color, dist: (Color, Color) -> real, seed: Coords,
                             f: Fill, t: Trace, steps: nat)
    requires canvas.Valid() && |f.queue| > 0
    requires canvas.Contains(f.queue[0]) && f.queue[0] !in f.visited
    requires FillState(canvas, basicColor, dist, seed, f, t, steps)
    ensures var current := f.queue[0];
      var similar := SimilarOf(canvas, basicColor, dist, Neighbours(current));
      FillState(canvas, basicColor, dist, seed,
                Fill(f.queue[1..] + similar, f.visited + {current}, WidenAll(f.box, similar)),
                Trace(t.expanded + [current], t.accepted + similar), steps + 1)
  {
    var current := f.queue[0];
    var similar := SimilarOf(canvas, basicColor, dist, Neighbours(current));
    SimilarOfExactly(canvas, basicColor, dist, Neighbours(current));
    BoxOfAppend(seed, t.accepted, similar);
    var expanded := t.expanded + [current];
    assert current !in t.expanded;
    assert forall i :: 0 <= i < |t.expanded| ==> expanded[i] == t.expanded[i];
    assert Distinct(expanded);
    AllSimilarAppend(canvas, basicColor, dist, t.accepted, similar);
  }

  /** Concatenating two runs of similar pixels gives similar pixels. */
  lemma AllSimilarAppend(canvas: Canvas, basicColor: Color, dist: (Color, Color) -> real,
                         ps: seq<Coords>, qs: seq<Coords>)
    requires canvas.Valid()
    requires AllSimilar(canvas, basicColor, dist, ps) && AllSimilar(canvas, basicColor, dist, qs)
    ensures AllSimilar(canvas, basicColor, dist, ps + qs)
  {
    forall i | 0 <= i < |ps + qs|
      ensures canvas.Contains((ps + qs)[i]) && dist(basicColor, canvas.PixelAt((ps + qs)[i])) <= Tolerance
    {
      if i < |ps| {
        assert (ps + qs)[i] == ps[i];
      } else {
        assert (ps + qs)[i] == qs[i - |ps|];
      }
    }
  }

  /** `Visit` keeps the fill invariant, one step later. */
  lemma VisitKeepsFillState(canvas: Canvas, basicColor: Color, dist: (Color, Color) -> real, seed: Coords,
                            f: Fill, t: Trace, steps: nat)
    requires canvas.Valid() && |f.queue| > 0
    requires FillState(canvas, basicColor, dist, seed, f, t, steps)
    ensures FillState(canvas, basicColor, dist, seed, Visit(canvas, basicColor, dist, f),
                      VisitTrace(canvas, basicColor, dist, f, t), steps + 1)
  {
    if canvas.Contains(f.queue[0]) && f.queue[0] !in f.visited {
      ExpandKeepsFillState(canvas, basicColor, dist, seed, f, t, steps);
    }
  }

  /** What a finished fill guarantees about its result `r` and history `t`: at most one step
      past the cap, and then the zero box; otherwise the box of the seed and the accepted
      pixels. Every accepted pixel is similar to the seed colour; the expanded pixels are
      distinct, on the canvas and no more than the steps; a seed off the canvas stops the fill
      after one step with nothing accepted. */
  ghost predicate FillOutcome(canvas: Canvas, basicColor: Color, dist: (Color, Color) -> real, seed: Coords,
                              r: (Box, nat), t: Trace)
    requires canvas.Valid()
  {
    && r.1 <= StepCap + 1
    && (r.1 > StepCap ==> r.0 == Box(0, 0, 0, 0))
    && (r.1 <= StepCap ==> r.0 == BoxOf(seed, t.accepted))
    && AllSimilar(canvas, basicColor, dist, t.accepted)
    && AllInCanvas(canvas, t.expanded) && Distinct(t.expanded) && |t.expanded| <= r.1
    && (!canvas.Contains(seed) ==> r.1 <= 1 && t.accepted == [])
  }

  /** From any state satisfying the invariant the fill loop ends with that outcome. */
  lemma {:induction false} FillLoopOutcome(canvas: Canvas, basicColor: Color, dist: (Color, Color) -> real,
                                           seed: Coords, f: Fill, t: Trace, steps: nat)
    requires canvas.Valid() && steps <= StepCap
    requires FillState(canvas, basicColor, dist, seed, f, t, steps)
    ensures FillOutcome(canvas, basicColor, dist, seed, FillLoop(canvas, basicColor, dist, f, steps),
                        FillTrace(canvas, basicColor, dist, f, t, steps))
    decreases StepCap - steps
  {
    if |f.queue| > 0 && steps + 1 <= StepCap {
      VisitKeepsFillState(canvas, basicColor, dist, seed, f, t, steps);
      FillLoopOutcome(canvas, basicColor, dist, seed, Visit(canvas, basicColor, dist, f),
                      VisitTrace(canvas, basicColor, dist, f, t), steps + 1);
    }
  }

  /** The rectangle of a finished fill: zero when cut off, too short or seeded off the canvas;
      otherwise the bounding box of the seed and the accepted pixels, inside the canvas. */
  ghost predicate RectOutcome(canvas: Canvas, seed: Coords, r: (Box, nat), t: Trace, rect: Rect) {
    && (r.1 > StepCap || r.1 < MinSteps || !canvas.Contains(seed) ==> rect == ZeroRect)
    && (MinSteps <= r.1 <= StepCap ==>
          && rect == BoxRect(BoxOf(seed, t.accepted))
          && rect.width >= 0 && rect.height >= 0 && Encloses(rect, seed)
          && (forall i :: 0 <= i < |t.accepted| ==> Encloses(rect, t.accepted[i]))
          && 0 <= rect.x && rect.x + rect.width < canvas.width
          && 0 <= rect.y && rect.y + rect.height < canvas.height)
  }

  /** A fill with that outcome yields that rectangle. */
  lemma OutcomeRect(canvas: Canvas, basicColor: Color, dist: (Color, Color) -> real, seed: Coords,
                    r: (Box, nat), t: Trace)
    requires canvas.Valid() && FillOutcome(canvas, basicColor, dist, seed, r, t)
    ensures RectOutcome(canvas, seed, r, t, RectOf(r))
  {
    if MinSteps <= r.1 <= StepCap {
      FillBoxInCanvas(canvas, seed, t.accepted);
    }
  }

  /**
   * What `rectOnTap(x, y)` guarantees, with `r` the fill's final box and step count and `t`
   * its history: the outcome of `FillOutcome` (at most one step past `StepCap`; accepted
   * pixels within the tolerance of the seed colour; expanded pixels distinct, on the canvas
   * and no more than the steps), and the rectangle of `RectOutcome` (zero when cut off, too
   * short or seeded off the canvas; otherwise the bounding box of the seed and the accepted
   * pixels, inside the canvas).
   */
  lemma TapRectOutcome(canvas: Canvas, x: int, y: int, dist: (Color, Color) -> real)
    requires canvas.Valid()
    ensures var seed := Coords(x, y);
      var r := FillLoop(canvas, canvas.SeedColor(seed), dist, InitialFill(seed), 0);
      var t := FillTrace(canvas, canvas.SeedColor(seed), dist, InitialFill(seed), Trace([], []), 0);
      && FillOutcome(canvas, canvas.SeedColor(seed), dist, seed, r, t)
      && RectOutcome(canvas, seed, r, t, TapRect(canvas, x, y, dist))
  {
    var seed := Coords(x, y);
    var basicColor := canvas.SeedColor(seed);
    FillLoopOutcome(canvas, basicColor, dist, seed, InitialFill(seed), Trace([], []), 0);
    var r := FillLoop(canvas, basicColor, dist, InitialFill(seed), 0);
    var t := FillTrace(canvas, basicColor, dist, InitialFill(seed), Trace([], []), 0);
    OutcomeRect(canvas, basicColor, dist, seed, r, t);
  }

  /** One iteration of the fill after the step count. */
  method VisitFront(canvas: Canvas, basicColor: Color, dist: (Color, Color) -> real,
                    queue0: seq<Coords>, visited0: set<Coords>, box0: Box)
    returns (queue: seq<Coords>, visited: set<Coords>, box: Box)
    requires canvas.Valid() && |queue0| > 0
    ensures Fill(queue, visited, box) == Visit(canvas, basicColor, dist, Fill(queue0, visited0, box0))
  {
    var current := queue0[0];
    queue, visited, box := queue0[1..], visited0, box0;
    if canvas.Contains(current) && current !in visited {
      visited := visited + {current};
      queue, box := ExpandPixel(canvas, basicColor, dist, current, queue, box);
    }
  }

  /** A step of `FillLoop` that visits the front of a non-empty queue. */
  lemma FillLoopVisit(canvas: Canvas, basicColor: Color, dist: (Color, Color) -> real, f: Fill, steps: nat)
    requires canvas.Valid() && |f.queue| > 0 && steps + 1 <= StepCap
    ensures FillLoop(canvas, basicColor, dist, f, steps)
         == FillLoop(canvas, basicColor, dist, Visit(canvas, basicColor, dist, f), steps + 1)
  {
  }

  /** The step of `FillLoop` that passes `StepCap`. */
  lemma FillLoopCutOff(canvas: Canvas, basicColor: Color, dist: (Color, Color) -> real, f: Fill, steps: nat)
    requires canvas.Valid() && |f.queue| > 0 && steps == StepCap
    ensures FillLoop(canvas, basicColor, dist, f, steps) == (Box(0, 0, 0, 0), steps + 1)
  {
  }

  /** `FillLoop` over an empty queue. */
  lemma FillLoopDone(canvas: Canvas, basicColor: Color, dist: (Color, Color) -> real, f: Fill, steps: nat)
    requires canvas.Valid() && |f.queue| == 0 && steps <= StepCap
    ensures FillLoop(canvas, basicColor, dist, f, steps) == (f.box, steps)
  {
  }

  /**
   * The loop of `rectOnTap`: a breadth-first flood fill from the seed over 4-connected
   * neighbours whose colour is within `Tolerance` of `basicColor`, with its step counter.
   * Passing `StepCap` steps zeroes the box.
   */
  method FloodFill(canvas: Canvas, basicColor: Color, dist: (Color, Color) -> real, seed: Coords)
    returns (box: Box, steps: nat)
    requires canvas.Valid()
    ensures (box, steps) == FillLoop(canvas, basicColor, dist, InitialFill(seed), 0)
  {
    ghost var outcome := FillLoop(canvas, basicColor, dist, InitialFill(seed), 0);
    var visited: set<Coords> := {};
    box := SeedBox(seed);
    steps := 0;
    var queue := [seed];
    while |queue| > 0
      invariant steps <= StepCap
      invariant FillLoop(canvas, basicColor, dist, Fill(queue, visited, box), steps) == outcome
      decreases StepCap + 1 - steps
    {
      if steps + 1 > StepCap {
        FillLoopCutOff(canvas, basicColor, dist, Fill(queue, visited, box), steps);
        steps := steps + 1;
        box := Box(0, 0, 0, 0);
        return;
      }
      FillLoopVisit(canvas, basicColor, dist, Fill(queue, visited, box), steps);
      queue, visited, box := VisitFront(canvas, basicColor, dist, queue, visited, box);
      steps := steps + 1;
    }
    FillLoopDone(canvas, basicColor, dist, Fill(queue, visited, box), steps);
  }

  /**
   * `rectOnTap(x, y)`: flood-fills from `(x, y)` with the seed pixel's colour and returns the
   * bounding box of the accepted pixels, or the zero rectangle when the fill took fewer than
   * `MinSteps` steps or was cut off after `StepCap`; `TapRectOutcome` states what that means.
   */
  method RectOnTap(canvas: Canvas, x: int, y: int, dist: (Color, Color) -> real) returns (rect: Rect)
    requires canvas.Valid()
    ensures rect == TapRect(canvas, x, y, dist)
  {
    var seed := Coords(x, y);
    var box, steps := FloodFill(canvas, canvas.SeedColor(seed), dist, seed);
    if steps < MinSteps {
      box := Box(0, 0, 0, 0);
    }
    rect := BoxRect(box);
  }

  /** The rectangle of a fill whose seed and accepted pixels are in the canvas. */
  lemma FillBoxInCanvas(canvas: Canvas, seed: Coords, accepted: seq<Coords>)
    requires canvas.Contains(seed) && AllInCanvas(canvas, accepted)
    ensures var rect := BoxRect(BoxOf(seed, accepted));
      && rect.width >= 0 && rect.height >= 0 && Encloses(rect, seed)
      && (forall i :: 0 <= i < |accepted| ==> Encloses(rect, accepted[i]))
      && 0 <= rect.x && rect.x + rect.width < canvas.width
      && 0 <= rect.y && rect.y + rect.height < canvas.height
  {
    BoxOfBounds(seed, accepted);
    BoxOfWithin(canvas, seed, accepted);
  }

  // ---------- End of a drawing gesture ----------

  /** The drag rectangle of `end`: the smaller corner coordinates and the absolute differences. */
  function DragRect(start: Coords, finish: Coords): (r: Rect)
    ensures r.width >= 0 && r.height >= 0
    ensures Encloses(r, start) && Encloses(r, finish)
    ensures (r.x == start.x && r.x + r.width == finish.x) || (r.x == finish.x && r.x + r.width == start.x)
    ensures (r.y == start.y && r.y + r.height == finish.y) || (r.y == finish.y && r.y + r.height == start.y)
  {
    Rect(MinOf(start.x, finish.x), MinOf(start.y, finish.y), Abs(start.x - finish.x), Abs(start.y - finish.y))
  }

  /**
   * The drawing branch of `end`: the drag rectangle, or the flood-fill rectangle when the drag
   * has no area; the rectangle is pushed onto the current kind's list only when it has a
   * non-zero side and a draw mode is set. `rect` is the rectangle built.
   */
  method EndDrawing(rectangles: Rectangles, currentDraw: DrawType, start: Coords, finish: Coords,
                    canvas: Canvas, dist: (Color, Color) -> real)
    returns (result: Rectangles, rect: Rect)
    requires canvas.Valid()
    ensures var d := DragRect(start, finish);
      d.width != 0 && d.height != 0 ==> rect == d
    ensures var d := DragRect(start, finish);
      (d.width == 0 || d.height == 0) ==> rect == TapRect(canvas, start.x, start.y, dist)
    ensures var d := DragRect(start, finish);
      (d.width == 0 || d.height == 0) ==> rect == ZeroRect || Encloses(rect, start)
    ensures (rect.width != 0 || rect.height != 0) && currentDraw != NoDraw ==>
      result == rectangles.Push(currentDraw, rect)
    ensures (rect.width == 0 && rect.height == 0) || currentDraw == NoDraw ==> result == rectangles
  {
    rect := DragRect(start, finish);
    if rect.width == 0 || rect.height == 0 {
      rect := RectOnTap(canvas, start.x, start.y, dist);
      TapRectOutcome(canvas, start.x, start.y, dist);
    }
    if (rect.width != 0 || rect.height != 0) && currentDraw != NoDraw {
      result := rectangles.Push(currentDraw, rect);
    } else {
      result := rectangles;
    }
  }

  // ---------- Sizing and throttling ----------

  datatype Size = Size(width: real, height: real)

  /** `resize(oW, oH, nW, nH)`: the container size if it has the image's aspect ratio; else the
      container's width when the container is taller than wide, its height otherwise, with the
      other side following the image's aspect ratio. */
  function Resize(oW: real, oH: real, nW: real, nH: real): (s: Size)
    requires oW > 0.0 && oH > 0.0 && nW > 0.0 && nH > 0.0
    ensures s.width > 0.0 && s.height > 0.0
    ensures s.width / s.height == oW / oH
    ensures s.width == nW || s.height == nH
    ensures nW / nH != oW / oH && nH > nW ==> s.width == nW
    ensures nW / nH != oW / oH && nH <= nW ==> s.height == nH
  {
    var aspectRatio := oW / oH;
    var newAspectRatio := nW / nH;
    if aspectRatio == newAspectRatio then Size(nW, nH)
    else if nH > nW then Size(nW, nW / aspectRatio)
    else Size(nH * aspectRatio, nH)
  }

  /** `handleOnce`: the shared timestamp `ts` of the last event let through. */
  class Throttle {
    var ts: real

    constructor ()
      ensures ts == 0.0
    {
      ts := 0.0;
    }

    /** An event fires the handler only if it comes more than 100 ms after the last one that
        did; only a firing event moves the timestamp. */
    method Accept(timeStamp: real) returns (fire: bool)
      modifies this
      ensures fire <==> timeStamp - old(ts) > 100.0
      ensures ts == (if fire then timeStamp else old(ts))
    {
      fire := timeStamp - ts > 100.0;
      if fire {
        ts := timeStamp;
      }
    }
  }
}
