/**
 * Two-finger zooming and panning: 2x2 matrix algebra, affine transforms (a zoom matrix and a
 * pan vector), fitting a transform to two pairs of touch points, magnification clamping,
 * interpolation towards a transform, configuration defaults and the `Zoom` controller state.
 *
 * A JavaScript division by zero yields NaN or Infinity; the model returns `None` wherever the
 * source would compute a transform with such entries. An infinite `maxZoom` is `None`.
 */
module Zooming {
  import opened Types

  /** `vector`: `[x, y]`. */
  datatype Vector = Vector(x: real, y: real)

  /** `matrix`: `[c0, c1]`, two column vectors, as `applyTransformation` reads them. */
  datatype Matrix = Matrix(c0: Vector, c1: Vector)

  const Origin: Vector := Vector(0.0, 0.0)

  function ScalarMultiply(scalar: real, v: Vector): Vector {
    Vector(scalar * v.x, scalar * v.y)
  }

  function VectorAddition(a: Vector, b: Vector): Vector {
    Vector(a.x + b.x, a.y + b.y)
  }

  function VectorSubtraction(a: Vector, b: Vector): Vector {
    Vector(a.x - b.x, a.y - b.y)
  }

  function DotProduct(a: Vector, b: Vector): real {
    a.x * b.x + a.y * b.y
  }

  function WedgeProduct(a: Vector, b: Vector): real {
    a.x * b.y - a.y * b.x
  }

  /** `applyTransformation(M, v)`: `v[0]` times the first column plus `v[1]` times the second. */
  function ApplyTransformation(m: Matrix, v: Vector): Vector {
    VectorAddition(ScalarMultiply(v.x, m.c0), ScalarMultiply(v.y, m.c1))
  }

  /** `matrixMultiply(A, B)`: A applied to each column of B. */
  function MatrixMultiply(a: Matrix, b: Matrix): Matrix {
    Matrix(ApplyTransformation(a, b.c0), ApplyTransformation(a, b.c1))
  }

  const IdentityMatrix: Matrix := Matrix(Vector(1.0, 0.0), Vector(0.0, 1.0))

  /** The product is the composition: applying `A * B` is applying B, then A. */
  lemma MatrixMultiplyComposes(a: Matrix, b: Matrix, v: Vector)
    ensures ApplyTransformation(MatrixMultiply(a, b), v) == ApplyTransformation(a, ApplyTransformation(b, v))
  {
    var w := ApplyTransformation(b, v);
    var p := ApplyTransformation(MatrixMultiply(a, b), v);
    var q := ApplyTransformation(a, w);
    assert p.x == q.x by {
      calc {
        p.x;
        v.x * (b.c0.x * a.c0.x + b.c0.y * a.c1.x) + v.y * (b.c1.x * a.c0.x + b.c1.y * a.c1.x);
        (v.x * b.c0.x + v.y * b.c1.x) * a.c0.x + (v.x * b.c0.y + v.y * b.c1.y) * a.c1.x;
        q.x;
      }
    }
    assert p.y == q.y by {
      calc {
        p.y;
        v.x * (b.c0.x * a.c0.y + b.c0.y * a.c1.y) + v.y * (b.c1.x * a.c0.y + b.c1.y * a.c1.y);
        (v.x * b.c0.x + v.y * b.c1.x) * a.c0.y + (v.x * b.c0.y + v.y * b.c1.y) * a.c1.y;
        q.y;
      }
    }
  }

  /** Applying a matrix is linear: it distributes over addition and subtraction. */
  lemma ApplyIsLinear(m: Matrix, u: Vector, w: Vector)
    ensures ApplyTransformation(m, VectorAddition(u, w))
         == VectorAddition(ApplyTransformation(m, u), ApplyTransformation(m, w))
    ensures ApplyTransformation(m, VectorSubtraction(u, w))
         == VectorSubtraction(ApplyTransformation(m, u), ApplyTransformation(m, w))
  {
    assert (u.x + w.x) * m.c0.x == u.x * m.c0.x + w.x * m.c0.x;
    assert (u.y + w.y) * m.c1.x == u.y * m.c1.x + w.y * m.c1.x;
    assert (u.x + w.x) * m.c0.y == u.x * m.c0.y + w.x * m.c0.y;
    assert (u.y + w.y) * m.c1.y == u.y * m.c1.y + w.y * m.c1.y;
    assert (u.x - w.x) * m.c0.x == u.x * m.c0.x - w.x * m.c0.x;
    assert (u.y - w.y) * m.c1.x == u.y * m.c1.x - w.y * m.c1.x;
    assert (u.x - w.x) * m.c0.y == u.x * m.c0.y - w.x * m.c0.y;
    assert (u.y - w.y) * m.c1.y == u.y * m.c1.y - w.y * m.c1.y;
  }

  // ---------- Transforms ----------

  /** The value of a `Transform`: it maps `v` to `zoomMatrix * v + panVector`. */
  datatype Affine = Affine(zoomMatrix: Matrix, panVector: Vector)

  const IdentityTransform: Affine := Affine(IdentityMatrix, Origin)

  function Act(t: Affine, v: Vector): Vector {
    VectorAddition(ApplyTransformation(t.zoomMatrix, v), t.panVector)
  }

  /** `cascadeTransformations(T, U)`. */
  function CascadeTransformations(t: Affine, u: Affine): Affine {
    Affine(MatrixMultiply(t.zoomMatrix, u.zoomMatrix),
           VectorAddition(ApplyTransformation(t.zoomMatrix, u.panVector), t.panVector))
  }

  /** The cascade acts as U first, then T. */
  lemma CascadeActs(t: Affine, u: Affine, v: Vector)
    ensures Act(CascadeTransformations(t, u), v) == Act(t, Act(u, v))
  {
    MatrixMultiplyComposes(t.zoomMatrix, u.zoomMatrix, v);
    ApplyIsLinear(t.zoomMatrix, ApplyTransformation(u.zoomMatrix, v), u.panVector);
  }

  /** Cascading with the identity on the left changes nothing. */
  lemma CascadeIdentity(u: Affine)
    ensures CascadeTransformations(IdentityTransform, u) == u
  {
  }

  /** `rotateMatrix(cos, sin)`. */
  function RotateMatrix(cosTheta: real, sinTheta: real): Matrix {
    Matrix(Vector(cosTheta, sinTheta), Vector(-sinTheta, cosTheta))
  }

  /** `rotationScalingMatrix(a, b)`: the rotation-and-scaling taking `a` to `b`; `None` for a
      zero `a`, where the source divides by zero. */
  function RotationScalingMatrix(a: Vector, b: Vector): Option<Matrix> {
    var aLength := DotProduct(a, a);
    if aLength == 0.0 then None
    else Some(RotateMatrix(DotProduct(a, b) / aLength, WedgeProduct(a, b) / aLength))
  }

  /** For an `a` of non-zero length, the matrix exists and maps `a` exactly onto `b`. */
  lemma RotationScalingMapsAToB(a: Vector, b: Vector)
    requires DotProduct(a, a) != 0.0
    ensures RotationScalingMatrix(a, b).Some?
    ensures ApplyTransformation(RotationScalingMatrix(a, b).value, a) == b
  {
    var l := DotProduct(a, a);
    var c := DotProduct(a, b) / l;
    var s := WedgeProduct(a, b) / l;
    assert c * l == DotProduct(a, b);
    assert s * l == WedgeProduct(a, b);
    var r := ApplyTransformation(RotateMatrix(c, s), a);
    assert r.x * l == b.x * l by {
      calc {
        r.x * l;
        (a.x * c - a.y * s) * l;
        a.x * (c * l) - a.y * (s * l);
        a.x * (a.x * b.x + a.y * b.y) - a.y * (a.x * b.y - a.y * b.x);
        b.x * l;
      }
    }
    assert r.y * l == b.y * l by {
      calc {
        r.y * l;
        (a.x * s + a.y * c) * l;
        a.x * (s * l) + a.y * (c * l);
        a.x * (a.x * b.y - a.y * b.x) + a.y * (a.x * b.x + a.y * b.y);
        b.y * l;
      }
    }
  }

  /** Fitting `a` onto itself gives the identity matrix. */
  lemma RotationScalingOfSame(a: Vector)
    requires DotProduct(a, a) != 0.0
    ensures RotationScalingMatrix(a, a) == Some(IdentityMatrix)
  {
    var l := DotProduct(a, a);
    assert l / l == 1.0;
    assert WedgeProduct(a, a) == 0.0;
  }

  /** `justScalingMatrix(a, b)`: the scaling by `|b| / |a|`, with `sqrt` standing for
      `Math.sqrt`; `None` when `|a|` is zero. */
  function JustScalingMatrix(a: Vector, b: Vector, sqrt: real -> real): (m: Option<Matrix>)
    ensures m.Some? ==> m.value.c0.y == 0.0 && m.value.c1.x == 0.0 && m.value.c0.x == m.value.c1.y
  {
    var aLength := sqrt(DotProduct(a, a));
    var bLength := sqrt(DotProduct(b, b));
    if aLength == 0.0 then None
    else Some(RotateMatrix(bLength / aLength, 0.0))
  }

  /** `getMagnification(M)`: the absolute mean of the diagonal. */
  function GetMagnification(m: Matrix): real {
    RealAbs((m.c0.x + m.c1.y) / 2.0)
  }

  /** `scaleMatrix(M, s)`. */
  function ScaleMatrix(m: Matrix, scalar: real): Matrix {
    Matrix(ScalarMultiply(scalar, m.c0), ScalarMultiply(scalar, m.c1))
  }

  /** Scaling by `s` multiplies the magnification by `|s|`. */
  lemma MagnificationOfScaled(m: Matrix, s: real)
    ensures GetMagnification(ScaleMatrix(m, s)) == RealAbs(s) * GetMagnification(m)
  {
    var d := (m.c0.x + m.c1.y) / 2.0;
    assert (s * m.c0.x + s * m.c1.y) / 2.0 == s * d;
    AbsMul(s, d);
  }

  lemma AbsMul(x: real, y: real)
    ensures RealAbs(x * y) == RealAbs(x) * RealAbs(y)
  {
    if x < 0.0 && y < 0.0 {
      assert x * y == (-x) * (-y);
    } else if x < 0.0 {
      assert -(x * y) == (-x) * y;
    } else if y < 0.0 {
      assert -(x * y) == x * (-y);
    }
  }

  /**
   * The clamping step of `zoomTransformation`: below `minZoom` the matrix is scaled up to it,
   * above `maxZoom` down to it. A missing bound never applies (a NaN `minZoom`, an infinite
   * `maxZoom`); a zero magnification that must be scaled gives `None`.
   */
  function ClampMagnification(m: Matrix, minZoom: Option<real>, maxZoom: Option<real>): Option<Matrix> {
    var g := GetMagnification(m);
    if minZoom.Some? && g < minZoom.value then
      (if g == 0.0 then None else Some(ScaleMatrix(m, minZoom.value / g)))
    else if maxZoom.Some? && g > maxZoom.value then
      (if g == 0.0 then None else Some(ScaleMatrix(m, maxZoom.value / g)))
    else Some(m)
  }

  /** With a positive magnification and bounds `0 <= minZoom <= maxZoom`, clamping succeeds,
      keeps the matrix's shape (a non-negative multiple of it, positive unless `maxZoom` is 0)
      and puts its magnification within the bounds. */
  lemma ClampWithinBounds(m: Matrix, minZoom: Option<real>, maxZoom: Option<real>)
    requires GetMagnification(m) > 0.0
    requires minZoom.Some? ==> 0.0 <= minZoom.value
    requires maxZoom.Some? ==> 0.0 <= maxZoom.value
    requires minZoom.Some? && maxZoom.Some? ==> minZoom.value <= maxZoom.value
    ensures ClampMagnification(m, minZoom, maxZoom).Some?
    ensures exists k: real ::
      (k > 0.0 || (k == 0.0 && maxZoom == Some(0.0))) && ClampMagnification(m, minZoom, maxZoom).value == ScaleMatrix(m, k)
    ensures var g' := GetMagnification(ClampMagnification(m, minZoom, maxZoom).value);
      (minZoom.Some? ==> minZoom.value <= g') && (maxZoom.Some? ==> g' <= maxZoom.value)
  {
    var g := GetMagnification(m);
    if minZoom.Some? && g < minZoom.value {
      ScaledTo(m, minZoom.value);
    } else if maxZoom.Some? && g > maxZoom.value {
      ScaledTo(m, maxZoom.value);
    } else {
      assert m == ScaleMatrix(m, 1.0);
    }
  }

  /** Scaling by `target / g` brings magnification `g > 0` to `target >= 0`. */
  lemma ScaledTo(m: Matrix, target: real)
    requires GetMagnification(m) > 0.0 && target >= 0.0
    ensures var k := target / GetMagnification(m);
      k >= 0.0 && (k == 0.0 <==> target == 0.0) && GetMagnification(ScaleMatrix(m, k)) == target
  {
    var g := GetMagnification(m);
    var k := target / g;
    MagnificationOfScaled(m, k);
    assert k * g == target;
  }

  /**
   * `zoomTransformation(source, destination, allowRotation, minZoom, maxZoom)`: the transform
   * taking the source touch pair to the destination pair, by rotation and scaling or by
   * scaling alone, with the magnification clamped and the pan placing `source[0]` on
   * `destination[0]`.
   */
  function ZoomTransformation(source: Matrix, destination: Matrix, allowRotation: bool,
                              minZoom: Option<real>, maxZoom: Option<real>, sqrt: real -> real): Option<Affine>
  {
    var a := VectorSubtraction(source.c1, source.c0);
    var b := VectorSubtraction(destination.c1, destination.c0);
    var fitted := if allowRotation then RotationScalingMatrix(a, b) else JustScalingMatrix(a, b, sqrt);
    if fitted.None? then None
    else
      var m := ClampMagnification(fitted.value, minZoom, maxZoom);
      if m.None? then None
      else Some(Affine(m.value, VectorSubtraction(destination.c0, ApplyTransformation(m.value, source.c0))))
  }

  /** Whatever the clamping, the first source point lands on the first destination point. */
  lemma ZoomFixesFirstPoint(source: Matrix, destination: Matrix, allowRotation: bool,
                            minZoom: Option<real>, maxZoom: Option<real>, sqrt: real -> real)
    requires ZoomTransformation(source, destination, allowRotation, minZoom, maxZoom, sqrt).Some?
    ensures Act(ZoomTransformation(source, destination, allowRotation, minZoom, maxZoom, sqrt).value, source.c0)
         == destination.c0
  {
  }

  /** With rotation allowed, a fitted matrix (the source points are apart) and no clamping,
      the transform also takes the second source point onto the second destination point. */
  lemma ZoomMapsSecondPoint(source: Matrix, destination: Matrix, minZoom: Option<real>, maxZoom: Option<real>,
                            sqrt: real -> real)
    requires var fitted := RotationScalingMatrix(VectorSubtraction(source.c1, source.c0),
                                                 VectorSubtraction(destination.c1, destination.c0));
      fitted.Some? && var g := GetMagnification(fitted.value);
      !(minZoom.Some? && g < minZoom.value) && !(maxZoom.Some? && g > maxZoom.value)
    ensures ZoomTransformation(source, destination, true, minZoom, maxZoom, sqrt).Some?
    ensures Act(ZoomTransformation(source, destination, true, minZoom, maxZoom, sqrt).value, source.c1)
         == destination.c1
  {
    var a := VectorSubtraction(source.c1, source.c0);
    var b := VectorSubtraction(destination.c1, destination.c0);
    RotationScalingMapsAToB(a, b);
    var m := RotationScalingMatrix(a, b).value;
    ApplyIsLinear(m, source.c1, source.c0);
  }

  /** Without rotation, the zoom matrix is a pure scaling. */
  lemma ZoomWithoutRotationScalesOnly(source: Matrix, destination: Matrix,
                                      minZoom: Option<real>, maxZoom: Option<real>, sqrt: real -> real)
    requires ZoomTransformation(source, destination, false, minZoom, maxZoom, sqrt).Some?
    ensures var m := ZoomTransformation(source, destination, false, minZoom, maxZoom, sqrt).value.zoomMatrix;
      m.c0.y == 0.0 && m.c1.x == 0.0 && m.c0.x == m.c1.y
  {
  }

  /** The two touches of a pair are at a non-zero distance. */
  predicate Apart(touches: Matrix) {
    var a := VectorSubtraction(touches.c1, touches.c0);
    DotProduct(a, a) != 0.0
  }

  /** Two touches that have not moved give the identity, whenever magnification 1 is allowed. */
  lemma ZoomOfStillTouches(source: Matrix, minZoom: Option<real>, maxZoom: Option<real>, sqrt: real -> real)
    requires Apart(source)
    requires minZoom.Some? ==> minZoom.value <= 1.0
    requires maxZoom.Some? ==> 1.0 <= maxZoom.value
    ensures ZoomTransformation(source, source, true, minZoom, maxZoom, sqrt) == Some(IdentityTransform)
  {
    RotationScalingOfSame(VectorSubtraction(source.c1, source.c0));
  }

  // ---------- Interpolation ----------

  /** `averageVector(v1, v2, progress)`: `(1 - progress) v1 + progress v2`. */
  function AverageVector(v1: Vector, v2: Vector, progress: real): Vector {
    VectorAddition(ScalarMultiply(1.0 - progress, v1), ScalarMultiply(progress, v2))
  }

  function AverageMatrix(m1: Matrix, m2: Matrix, progress: real): Matrix {
    Matrix(AverageVector(m1.c0, m2.c0, progress), AverageVector(m1.c1, m2.c1, progress))
  }

  /** `Transform.average(Z, I, progress)`. */
  function AverageTransform(z: Affine, i: Affine, progress: real): Affine {
    Affine(AverageMatrix(z.zoomMatrix, i.zoomMatrix, progress), AverageVector(z.panVector, i.panVector, progress))
  }

  /** The interpolation starts at the first transform and ends at the second, and stays put
      between a transform and itself. */
  lemma AverageEndpoints(z: Affine, i: Affine, progress: real)
    ensures AverageTransform(z, i, 0.0) == z
    ensures AverageTransform(z, i, 1.0) == i
    ensures AverageTransform(z, z, progress) == z
  {
    AverageOfSame(z.zoomMatrix.c0, progress);
    AverageOfSame(z.zoomMatrix.c1, progress);
    AverageOfSame(z.panVector, progress);
  }

  lemma AverageOfSame(v: Vector, progress: real)
    ensures AverageVector(v, v, progress) == v
  {
    assert (1.0 - progress) * v.x + progress * v.x == v.x;
    assert (1.0 - progress) * v.y + progress * v.y == v.y;
  }

  // ---------- Configuration ----------

  /** `Config`; `maxZoom == None` is `Infinity`. */
  datatype Config = Config(rotate: bool, pan: bool, minZoom: real, maxZoom: Option<real>)

  /** `Partial<Config>`: `None` is an undefined field. */
  datatype PartialConfig = PartialConfig(rotate: Option<bool>, pan: Option<bool>, minZoom: Option<real>,
                                         maxZoom: Option<Option<real>>)

  /** The defaults the `Zoom` constructor supplies. */
  const DefaultConfig: Config := Config(true, false, 0.0, None)

  /** `applyDefaults(provided, default)`. */
  function ApplyDefaults<T>(providedValue: Option<T>, defaultValue: T): (r: T)
    ensures providedValue.Some? ==> r == providedValue.value
    ensures providedValue.None? ==> r == defaultValue
  {
    if providedValue.None? then defaultValue else providedValue.value
  }

  /** `setDefaultConfig(provided, default)`: field by field. */
  function SetDefaultConfig(providedConfig: PartialConfig, defaultConfig: Config): (c: Config)
    ensures c.rotate == ApplyDefaults(providedConfig.rotate, defaultConfig.rotate)
    ensures c.pan == ApplyDefaults(providedConfig.pan, defaultConfig.pan)
    ensures c.minZoom == ApplyDefaults(providedConfig.minZoom, defaultConfig.minZoom)
    ensures c.maxZoom == ApplyDefaults(providedConfig.maxZoom, defaultConfig.maxZoom)
  {
    Config(ApplyDefaults(providedConfig.rotate, defaultConfig.rotate),
           ApplyDefaults(providedConfig.pan, defaultConfig.pan),
           ApplyDefaults(providedConfig.minZoom, defaultConfig.minZoom),
           ApplyDefaults(providedConfig.maxZoom, defaultConfig.maxZoom))
  }

  /** A full configuration as a partial one. */
  function Provided(c: Config): PartialConfig {
    PartialConfig(Some(c.rotate), Some(c.pan), Some(c.minZoom), Some(c.maxZoom))
  }

  /** Nothing provided gives the defaults; everything provided overrides them all. */
  lemma SetDefaultConfigExtremes(c: Config, d: Config)
    ensures SetDefaultConfig(PartialConfig(None, None, None, None), d) == d
    ensures SetDefaultConfig(Provided(c), d) == c
  {
  }

  // ---------- The controller ----------

  /** The six numbers `css()` prints into `matrix(...)`. */
  datatype CssMatrix = CssMatrix(a: real, b: real, c: real, d: real, e: real, f: real)

  /** What `css()` leaves in a transform: the pan is zeroed when both diagonal entries are 1. */
  function PanReset(t: Affine): Affine {
    if t.zoomMatrix.c0.x == 1.0 && t.zoomMatrix.c1.y == 1.0 then t.(panVector := Origin) else t
  }

  function CssOf(t: Affine): CssMatrix {
    CssMatrix(t.zoomMatrix.c0.x, t.zoomMatrix.c0.y, t.zoomMatrix.c1.x, t.zoomMatrix.c1.y, t.panVector.x, t.panVector.y)
  }

  /** Resetting the pan is idempotent, keeps the zoom matrix, and on a full zoom-out the
      transform acts as the identity. */
  lemma PanResetProperties(t: Affine, v: Vector)
    ensures PanReset(PanReset(t)) == PanReset(t)
    ensures PanReset(t).zoomMatrix == t.zoomMatrix
    ensures t.zoomMatrix == IdentityMatrix ==> Act(PanReset(t), v) == v
    ensures t.zoomMatrix.c0.x != 1.0 || t.zoomMatrix.c1.y != 1.0 ==> PanReset(t) == t
  {
  }

  /** `Transform`: a zoom matrix and a pan vector, the latter reset in place by `css()`. */
  class Transform {
    var zoomMatrix: Matrix
    var panVector: Vector

    function Value(): Affine
      reads this
    {
      Affine(zoomMatrix, panVector)
    }

    constructor (t: Affine)
      ensures Value() == t
    {
      zoomMatrix, panVector := t.zoomMatrix, t.panVector;
    }

    /** `css()`: resets the pan on full zoom-out, then renders the six entries. */
    method Css() returns (rendered: CssMatrix)
      modifies this
      ensures Value() == PanReset(old(Value()))
      ensures rendered == CssOf(Value())
    {
      if zoomMatrix.c0.x == 1.0 && zoomMatrix.c1.y == 1.0 {
        panVector := Origin;
      }
      rendered := CssMatrix(zoomMatrix.c0.x, zoomMatrix.c0.y, zoomMatrix.c1.x, zoomMatrix.c1.y, panVector.x, panVector.y);
    }
  }

  /** The extra zoom `previewZoom` fits, with the bounds divided by the active magnification
      (`zoomLevel`); a division by a zero level gives NaN or an infinite bound as in
      JavaScript, and a positive `minZoom` over a zero level makes the transform non-finite. */
  function AdditionalZoom(src: Matrix, dest: Matrix, config: Config, zoomLevel: real, sqrt: real -> real): Option<Affine> {
    if zoomLevel == 0.0 then
      if config.minZoom > 0.0 then None
      else if config.maxZoom.Some? && config.maxZoom.value < 0.0 then None
      else ZoomTransformation(src, dest, config.rotate, None, None, sqrt)
    else
      var maxZoom := if config.maxZoom.Some? then Some(config.maxZoom.value / zoomLevel) else None;
      ZoomTransformation(src, dest, config.rotate, Some(config.minZoom / zoomLevel), maxZoom, sqrt)
  }

  /** `Zoom`: the gesture state. `sqrt` stands for `Math.sqrt`. */
  class Zoom {
    var curTouch: nat
    var activeZoom: Transform
    var resultantZoom: Transform
    var srcCoords: Matrix
    var destCoords: Matrix
    const config: Config
    const sqrt: real -> real

    /** The constructor's state: the provided configuration over the defaults, identity
        transforms and zero coordinates. */
    constructor (providedConfig: PartialConfig, sqrt: real -> real)
      ensures config == SetDefaultConfig(providedConfig, DefaultConfig) && this.sqrt == sqrt
      ensures curTouch == 0
      ensures activeZoom.Value() == IdentityTransform && resultantZoom.Value() == IdentityTransform
      ensures fresh(activeZoom) && fresh(resultantZoom) && activeZoom != resultantZoom
      ensures srcCoords == Matrix(Origin, Origin) && destCoords == Matrix(Origin, Origin)
    {
      curTouch := 0;
      activeZoom := new Transform(IdentityTransform);
      resultantZoom := new Transform(IdentityTransform);
      srcCoords := Matrix(Origin, Origin);
      destCoords := Matrix(Origin, Origin);
      config := SetDefaultConfig(providedConfig, DefaultConfig);
      this.sqrt := sqrt;
    }

    /** `finalize()`: the previewed transform becomes the active one (the same object). */
    method Finalize()
      modifies this
      ensures activeZoom == old(resultantZoom) && resultantZoom == old(resultantZoom)
      ensures curTouch == old(curTouch) && srcCoords == old(srcCoords) && destCoords == old(destCoords)
    {
      activeZoom := resultantZoom;
    }

    /** `previewZoom()`: cascades the fitted extra zoom onto the active one and repaints. The
        source computes non-finite entries when `AdditionalZoom` is `None`; callers exclude it. */
    method PreviewZoom() returns (rendered: CssMatrix)
      requires AdditionalZoom(srcCoords, destCoords, config, GetMagnification(activeZoom.zoomMatrix), sqrt).Some?
      modifies this
      ensures activeZoom == old(activeZoom) && curTouch == old(curTouch)
      ensures srcCoords == old(srcCoords) && destCoords == old(destCoords)
      ensures fresh(resultantZoom)
      ensures var extra := AdditionalZoom(srcCoords, destCoords, config, GetMagnification(activeZoom.zoomMatrix), sqrt);
        resultantZoom.Value() == PanReset(CascadeTransformations(extra.value, activeZoom.Value()))
      ensures rendered == CssOf(resultantZoom.Value())
    {
      var zoomLevel := GetMagnification(activeZoom.zoomMatrix);
      var additionalZoom := AdditionalZoom(srcCoords, destCoords, config, zoomLevel, sqrt);
      resultantZoom := new Transform(CascadeTransformations(additionalZoom.value, activeZoom.Value()));
      rendered := resultantZoom.Css();
    }

    /**
     * `handleZoom(touches)`, given the touch count and the touch pair `getCoords` made of
     * them: a new count finalises the preview and restarts the gesture from the new touches;
     * the same count moves the destination and previews (returning what was rendered).
     */
    method HandleZoom(numOfFingers: nat, coords: Matrix) returns (rendered: Option<CssMatrix>)
      requires numOfFingers == curTouch ==>
        AdditionalZoom(srcCoords, coords, config, GetMagnification(activeZoom.zoomMatrix), sqrt).Some?
      modifies this
      ensures numOfFingers != old(curTouch) ==>
        && rendered.None? && curTouch == numOfFingers
        && activeZoom == old(resultantZoom) && resultantZoom == old(resultantZoom)
        && (numOfFingers != 0 ==> srcCoords == coords && destCoords == coords)
        && (numOfFingers == 0 ==> srcCoords == old(srcCoords) && destCoords == old(destCoords))
      ensures numOfFingers == old(curTouch) ==>
        && curTouch == old(curTouch) && activeZoom == old(activeZoom)
        && srcCoords == old(srcCoords) && destCoords == coords && fresh(resultantZoom)
        && resultantZoom.Value() == PanReset(CascadeTransformations(
             AdditionalZoom(srcCoords, coords, config, GetMagnification(activeZoom.zoomMatrix), sqrt).value,
             activeZoom.Value()))
        && rendered == Some(CssOf(resultantZoom.Value()))
    {
      if numOfFingers != curTouch {
        curTouch := numOfFingers;
        Finalize();
        if numOfFingers != 0 {
          srcCoords := coords;
          destCoords := srcCoords;
        }
        rendered := None;
      } else {
        destCoords := coords;
        var css := PreviewZoom();
        rendered := Some(css);
      }
    }
  }

  /** A gesture that starts and then reports the same, unmoved touches previews the active
      zoom unchanged (up to the pan reset on full zoom-out). */
  lemma StillGestureKeepsZoom(src: Matrix, config: Config, active: Affine, sqrt: real -> real)
    requires Apart(src)
    requires GetMagnification(active.zoomMatrix) > 0.0
    requires config.minZoom <= GetMagnification(active.zoomMatrix)
    requires config.maxZoom.Some? ==> GetMagnification(active.zoomMatrix) <= config.maxZoom.value
    requires config.rotate
    ensures AdditionalZoom(src, src, config, GetMagnification(active.zoomMatrix), sqrt) == Some(IdentityTransform)
    ensures CascadeTransformations(IdentityTransform, active) == active
  {
    var g := GetMagnification(active.zoomMatrix);
    assert config.minZoom / g <= 1.0;
    if config.maxZoom.Some? {
      assert 1.0 <= config.maxZoom.value / g;
    }
    ZoomOfStillTouches(src, Some(config.minZoom / g),
                       if config.maxZoom.Some? then Some(config.maxZoom.value / g) else None, sqrt);
    CascadeIdentity(active);
  }
}
