/** Value types shared by the colour-matching engine and the drawing layer. */
module Types {

  /** Optional value; `None` stands for JavaScript's `undefined` (or a NaN "no data" result). */
  datatype Option<+T> = None | Some(value: T)

  /** One channel of an 8-bit RGBA pixel buffer (a `Uint8ClampedArray` element). */
  type Byte = x: int | 0 <= x < 256

  /** An sRGB colour triple `[r, g, b]`. */
  datatype Color = Color(r: Byte, g: Byte, b: Byte)

  /** Integer pointer or pixel coordinates. */
  datatype Coords = Coords(x: int, y: int)

  /** A rectangle in canvas pixel space. */
  datatype Rect = Rect(x: int, y: int, width: int, height: int)

  /** The degenerate rectangle `{0, 0, 0, 0}`: "no usable region". */
  const ZeroRect := Rect(0, 0, 0, 0)

  /** Which kind of rectangle the user is drawing: `"shades"`, `"teeth"` or `""`. */
  datatype DrawType = Shades | Teeth | NoDraw

  function MaxOf(a: int, b: int): int { if a >= b then a else b }
  function MinOf(a: int, b: int): int { if a <= b then a else b }
  function Abs(a: int): nat { if a < 0 then -a else a }
  function RealAbs(a: real): real { if a < 0.0 then -a else a }
}
