/**
 * Colour encodings: `#rrggbb` strings and HSL.
 * The Lab conversion (gamma curve, cube roots) is floating-point numerics and is not part of
 * this module; it appears elsewhere as an opaque `Color -> Lab` parameter.
 */
module Conversion {
  import opened Types

  // ---------------------------------------------------------------------------------------
  // Hexadecimal digits and `Number.prototype.toString(16)`
  // ---------------------------------------------------------------------------------------

  const LowerHexDigits: string := "0123456789abcdef"

  predicate IsHexDigit(ch: char) {
    ('0' <= ch <= '9') || ('a' <= ch <= 'f') || ('A' <= ch <= 'F')
  }

  predicate IsLowerHexDigit(ch: char) {
    ('0' <= ch <= '9') || ('a' <= ch <= 'f')
  }

  predicate AllHexDigits(s: string) {
    forall i :: 0 <= i < |s| ==> IsHexDigit(s[i])
  }

  /** The value of one hexadecimal digit, either case (as `parseInt(_, 16)` reads it). */
  function DigitValue(ch: char): (v: nat)
    requires IsHexDigit(ch)
    ensures v < 16
  {
    if '0' <= ch <= '9' then ch as int - '0' as int
    else if 'a' <= ch <= 'f' then ch as int - 'a' as int + 10
    else ch as int - 'A' as int + 10
  }

  /** The lower-case digit for a value below 16. */
  function HexDigit(d: nat): (ch: char)
    requires d < 16
    ensures IsLowerHexDigit(ch) && DigitValue(ch) == d
  {
    LowerHexDigits[d]
  }

  /** `n.toString(16)` for a non-negative integer: most significant digit first, no padding. */
  function ToHexString(n: nat): string
    decreases n
  {
    if n < 16 then [HexDigit(n)] else ToHexString(n / 16) + [HexDigit(n % 16)]
  }

  /** `parseInt(s, 16)` on a string made only of hexadecimal digits. */
  function ParseHex(s: string): nat
    requires AllHexDigits(s)
  {
    if s == [] then 0 else ParseHex(s[..|s| - 1]) * 16 + DigitValue(s[|s| - 1])
  }

  /** One component of `rgbToHex`: its `toString(16)`, left-padded with "0" to two digits. */
  function ComponentHex(component: nat): string
  {
    var hex := ToHexString(component);
    if |hex| == 1 then "0" + hex else hex
  }

  /** `rgbToHex`: `"#"` followed by the three padded components. */
  function RgbToHex(rgb: Color): string
  {
    "#" + ComponentHex(rgb.r) + ComponentHex(rgb.g) + ComponentHex(rgb.b)
  }

  lemma ComponentHexDigits(component: Byte)
    ensures |ComponentHex(component)| == 2
    ensures forall i :: 0 <= i < 2 ==> IsLowerHexDigit(ComponentHex(component)[i])
    ensures AllHexDigits(ComponentHex(component))
    ensures ParseHex(ComponentHex(component)) == component
  {
    var hex := ComponentHex(component);
    if component < 16 {
      assert hex == ['0', HexDigit(component)];
      assert hex[..1] == ['0'];
    } else {
      assert ToHexString(component / 16) == [HexDigit(component / 16)];
      var hi, lo := HexDigit(component / 16), HexDigit(component % 16);
      assert hex == [hi, lo];
      assert hex[..1] == [hi] && [hi][..0] == [];
      assert ParseHex([hi]) == component / 16;
      assert ParseHex(hex) == ParseHex([hi]) * 16 + DigitValue(lo);
    }
  }

  /** A seven-character string `#` + six lower-case digits, two per component, in r, g, b order. */
  lemma RgbToHexFormat(rgb: Color)
    ensures |RgbToHex(rgb)| == 7
    ensures RgbToHex(rgb)[0] == '#'
    ensures forall i :: 1 <= i < 7 ==> IsLowerHexDigit(RgbToHex(rgb)[i])
    ensures RgbToHex(rgb)[1..3] == ComponentHex(rgb.r)
    ensures RgbToHex(rgb)[3..5] == ComponentHex(rgb.g)
    ensures RgbToHex(rgb)[5..7] == ComponentHex(rgb.b)
  {
    ComponentHexDigits(rgb.r);
    ComponentHexDigits(rgb.g);
    ComponentHexDigits(rgb.b);
  }

  // ---------------------------------------------------------------------------------------
  // `hexToRGBA`
  // ---------------------------------------------------------------------------------------

  /** `s.replace("#", "")` with a string pattern: only the FIRST '#' is removed. */
  /** The position of the first '#' in `s`. */
  function FirstHash(s: string): (i: nat)
    requires '#' in s
    ensures i < |s| && s[i] == '#' && '#' !in s[..i]
  {
    if s[0] == '#' then 0
    else
      HashInTail(s);
      var j := FirstHash(s[1..]);
      assert s[..j + 1] == [s[0]] + s[1..][..j];
      j + 1
  }

  /** A '#' of `s` that is not its first character is a '#' of its tail. */
  lemma HashInTail(s: string)
    requires |s| > 0 && s[0] != '#'
    ensures '#' in s <==> '#' in s[1..]
  {
    assert s == [s[0]] + s[1..];
  }

  function RemoveFirstHash(s: string): (r: string)
    ensures '#' in s ==> |r| == |s| - 1
    ensures '#' in s ==> r == s[..FirstHash(s)] + s[FirstHash(s) + 1..]
    ensures '#' !in s ==> r == s
  {
    if s == [] then []
    else if s[0] == '#' then s[1..]
    else
      var rest := RemoveFirstHash(s[1..]);
      RemoveHashStep(s, rest);
      [s[0]] + rest
  }

  /** Putting back a first character that is not '#' keeps the first '#' removed. */
  lemma RemoveHashStep(s: string, rest: string)
    requires |s| > 0 && s[0] != '#'
    requires '#' in s[1..] ==> rest == s[1..][..FirstHash(s[1..])] + s[1..][FirstHash(s[1..]) + 1..]
    requires '#' !in s[1..] ==> rest == s[1..]
    ensures '#' in s ==> [s[0]] + rest == s[..FirstHash(s)] + s[FirstHash(s) + 1..]
    ensures '#' !in s ==> [s[0]] + rest == s
  {
    HashInTail(s);
    if '#' in s[1..] {
      FirstHashOfTail(s);
      SliceAroundTail(s, FirstHash(s[1..]));
    } else {
      assert s == [s[0]] + s[1..];
    }
  }

  /** The first '#' of `s`, which does not start with one, is one past that of its tail. */
  lemma FirstHashOfTail(s: string)
    requires |s| > 0 && s[0] != '#' && '#' in s[1..] && '#' in s
    ensures FirstHash(s) == FirstHash(s[1..]) + 1
  {
  }

  /** Cutting `s` around position `j + 1` is cutting its tail around `j`. */
  lemma SliceAroundTail(s: string, j: nat)
    requires j + 1 < |s|
    ensures [s[0]] + (s[1..][..j] + s[1..][j + 1..]) == s[..j + 1] + s[j + 2..]
  {
    assert s[..j + 1] == [s[0]] + s[1..][..j];
    assert s[j + 2..] == s[1..][j + 1..];
  }

  /** JavaScript's `ToInt32`: the integer modulo 2^32, read as a signed 32-bit value. */
  function ToInt32(v: int): (w: int)
    ensures -0x8000_0000 <= w < 0x8000_0000
    ensures (w - v) % 0x1_0000_0000 == 0
  {
    var u := v % 0x1_0000_0000;
    if u >= 0x8000_0000 then u - 0x1_0000_0000 else u
  }

  function Pow2(k: nat): (p: nat)
    ensures p >= 1
  {
    if k == 0 then 1 else 2 * Pow2(k - 1)
  }

  /** `x >> k` on a signed 32-bit value: arithmetic shift, i.e. floor division by 2^k. */
  function ShiftRight(x: int, k: nat): int
  {
    x / Pow2(k)   // Dafny's division by a positive divisor rounds toward minus infinity
  }

  /** `x & 255` on a signed 32-bit value: its low eight bits (two's complement). */
  function Low8(x: int): Byte
  {
    x % 256
  }

  /** Inputs this model covers: after the first '#' is removed, 1 to 13 hexadecimal digits
      (13 digits is 52 bits, so `parseInt` returns the exact integer). */
  predicate WellFormedHex(hex: string) {
    var digits := RemoveFirstHash(hex);
    AllHexDigits(digits) && 1 <= |digits| <= 13
  }

  /** `hexToRGBA`: parse, then shift and mask each channel out of the 32-bit value. */
  function HexToRgba(hex: string): Color
    requires WellFormedHex(hex)
  {
    var bigint := ParseHex(RemoveFirstHash(hex));
    Color(Low8(ShiftRight(ToInt32(bigint), 16)),
          Low8(ShiftRight(ToInt32(bigint), 8)),
          Low8(ToInt32(bigint)))
  }

  lemma ParseHexBound(s: string)
    requires AllHexDigits(s)
    ensures ParseHex(s) < Pow16(|s|)
    decreases |s|
  {
    if s != [] {
      ParseHexBound(s[..|s| - 1]);
    }
  }

  function Pow16(k: nat): (p: nat)
    ensures p >= 1
  {
    if k == 0 then 1 else 16 * Pow16(k - 1)
  }

  /** Each channel of `hexToRGBA` is bits 16..23, 8..15 and 0..7 of the parsed value. */
  lemma {:induction false} HexToRgbaChannels(hex: string)
    requires WellFormedHex(hex)
    ensures var v := ParseHex(RemoveFirstHash(hex));
      HexToRgba(hex) == Color((v / 65536) % 256, (v / 256) % 256, v % 256)
  {
    var v := ParseHex(RemoveFirstHash(hex));
    var w := ToInt32(v);
    assert Pow2(8) == 256;
    assert Pow2(16) == 65536 by { assert Pow2(16) == 256 * Pow2(8) by { Pow2Split(8, 8); } }
    ShiftLow8(v, w, 65536);
    ShiftLow8(v, w, 256);
    ShiftLow8(v, w, 1);
    assert ShiftRight(w, 16) == w / 65536;
    assert ShiftRight(w, 8) == w / 256;
  }

  lemma {:induction false} Pow2Split(a: nat, b: nat)
    ensures Pow2(a + b) == Pow2(a) * Pow2(b)
    decreases a
  {
    if a > 0 {
      Pow2Split(a - 1, b);
    }
  }

  /** A value and its 32-bit wrap agree in bits 0..23. */
  lemma ShiftLow8(v: int, w: int, p: int)
    requires p == 1 || p == 256 || p == 65536
    requires (w - v) % 0x1_0000_0000 == 0
    ensures (w / p) % 256 == (v / p) % 256
  {
    var k := (w - v) / 0x1_0000_0000;
    assert w == v + k * 0x1_0000_0000;
    if p == 1 {
      assert w == v + (k * 0x100_0000) * 256;
    } else if p == 256 {
      assert w == v + (k * 0x100_0000) * 256;
      assert w / 256 == v / 256 + (k * 0x1_0000) * 256;
    } else {
      assert w / 65536 == v / 65536 + (k * 256) * 256;
    }
  }

  /** For six hex digits the three channels recompose the parsed value exactly. */
  lemma {:induction false} HexToRgbaRecompose(hex: string)
    requires WellFormedHex(hex) && |RemoveFirstHash(hex)| == 6
    ensures var c := HexToRgba(hex);
      c.r * 65536 + c.g * 256 + c.b == ParseHex(RemoveFirstHash(hex))
  {
    var v := ParseHex(RemoveFirstHash(hex));
    ParseHexBound(RemoveFirstHash(hex));
    assert Pow16(6) == 16777216 by { Pow16Six(); }
    HexToRgbaChannels(hex);
    Recompose(v);
  }

  lemma Pow16Six()
    ensures Pow16(6) == 16777216
  {
    assert Pow16(2) == 256;
    assert Pow16(4) == 65536;
  }

  lemma Recompose(v: int)
    requires 0 <= v < 16777216
    ensures ((v / 65536) % 256) * 65536 + ((v / 256) % 256) * 256 + v % 256 == v
  {
    assert v / 65536 < 256;
    assert v == (v / 65536) * 65536 + v % 65536;
    assert v % 65536 == ((v / 256) % 256) * 256 + v % 256;
  }

  lemma HexConcat(s: string, t: string)
    requires AllHexDigits(s) && AllHexDigits(t)
    ensures AllHexDigits(s + t)
  {
    forall i | 0 <= i < |s + t| ensures IsHexDigit((s + t)[i]) {
      if i < |s| { assert (s + t)[i] == s[i]; } else { assert (s + t)[i] == t[i - |s|]; }
    }
  }

  lemma ShiftDigit(a: int, p: int, b: int, d: int)
    ensures (a * p + b) * 16 + d == a * (16 * p) + (b * 16 + d)
  {
  }

  lemma {:induction false} ParseHexAppend(s: string, t: string)
    requires AllHexDigits(s) && AllHexDigits(t)
    ensures AllHexDigits(s + t)
    ensures ParseHex(s + t) == ParseHex(s) * Pow16(|t|) + ParseHex(t)
    decreases |t|
  {
    HexConcat(s, t);
    if t == [] {
      assert s + t == s;
    } else {
      var t' := t[..|t| - 1];
      var st := s + t;
      assert st[..|st| - 1] == s + t';
      assert AllHexDigits(t') by {
        forall i | 0 <= i < |t'| ensures IsHexDigit(t'[i]) { assert t'[i] == t[i]; }
      }
      ParseHexAppend(s, t');
      var d := DigitValue(t[|t| - 1]);
      assert st[|st| - 1] == t[|t| - 1];
      assert ParseHex(st) == ParseHex(s + t') * 16 + d;
      assert ParseHex(t) == ParseHex(t') * 16 + d;
      assert Pow16(|t|) == 16 * Pow16(|t'|);
      ShiftDigit(ParseHex(s), Pow16(|t'|), ParseHex(t'), d);
    }
  }

  /** `hexToRGBA(rgbToHex(c))` gives back `c` for every colour. */
  lemma {:induction false} HexRoundTrip(rgb: Color)
    ensures WellFormedHex(RgbToHex(rgb))
    ensures HexToRgba(RgbToHex(rgb)) == rgb
  {
    var R, G, B := ComponentHex(rgb.r), ComponentHex(rgb.g), ComponentHex(rgb.b);
    ComponentHexDigits(rgb.r);
    ComponentHexDigits(rgb.g);
    ComponentHexDigits(rgb.b);
    var hex := RgbToHex(rgb);
    var digits := R + G + B;
    assert hex == "#" + digits;
    assert hex[0] == '#' && hex[1..] == digits;
    assert RemoveFirstHash(hex) == digits;
    ParseHexAppend(R, G);
    ParseHexAppend(R + G, B);
    assert Pow16(2) == 256;
    assert ParseHex(R + G) == rgb.r * 256 + rgb.g;
    assert ParseHex(digits) == ParseHex(R + G) * 256 + rgb.b;
    HexToRgbaChannels(hex);
    SplitChannels(rgb.r, rgb.g, rgb.b, ParseHex(digits));
  }

  lemma SplitChannels(r: Byte, g: Byte, b: Byte, v: int)
    requires v == (r * 256 + g) * 256 + b
    ensures (v / 65536) % 256 == r && (v / 256) % 256 == g && v % 256 == b
  {
    assert v == r * 65536 + g * 256 + b;
    assert v / 256 == r * 256 + g;
  }

  // ---------------------------------------------------------------------------------------
  // `rgbToHSL`
  // ---------------------------------------------------------------------------------------

  /** `[h, s, l]`, each a fraction (hue in turns, not degrees). */
  datatype Hsl = Hsl(h: real, s: real, l: real)

  function RealMax(a: real, b: real): real { if a >= b then a else b }
  function RealMin(a: real, b: real): real { if a <= b then a else b }

  /** `Math.max(r, g, b)` and `Math.min(r, g, b)`. */
  function Max3(a: real, b: real, c: real): real { RealMax(RealMax(a, b), c) }
  function Min3(a: real, b: real, c: real): real { RealMin(RealMin(a, b), c) }

  /** The largest and smallest integer channel. */
  function MaxChannel(c: Color): Byte { MaxOf(MaxOf(c.r, c.g), c.b) }
  function MinChannel(c: Color): Byte { MinOf(MinOf(c.r, c.g), c.b) }

  /** `rgbToHSL`: channels scaled to [0,1], lightness the mid-range, the hue case chosen by a
      `switch` on the maximum that tries r, then g, then b. */
  function RgbToHsl(rgb: Color): Hsl
  {
    var r, g, b := rgb.r as real / 255.0, rgb.g as real / 255.0, rgb.b as real / 255.0;
    var mx := Max3(r, g, b);
    var mn := Min3(r, g, b);
    var l := (mx + mn) / 2.0;
    if mx == mn then Hsl(0.0, 0.0, l)
    else
      var d := mx - mn;
      var s := if l > 0.5 then d / (2.0 - mx - mn) else d / (mx + mn);
      var h :=
        if mx == r then (g - b) / d + (if g < b then 6.0 else 0.0)
        else if mx == g then (b - r) / d + 2.0
        else if mx == b then (r - g) / d + 4.0
        else 0.0;
      Hsl(h / 6.0, s, l)
  }

  lemma ScaledExtremes(rgb: Color)
    ensures Max3(rgb.r as real / 255.0, rgb.g as real / 255.0, rgb.b as real / 255.0)
            == MaxChannel(rgb) as real / 255.0
    ensures Min3(rgb.r as real / 255.0, rgb.g as real / 255.0, rgb.b as real / 255.0)
            == MinChannel(rgb) as real / 255.0
  {
  }

  /** Lightness is the channel mid-range scaled by 1/255, hence in [0, 1]. */
  lemma LightnessIsMidRange(rgb: Color)
    ensures RgbToHsl(rgb).l == (MaxChannel(rgb) + MinChannel(rgb)) as real / 510.0
    ensures 0.0 <= RgbToHsl(rgb).l <= 1.0
  {
    ScaledExtremes(rgb);
  }

  /** Lightness order is the order of the integer key `max + min`, in both directions. */
  lemma LightnessOrder(c1: Color, c2: Color)
    ensures RgbToHsl(c1).l <= RgbToHsl(c2).l
            <==> MaxChannel(c1) + MinChannel(c1) <= MaxChannel(c2) + MinChannel(c2)
  {
    LightnessIsMidRange(c1);
    LightnessIsMidRange(c2);
  }

  /** A grey (max == min) has hue and saturation 0. */
  lemma AchromaticHsl(rgb: Color)
    requires MaxChannel(rgb) == MinChannel(rgb)
    ensures RgbToHsl(rgb).h == 0.0 && RgbToHsl(rgb).s == 0.0
  {
    ScaledExtremes(rgb);
  }

  lemma DivUnit(x: real, y: real)
    requires 0.0 <= x <= y && y > 0.0
    ensures 0.0 <= x / y <= 1.0
  {
  }

  lemma DivSigned(x: real, y: real)
    requires -y <= x <= y && y > 0.0
    ensures -1.0 <= x / y <= 1.0
  {
  }

  /** A chromatic colour has saturation in [0, 1]. */
  lemma SaturationRange(rgb: Color)
    requires MaxChannel(rgb) != MinChannel(rgb)
    ensures 0.0 <= RgbToHsl(rgb).s <= 1.0
  {
    ScaledExtremes(rgb);
    var mx := MaxChannel(rgb) as real / 255.0;
    var mn := MinChannel(rgb) as real / 255.0;
    var d := mx - mn;
    if (mx + mn) / 2.0 > 0.5 {
      DivUnit(d, 2.0 - mx - mn);
    } else {
      DivUnit(d, mx + mn);
    }
  }

  /** Hue lies in [0, 1) for every colour; the r, g, b cases fall in the sextants
      [0, 1/6] or [5/6, 1), [1/6, 1/2] and [1/2, 5/6]. */
  lemma HueRange(rgb: Color)
    ensures 0.0 <= RgbToHsl(rgb).h < 1.0
    ensures MaxChannel(rgb) != MinChannel(rgb) && MaxChannel(rgb) == rgb.r ==>
      RgbToHsl(rgb).h <= 1.0 / 6.0 || 5.0 / 6.0 <= RgbToHsl(rgb).h
    ensures MaxChannel(rgb) != MinChannel(rgb) && MaxChannel(rgb) != rgb.r && MaxChannel(rgb) == rgb.g ==>
      1.0 / 6.0 <= RgbToHsl(rgb).h <= 1.0 / 2.0
    ensures MaxChannel(rgb) != MinChannel(rgb) && MaxChannel(rgb) != rgb.r && MaxChannel(rgb) != rgb.g ==>
      1.0 / 2.0 <= RgbToHsl(rgb).h <= 5.0 / 6.0
  {
    ScaledExtremes(rgb);
    var r, g, b := rgb.r as real / 255.0, rgb.g as real / 255.0, rgb.b as real / 255.0;
    var mx := MaxChannel(rgb) as real / 255.0;
    var mn := MinChannel(rgb) as real / 255.0;
    if mx != mn {
      var d := mx - mn;
      if mx == r {
        DivSigned(g - b, d);
        if g < b {
          assert (g - b) / d < 0.0;
        }
      } else if mx == g {
        DivSigned(b - r, d);
      } else {
        DivSigned(r - g, d);
      }
    }
  }
}
