/**
  Colour values as the controller passes them around. A colour list element
  is one of the colour spaces the code reads (hue/saturation/value, RGB,
  colour temperature, CIE L*a*b*), or `Undefined`: the JavaScript value that
  indexing past the end of a list yields and that the code later tests with
  `||` or a default parameter.

  The colour-space conversions come from third-party libraries (chromatism2
  and color-convert) and are not modelled: a `ColorLib` value carries them
  as uninterpreted total functions, and every operation that converts takes
  one as a parameter.
 */
module Colors {

  type Triple = (real, real, real)

  datatype Color =
    | Hsv(h: real, s: real, v: real)
    | Rgb(r: real, g: real, b: real)
    | Ct(c: real, t: real)
    | Lab(l: real, aStar: real, bStar: real)
    | Undefined

  /** The three colour spaces that utils.ts's convertTo distinguishes. */
  datatype StateType = CT | HSV | RGB

  /**
    The conversion libraries, uninterpreted:
    - raw(from, to, arr): color-convert's `cc[from][to].raw(arr)`;
    - hsvOf, rgbOf, labOf: chromatism2's `convert(c).hsv`, `.rgb`, `.cielab`;
    - hsvOfLab: chromatism2's `convert(lab).hsv` for an L*a*b* triple.
   */
  datatype ColorLib = ColorLib(
    raw: (StateType, StateType, Triple) -> Triple,
    hsvOf: Color -> Triple,
    rgbOf: Color -> Triple,
    labOf: Color -> Triple,
    hsvOfLab: Triple -> Triple)

  /** The fallback colour of the transition engine: `{ h: 0, s: 0, v: 0 }`. */
  const Black: Color := Hsv(0.0, 0.0, 0.0)

  /** The default state of a new light source: `{ h: 0, s: 0, v: 100 }`. */
  const White: Color := Hsv(0.0, 0.0, 100.0)

  /** `s[k]` in JavaScript: undefined outside the list. */
  function At(s: seq<Color>, k: int): Color {
    if 0 <= k < |s| then s[k] else Undefined
  }

  /** `a || b` on colour values: every colour object is truthy. */
  function Or(a: Color, b: Color): Color {
    if a.Undefined? then b else a
  }

  /** chromatism2's `convert(c).hsv` as a colour value. */
  function HsvOf(lib: ColorLib, c: Color): (r: Color)
    ensures r.Hsv?
  {
    var t := lib.hsvOf(c);
    Hsv(t.0, t.1, t.2)
  }

  /** chromatism2's `convert(c).rgb` as a colour value. */
  function RgbOf(lib: ColorLib, c: Color): (r: Color)
    ensures r.Rgb?
  {
    var t := lib.rgbOf(c);
    Rgb(t.0, t.1, t.2)
  }
}
