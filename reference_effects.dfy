/**
  The reference effects under src/plugins/effects whose output is fixed once
  the current time is a parameter: resize, mirror, avg, colorcycle,
  huecycle, the test pattern and calibrate. Each takes the colour list and
  the call arguments of the effect pipeline.
 */
module ReferenceEffects {
  import opened Base
  import opened Colors
  import opened Utils
  import opened Effects

  // ---------------------------------------------------------------- resize

  /** `i / numLightSources * colors.length`, the source position of output i. */
  function ResizePos(i: nat, n: nat, len: nat): real
    requires i < n
  {
    Times(i as real / n as real, len as real)
  }

  lemma ResizePosBounds(i: nat, n: nat, len: nat)
    requires i < n
    ensures 0.0 <= ResizePos(i, n, len)
    ensures len > 0 ==> ResizePos(i, n, len) < len as real
    ensures len == 0 ==> ResizePos(i, n, len) == 0.0
  {
    var f := i as real / n as real;
    assert f * n as real == i as real;
    if len > 0 {
      FractionScalesBelow(len as real, f);
      assert Times(f, len as real) == Times(len as real, f);
    }
  }

  /**
    Output i of resize: the transition from the colour at floor(pos) to the
    colour at ceil(pos) (the last colour when that is past the end) by the
    fractional part of pos.
   */
  function ResizePixel(lib: ColorLib, colors: seq<Color>, n: nat, i: nat): Color
    requires i < n
  {
    var pos := ResizePos(i, n, |colors|);
    var leftColor := At(colors, Floor(pos));
    var rightColor := Or(At(colors, Ceil(pos)), At(colors, |colors| - 1));
    GetColorTransition(lib, leftColor, rightColor, pos - Floor(pos) as real)
  }

  /**
    resize: a list already of the light-source count comes back as it is;
    any other list is resampled to exactly that many colours.
   */
  function Resize(lib: ColorLib, colors: seq<Color>, call: EffectCall): (r: seq<Color>)
    ensures |colors| == call.numLightSources ==> r == colors
    ensures |r| == call.numLightSources
    ensures |colors| != call.numLightSources ==>
              forall i :: 0 <= i < |r| ==> r[i] == ResizePixel(lib, colors, call.numLightSources, i)
  {
    var n := call.numLightSources;
    if |colors| == n then colors
    else seq(n, i requires 0 <= i < n => ResizePixel(lib, colors, n, i))
  }

  /**
    For a non-empty list the left index is a valid index, the right index
    is at most one past the end, the factor lies in [0, 1), and an integral
    position gives the left colour itself.
   */
  lemma ResizeIndices(lib: ColorLib, colors: seq<Color>, n: nat, i: nat)
    requires i < n && |colors| > 0
    ensures var pos := ResizePos(i, n, |colors|);
            0 <= Floor(pos) < |colors| && Floor(pos) <= Ceil(pos) <= |colors|
            && 0.0 <= pos - Floor(pos) as real < 1.0
    ensures var pos := ResizePos(i, n, |colors|);
            pos == Floor(pos) as real ==> ResizePixel(lib, colors, n, i) == colors[Floor(pos)]
  {
    ResizePosBounds(i, n, |colors|);
  }

  /** Resizing an empty list gives undefined colours. */
  lemma ResizeEmpty(lib: ColorLib, n: nat, i: nat)
    requires i < n
    ensures ResizePixel(lib, [], n, i) == Undefined
  {
    ResizePosBounds(i, n, 0);
  }

  // ---------------------------------------------------------------- mirror

  function Reverse(s: seq<Color>): (r: seq<Color>)
    ensures |r| == |s|
    ensures forall k :: 0 <= k < |s| ==> r[k] == s[|s| - 1 - k]
  {
    seq(|s|, k requires 0 <= k < |s| => s[|s| - 1 - k])
  }

  /** mirror: the colours followed by a reversed copy of them. */
  function Mirror(colors: seq<Color>): (r: seq<Color>)
    ensures |r| == 2 * |colors|
    ensures r[..|colors|] == colors
    ensures forall k :: |colors| <= k < |r| ==> r[k] == colors[2 * |colors| - 1 - k]
  {
    colors + Reverse(colors)
  }

  /** The mirrored list reads the same backwards, and mirrors with the input's own order. */
  lemma MirrorPalindrome(colors: seq<Color>)
    ensures var r := Mirror(colors);
            forall k :: 0 <= k < |r| ==> r[k] == r[|r| - 1 - k]
    ensures Reverse(Mirror(colors)) == Mirror(colors)
  {
    var r := Mirror(colors);
    var n := |colors|;
    forall k | 0 <= k < |r|
      ensures r[k] == r[|r| - 1 - k]
    {
      if k < n {
        assert r[|r| - 1 - k] == colors[n - 1 - (n - 1 - k)];
      } else {
        assert r[k] == colors[n - 1 - (k - n)];
      }
    }
  }

  // ---------------------------------------------------------------- avg

  function AddTriple(a: Triple, b: Triple): Triple {
    (a.0 + b.0, a.1 + b.1, a.2 + b.2)
  }

  /** `reduce` without an initial value: the first element, then each next one added. */
  function SumTriples(ts: seq<Triple>): Triple
    requires |ts| > 0
    decreases |ts|
  {
    if |ts| == 1 then ts[0] else AddTriple(SumTriples(ts[..|ts| - 1]), ts[|ts| - 1])
  }

  function RgbTriples(lib: ColorLib, colors: seq<Color>): (r: seq<Triple>)
    ensures |r| == |colors|
    ensures forall k :: 0 <= k < |colors| ==> r[k] == lib.rgbOf(colors[k])
  {
    seq(|colors|, k requires 0 <= k < |colors| => lib.rgbOf(colors[k]))
  }

  /**
    avg: one RGB colour whose channels are the channel sums divided by the
    number of colours; an empty list makes reduce throw.
   */
  function Avg(lib: ColorLib, colors: seq<Color>): (r: Result<seq<Color>>)
    ensures r.Err? <==> colors == []
    ensures r.Ok? ==> |r.value| == 1 && r.value[0].Rgb?
    ensures r.Ok? ==>
              var s := SumTriples(RgbTriples(lib, colors));
              Times(r.value[0].r, |colors| as real) == s.0
              && Times(r.value[0].g, |colors| as real) == s.1
              && Times(r.value[0].b, |colors| as real) == s.2
  {
    if colors == [] then Err(TypeError("Reduce of empty array with no initial value"))
    else
      var s := SumTriples(RgbTriples(lib, colors));
      var n := |colors| as real;
      DivideBack(s.0, n);
      DivideBack(s.1, n);
      DivideBack(s.2, n);
      Ok([Rgb(s.0 / n, s.1 / n, s.2 / n)])
  }

  lemma DivideBack(x: real, n: real)
    requires n != 0.0
    ensures Times(x / n, n) == x
  {
  }

  /** The sum of k copies of one triple is k times it. */
  lemma {:induction false} SumOfCopies(ts: seq<Triple>, x: Triple)
    requires |ts| > 0
    requires forall k :: 0 <= k < |ts| ==> ts[k] == x
    ensures SumTriples(ts) == (Times(|ts| as real, x.0), Times(|ts| as real, x.1), Times(|ts| as real, x.2))
    decreases |ts|
  {
    if |ts| == 1 {
      assert Times(1.0, x.0) == x.0 && Times(1.0, x.1) == x.1 && Times(1.0, x.2) == x.2;
    } else {
      var init := ts[..|ts| - 1];
      SumOfCopies(init, x);
      assert ts[|ts| - 1] == x;
      var m := |init| as real;
      assert Times(m, x.0) + x.0 == Times(m + 1.0, x.0);
      assert Times(m, x.1) + x.1 == Times(m + 1.0, x.1);
      assert Times(m, x.2) + x.2 == Times(m + 1.0, x.2);
    }
  }

  /**
    A single colour, or any number of colours with one RGB conversion,
    averages to that conversion.
   */
  lemma AvgOfEqualColors(lib: ColorLib, colors: seq<Color>, c: Color)
    requires |colors| > 0
    requires forall k :: 0 <= k < |colors| ==> lib.rgbOf(colors[k]) == lib.rgbOf(c)
    ensures Avg(lib, colors) == Ok([RgbOf(lib, c)])
  {
    var x := lib.rgbOf(c);
    var n := |colors| as real;
    SumOfCopies(RgbTriples(lib, colors), x);
    assert Times(n, x.0) / n == x.0;
    assert Times(n, x.1) / n == x.1;
    assert Times(n, x.2) / n == x.2;
  }

  // ---------------------------------------------------------------- colorcycle

  /** `options.interval || 3` */
  function CycleInterval(call: EffectCall): (r: real)
    ensures r != 0.0
    ensures "interval" !in call.options || !call.options["interval"].Num? || call.options["interval"].x == 0.0 ==> r == 3.0
  {
    NumOption(call.options, "interval", 3.0)
  }

  /** The numerator of the offset of output `index`: `t / 1000 / interval + luminaireIndex + index`. */
  function CycleNumerator(call: EffectCall, now: int, index: nat): real {
    now as real / 1000.0 / CycleInterval(call) + call.luminaireIndex as real + index as real
  }

  /**
    Output `index` of colorcycle: the transition from the colour at
    floor(offset) to the colour at ceil(offset) % length by the fractional
    part of the offset.
   */
  function CyclePixel(lib: ColorLib, colors: seq<Color>, call: EffectCall, now: int, index: nat): Color
    requires |colors| > 0
  {
    var len := |colors|;
    var offset := JsRem(CycleNumerator(call, now, index), len as real);
    var leftColor := At(colors, Floor(offset));
    var rightColor := At(colors, JsRemInt(Ceil(offset), len));
    GetColorTransition(lib, leftColor, rightColor, offset - Floor(offset) as real)
  }

  /** colorcycle: one output per input colour. */
  function ColorCycle(lib: ColorLib, colors: seq<Color>, call: EffectCall, now: int): (r: seq<Color>)
    ensures |r| == |colors|
    ensures forall k :: 0 <= k < |r| ==> r[k] == CyclePixel(lib, colors, call, now, k)
  {
    seq(|colors|, k requires 0 <= k < |colors| => CyclePixel(lib, colors, call, now, k))
  }

  /**
    For a non-negative numerator the offset lies in [0, length), both
    neighbour indices are valid, the factor lies in [0, 1), and a whole
    offset gives the left colour itself.
   */
  lemma CycleIndices(lib: ColorLib, colors: seq<Color>, call: EffectCall, now: int, index: nat)
    requires |colors| > 0 && 0.0 <= CycleNumerator(call, now, index)
    ensures var offset := JsRem(CycleNumerator(call, now, index), |colors| as real);
            0.0 <= offset < |colors| as real
            && 0 <= Floor(offset) < |colors|
            && 0 <= JsRemInt(Ceil(offset), |colors|) < |colors|
            && 0.0 <= offset - Floor(offset) as real < 1.0
    ensures var offset := JsRem(CycleNumerator(call, now, index), |colors| as real);
            offset == Floor(offset) as real ==> CyclePixel(lib, colors, call, now, index) == colors[Floor(offset)]
  {
    JsRemBounds(CycleNumerator(call, now, index), |colors| as real);
  }

  // ---------------------------------------------------------------- huecycle

  /** `t / 1000 * (options.rate || 50)`: the same hue shift for every colour. */
  function HueShift(call: EffectCall, now: int): real {
    Times(now as real / 1000.0, NumOption(call.options, "rate", 50.0))
  }

  /** huecycle: each colour in HSV with its hue shifted and wrapped with JavaScript's `% 360`. */
  function HueCycle(lib: ColorLib, colors: seq<Color>, call: EffectCall, now: int): (r: seq<Color>)
    ensures |r| == |colors|
    ensures forall k :: 0 <= k < |r| ==>
              var c := HsvOf(lib, colors[k]);
              r[k].Hsv? && r[k].s == c.s && r[k].v == c.v && r[k].h == JsRem(c.h + HueShift(call, now), 360.0)
  {
    seq(|colors|, k requires 0 <= k < |colors| =>
      var c := HsvOf(lib, colors[k]);
      Hsv(JsRem(c.h + HueShift(call, now), 360.0), c.s, c.v))
  }

  /**
    A shifted hue that is not negative stays in [0, 360), and the hue moves
    by the shift modulo 360: it differs from h plus the shift by a whole
    number of turns.
   */
  lemma HueInRange(lib: ColorLib, colors: seq<Color>, call: EffectCall, now: int, k: nat)
    requires k < |colors|
    requires 0.0 <= HsvOf(lib, colors[k]).h + HueShift(call, now)
    ensures 0.0 <= HueCycle(lib, colors, call, now)[k].h < 360.0
    ensures var x := HsvOf(lib, colors[k]).h + HueShift(call, now);
            HueCycle(lib, colors, call, now)[k].h == x - Times(360.0, Trunc(x / 360.0) as real)
  {
    var x := HsvOf(lib, colors[k]).h + HueShift(call, now);
    JsRemBounds(x, 360.0);
    var q := x / 360.0;
    assert Times(360.0, FracPart(q)) == 360.0 * q - 360.0 * Trunc(q) as real;
    assert 360.0 * q == x;
  }

  // ---------------------------------------------------------------- test pattern

  const RgbBlack: Color := Rgb(0.0, 0.0, 0.0)
  const Red: Color := Rgb(255.0, 0.0, 0.0)
  const Blue: Color := Rgb(0.0, 0.0, 255.0)
  const RgbWhite: Color := Rgb(255.0, 255.0, 255.0)

  /** `Math.floor(t / 1000 * (options.rate || 10)) % numLightSources` */
  function LitIndex(call: EffectCall, now: int): (k: int)
    requires call.numLightSources > 0
    ensures -(call.numLightSources as int) < k < call.numLightSources
  {
    JsRemInt(Floor(Times(now as real / 1000.0, NumOption(call.options, "rate", 10.0))), call.numLightSources)
  }

  /** A non-negative time and rate light a valid index. */
  lemma LitIndexValid(call: EffectCall, now: int)
    requires call.numLightSources > 0 && 0 <= now
    requires 0.0 <= NumOption(call.options, "rate", 10.0)
    ensures 0 <= LitIndex(call, now) < call.numLightSources
  {
    var t := now as real / 1000.0;
    var rate := NumOption(call.options, "rate", 10.0);
    assert 0.0 <= t * rate;
  }

  /**
    The test pattern: every light source black except the lit one, which is
    red at index 0, else blue at the last index, else white. A negative
    index writes no element (JavaScript stores it as a property), and no
    light sources give an empty list.
   */
  method TestPattern(call: EffectCall, now: int) returns (out: seq<Color>)
    ensures |out| == call.numLightSources
    ensures call.numLightSources == 0 ==> out == []
    ensures call.numLightSources > 0 ==>
              var lit := LitIndex(call, now);
              (forall k :: 0 <= k < |out| && k != lit ==> out[k] == RgbBlack)
              && (lit == 0 ==> out[0] == Red)
              && (0 < lit && lit == |out| - 1 ==> out[lit] == Blue)
              && (0 < lit < |out| - 1 ==> out[lit] == RgbWhite)
  {
    var n := call.numLightSources;
    var output := new Color[n](_ => RgbBlack);
    if n > 0 {
      var index := LitIndex(call, now);
      if index == 0 {
        output[index] := Red;
      } else if index == n - 1 {
        output[index] := Blue;
      } else if index >= 0 {
        output[index] := RgbWhite;
      }
    }
    out := output[..];
  }

  // ---------------------------------------------------------------- calibrate

  /** Position of the first calibration for the luminaire, or -1. */
  function CalibrationIndex(list: seq<Calibration>, luminaireId: string): (k: int)
    ensures -1 <= k < |list|
    ensures k == -1 <==> forall j :: 0 <= j < |list| ==> list[j].id != luminaireId
    ensures k >= 0 ==> list[k].id == luminaireId && forall j :: 0 <= j < k ==> list[j].id != luminaireId
    decreases |list|
  {
    if |list| == 0 then -1
    else if list[|list| - 1].id == luminaireId && CalibrationIndex(list[..|list| - 1], luminaireId) == -1 then |list| - 1
    else CalibrationIndex(list[..|list| - 1], luminaireId)
  }

  /** One colour under a calibration: its cielab function applied to the L*a*b* conversion, if it has one. */
  function Calibrated(lib: ColorLib, cal: Calibration, c: Color): Color {
    if cal.cielab.Some? then cal.cielab.value(lib.labOf(c)) else c
  }

  /**
    calibrate: the luminaire's first calibration applied to every colour;
    no calibration for the luminaire leaves the list as it is. A missing
    `luminaires` option makes `.find` throw.
   */
  function Calibrate(lib: ColorLib, colors: seq<Color>, call: EffectCall): (r: Result<seq<Color>>)
    ensures r.Err? <==> "luminaires" !in call.options || !call.options["luminaires"].Calibrations?
    ensures r.Ok? ==> |r.value| == |colors|
    ensures r.Ok? && CalibrationIndex(call.options["luminaires"].list, call.luminaireId) < 0 ==> r.value == colors
    ensures r.Ok? && CalibrationIndex(call.options["luminaires"].list, call.luminaireId) >= 0 ==>
              var cal := call.options["luminaires"].list[CalibrationIndex(call.options["luminaires"].list, call.luminaireId)];
              cal.id == call.luminaireId
              && forall k :: 0 <= k < |colors| ==> r.value[k] == Calibrated(lib, cal, colors[k])
  {
    if "luminaires" !in call.options || !call.options["luminaires"].Calibrations? then
      Err(TypeError("calibrations.find is not a function"))
    else
      var list := call.options["luminaires"].list;
      var k := CalibrationIndex(list, call.luminaireId);
      if k < 0 then Ok(colors)
      else Ok(seq(|colors|, j requires 0 <= j < |colors| => Calibrated(lib, list[k], colors[j])))
  }

  /** A calibration without a cielab function changes no colour. */
  lemma CalibrationWithoutCielab(lib: ColorLib, colors: seq<Color>, call: EffectCall)
    requires "luminaires" in call.options && call.options["luminaires"].Calibrations?
    requires forall c :: c in call.options["luminaires"].list && c.id == call.luminaireId ==> c.cielab.None?
    ensures Calibrate(lib, colors, call) == Ok(colors)
  {
    var list := call.options["luminaires"].list;
    var k := CalibrationIndex(list, call.luminaireId);
    if k >= 0 {
      assert list[k] in list;
      assert list[k].cielab.None?;
      var r := Calibrate(lib, colors, call).value;
      assert forall j :: 0 <= j < |colors| ==> r[j] == Calibrated(lib, list[k], colors[j]) == colors[j];
      assert r == colors;
    }
  }
}
