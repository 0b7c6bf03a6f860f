/**
  The helpers of src/utils.ts: colour-space detection and conversion, the
  clamped transition progress, linear interpolation of one number, and the
  colour crossfade whose midpoints go through CIE L*a*b*.
 */
module Utils {
  import opened Base
  import opened Colors

  /** The space convertTo reads from a value: h, then r, then c; HSV otherwise. */
  function DetectType(c: Color): StateType {
    match c
    case Hsv(_, _, _) => HSV
    case Rgb(_, _, _) => RGB
    case Ct(_, _) => CT
    case _ => HSV
  }

  /** The array convertTo hands to color-convert; [0, 0, 100] when nothing is detected. */
  function Channels(c: Color): Triple {
    match c
    case Hsv(h, s, v) => (h, s, v)
    case Rgb(r, g, b) => (r, g, b)
    case Ct(ct, t) => (ct, t, 0.0)
    case _ => (0.0, 0.0, 100.0)
  }

  /** Wraps a converted triple in the target space (CT keeps two channels). */
  function FromTriple(to: StateType, t: Triple): Color {
    match to
    case HSV => Hsv(t.0, t.1, t.2)
    case RGB => Rgb(t.0, t.1, t.2)
    case CT => Ct(t.0, t.1)
  }

  /**
    convertTo: the input itself when its detected space is the target,
    otherwise color-convert's conversion of its channels, always a value of
    the target space.
   */
  function ConvertTo(lib: ColorLib, orig: Color, to: StateType): (r: Color)
    ensures DetectType(orig) == to ==> r == orig
    ensures DetectType(orig) != to ==> r == FromTriple(to, lib.raw(DetectType(orig), to, Channels(orig)))
    ensures to == RGB ==> r.Rgb?
    ensures to == CT ==> r.Ct?
    ensures to == HSV ==> r.Hsv? || r == orig
  {
    var from := DetectType(orig);
    if from == to then orig else FromTriple(to, lib.raw(from, to, Channels(orig)))
  }

  /**
    A value of no detected space (an L*a*b* value) is taken for HSV white:
    converting it to HSV returns it unchanged, and converting it to another
    space converts [0, 0, 100] from HSV.
   */
  lemma UndetectedReadsAsWhite(lib: ColorLib, c: Color, to: StateType)
    requires c.Lab?
    ensures to == HSV ==> ConvertTo(lib, c, to) == c
    ensures to != HSV ==> ConvertTo(lib, c, to) == ConvertTo(lib, White, to)
  {
  }

  /**
    calculateTransitionProgress: 1 for a zero duration, otherwise the elapsed
    fraction of the duration clamped to [0, 1].
   */
  function CalculateTransitionProgress(start: int, duration: int, curTime: int): (p: real)
    ensures 0.0 <= p <= 1.0
    ensures duration == 0 ==> p == 1.0
    ensures duration > 0 && curTime <= start ==> p == 0.0
    ensures duration > 0 && curTime >= start + duration ==> p == 1.0
    ensures duration > 0 && start < curTime < start + duration ==> 0.0 < p < 1.0
  {
    if duration == 0 then 1.0
    else
      var progress := (curTime - start) as real / duration as real;
      ProgressBounds(curTime - start, duration);
      if progress < 0.0 then 0.0 else if progress > 1.0 then 1.0 else progress
  }

  lemma ProgressBounds(elapsed: int, duration: int)
    requires duration != 0
    ensures duration > 0 && elapsed <= 0 ==> elapsed as real / duration as real <= 0.0
    ensures duration > 0 && elapsed >= duration ==> elapsed as real / duration as real >= 1.0
    ensures duration > 0 && 0 < elapsed < duration ==> 0.0 < elapsed as real / duration as real < 1.0
  {
    var q := elapsed as real / duration as real;
    assert q * duration as real == elapsed as real;
  }

  /**
    transitionValues: clamps the progress to [0, 1] and interpolates linearly;
    the old value at 0, the new value at 1, and a value between the two in
    between.
   */
  function TransitionValues(oldValue: real, newValue: real, progress: real): (r: real)
    ensures progress <= 0.0 ==> r == oldValue
    ensures progress >= 1.0 ==> r == newValue
    ensures oldValue <= newValue ==> oldValue <= r <= newValue
    ensures newValue <= oldValue ==> newValue <= r <= oldValue
  {
    var p := Clamp(0.0, 1.0, progress);
    LerpBetween(oldValue, newValue, p);
    Lerp(oldValue, newValue, p)
  }

  /** `a * (1 - p) + b * p` */
  function Lerp(a: real, b: real, p: real): real {
    a * (1.0 - p) + b * p
  }

  lemma LerpBetween(a: real, b: real, p: real)
    requires 0.0 <= p <= 1.0
    ensures a <= b ==> a <= Lerp(a, b, p) <= b
    ensures b <= a ==> b <= Lerp(a, b, p) <= a
  {
    var d := b - a;
    var dp := d * p;
    assert Lerp(a, b, p) == a + dp;
    ScaleWithin(d, p);
    assert 0.0 <= d ==> 0.0 <= dp <= d;
    assert d <= 0.0 ==> d <= dp <= 0.0;
  }

  lemma ScaleWithin(d: real, p: real)
    requires 0.0 <= p <= 1.0
    ensures 0.0 <= d ==> 0.0 <= d * p <= d
    ensures d <= 0.0 ==> d <= d * p <= 0.0
  {
    assert d - d * p == d * (1.0 - p);
  }

  /**
    getColorTransition: the old colour itself at progress 0, the new colour
    itself at progress 1; otherwise both go to CIE L*a*b*, each component is
    interpolated and the result comes back as HSV.
   */
  function GetColorTransition(lib: ColorLib, oldColor: Color, newColor: Color, progress: real): (r: Color)
    ensures progress == 0.0 ==> r == oldColor
    ensures progress == 1.0 ==> r == newColor
    ensures progress != 0.0 && progress != 1.0 ==> r.Hsv?
  {
    if progress == 0.0 then oldColor
    else if progress == 1.0 then newColor
    else
      var oldLab := lib.labOf(oldColor);
      var newLab := lib.labOf(newColor);
      var curLab := (TransitionValues(oldLab.0, newLab.0, progress),
                     TransitionValues(oldLab.1, newLab.1, progress),
                     TransitionValues(oldLab.2, newLab.2, progress));
      var hsv := lib.hsvOfLab(curLab);
      Hsv(hsv.0, hsv.1, hsv.2)
  }
}
