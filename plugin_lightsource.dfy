/**
  The older light-source model of src/plugins/core/lightsource.ts: a light
  source fades from `prevState` to `nextState` between two instants, and
  its current colour is a per-channel linear blend in RGB.
 */
module PluginLightSources {
  import opened Base
  import opened Colors
  import opened Utils

  datatype PLightSource = PLightSource(
    transitionStart: int,
    prevState: Color,
    transitionEnd: int,
    nextState: Color)

  /**
    createLightSource: both states are the initial state (white when none
    is given) and both instants are 0, so the source is settled.
   */
  function CreateLightSource(initState: Option<Color>): (s: PLightSource)
    ensures s.prevState == s.nextState == initState.GetOr(White)
    ensures initState.None? ==> s.nextState == Hsv(0.0, 0.0, 100.0)
    ensures s.transitionStart == 0 && s.transitionEnd == 0
  {
    var st := initState.GetOr(White);
    PLightSource(0, st, 0, st)
  }

  /**
    calculateTransitionProgress(start, end) at time `now`: 1 when the two
    instants coincide, otherwise the elapsed fraction bounded to [0, 1].
   */
  function TransitionProgress(start: int, end: int, now: int): (q: real)
    ensures 0.0 <= q <= 1.0
    ensures start == end ==> q == 1.0
    ensures start < end && now <= start ==> q == 0.0
    ensures start < end && end <= now ==> q == 1.0
    ensures start < end && start < now < end ==> 0.0 < q < 1.0
  {
    if start == end then 1.0
    else
      var q := (now - start) as real / (end - start) as real;
      ProgressBounds(now - start, end - start);
      if q < 0.0 then 0.0 else if q > 1.0 then 1.0 else q
  }

  /** The RGB blend of two RGB values at factor q, channel by channel. */
  function BlendRgb(prev: Color, next: Color, q: real): (c: Color)
    requires prev.Rgb? && next.Rgb?
    ensures c.Rgb?
  {
    Rgb(Lerp(prev.r, next.r, q), Lerp(prev.g, next.g, q), Lerp(prev.b, next.b, q))
  }

  /**
    The blend starts at the previous value, ends at the next one, and keeps
    every channel between the two channels it blends.
   */
  lemma BlendEndpoints(prev: Color, next: Color, q: real)
    requires prev.Rgb? && next.Rgb?
    requires 0.0 <= q <= 1.0
    ensures q == 0.0 ==> BlendRgb(prev, next, q) == prev
    ensures q == 1.0 ==> BlendRgb(prev, next, q) == next
    ensures var c := BlendRgb(prev, next, q);
            (prev.r <= next.r ==> prev.r <= c.r <= next.r) && (next.r <= prev.r ==> next.r <= c.r <= prev.r)
            && (prev.g <= next.g ==> prev.g <= c.g <= next.g) && (next.g <= prev.g ==> next.g <= c.g <= prev.g)
            && (prev.b <= next.b ==> prev.b <= c.b <= next.b) && (next.b <= prev.b ==> next.b <= c.b <= prev.b)
  {
    LerpBetween(prev.r, next.r, q);
    LerpBetween(prev.g, next.g, q);
    LerpBetween(prev.b, next.b, q);
  }

  /**
    getCurrentState: both states go to RGB, are blended at the current
    progress, and the blend comes back as HSV.
   */
  function GetCurrentState(lib: ColorLib, source: PLightSource, now: int): (r: Color)
    ensures r.Hsv?
    ensures var q := TransitionProgress(source.transitionStart, source.transitionEnd, now);
            var p := ConvertTo(lib, source.prevState, RGB);
            var n := ConvertTo(lib, source.nextState, RGB);
            p.Rgb? && n.Rgb?
            && r == ConvertTo(lib, Rgb(p.r * (1.0 - q) + n.r * q,
                                       p.g * (1.0 - q) + n.g * q,
                                       p.b * (1.0 - q) + n.b * q), HSV)
  {
    var q := TransitionProgress(source.transitionStart, source.transitionEnd, now);
    var prevRgb := ConvertTo(lib, source.prevState, RGB);
    var nextRgb := ConvertTo(lib, source.nextState, RGB);
    assert BlendRgb(prevRgb, nextRgb, q)
        == Rgb(Lerp(prevRgb.r, nextRgb.r, q), Lerp(prevRgb.g, nextRgb.g, q), Lerp(prevRgb.b, nextRgb.b, q));
    ConvertTo(lib, BlendRgb(prevRgb, nextRgb, q), HSV)
  }

  /**
    Before a fade starts the current state is the previous state's RGB
    conversion; once it has ended (or for a source whose instants coincide,
    such as a new one) it is the next state's.
   */
  lemma CurrentStateAtEnds(lib: ColorLib, source: PLightSource, now: int)
    ensures source.transitionStart < source.transitionEnd && now <= source.transitionStart ==>
              GetCurrentState(lib, source, now) == ConvertTo(lib, ConvertTo(lib, source.prevState, RGB), HSV)
    ensures source.transitionStart == source.transitionEnd
              || (source.transitionStart < source.transitionEnd && source.transitionEnd <= now) ==>
              GetCurrentState(lib, source, now) == ConvertTo(lib, ConvertTo(lib, source.nextState, RGB), HSV)
  {
    var q := TransitionProgress(source.transitionStart, source.transitionEnd, now);
    var prevRgb := ConvertTo(lib, source.prevState, RGB);
    var nextRgb := ConvertTo(lib, source.nextState, RGB);
    BlendEndpoints(prevRgb, nextRgb, q);
  }
}
