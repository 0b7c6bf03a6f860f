/**
  The brightness effect of src/plugins/effects/brightness.ts: every colour's
  value is scaled by a brightness factor looked up by hour of the day (and
  interpolated between neighbouring hours), then shifted by a user offset
  and clamped to [0, 100]. The offset drifts back to 0 on a slow tick and
  moves at a chosen rate on a fast tick while the user is adjusting it.

  The hour (milliseconds since local midnight, in hours) and the timers are
  not modelled: the hour is a parameter and each tick is a method.
 */
module BrightnessEffect {
  import opened Base
  import opened Colors
  import opened Utils
  import opened Effects

  const Night: real := 0.7

  /** The brightness by hour used when the effect has no `briAtHours` option; missing hours mean 1. */
  const DefaultBriAtHours: map<int, real> :=
    map[0 := Night, 1 := Night, 2 := Night, 3 := Night, 4 := Night, 5 := Night, 6 := Night,
        7 := 0.8, 8 := 0.9, 22 := 0.9, 23 := 0.8]

  /** `options.briAtHours || defaultBriAtHours` */
  function BriTable(options: Options): map<int, real> {
    if "briAtHours" in options && options["briAtHours"].HourTable? then options["briAtHours"].table
    else DefaultBriAtHours
  }

  /** `briAtHours[hour] || 1`: a missing or zero entry counts as 1. */
  function HourValue(table: map<int, real>, hour: int): (r: real)
    ensures hour !in table || table[hour] == 0.0 ==> r == 1.0
    ensures hour in table && table[hour] != 0.0 ==> r == table[hour]
    ensures r != 0.0
  {
    if hour in table && table[hour] != 0.0 then table[hour] else 1.0
  }

  /**
    The brightness factor at a fractional hour: the values of floor(hour)
    and ceil(hour) % 24 interpolated by the fraction of the hour.
   */
  function BriShift(table: map<int, real>, hour: real): (r: real)
    ensures var prev := HourValue(table, Floor(hour));
            var next := HourValue(table, JsRemInt(Ceil(hour), 24));
            (prev <= next ==> prev <= r <= next) && (next <= prev ==> next <= r <= prev)
    ensures hour == Floor(hour) as real ==> r == HourValue(table, Floor(hour))
  {
    var prev := HourValue(table, Floor(hour));
    var next := HourValue(table, JsRemInt(Ceil(hour), 24));
    TransitionValues(prev, next, hour - Floor(hour) as real)
  }

  /** Between 23:00 and midnight the factor moves toward hour 0's value, not hour 24's. */
  lemma LastHourWrapsToMidnight(table: map<int, real>, hour: real)
    requires 23.0 < hour < 24.0
    ensures var prev := HourValue(table, 23);
            var next := HourValue(table, 0);
            (prev <= next ==> prev <= BriShift(table, hour) <= next)
            && (next <= prev ==> next <= BriShift(table, hour) <= prev)
  {
    assert Floor(hour) == 23;
    assert Ceil(hour) == 24;
  }

  /** With the default table the factor is 0.7 all night and 1 around midday. */
  lemma DefaultTableNightAndDay(hour: real)
    ensures 0.0 <= hour <= 6.0 ==> BriShift(DefaultBriAtHours, hour) == Night
    ensures 9.0 <= hour <= 21.0 ==> BriShift(DefaultBriAtHours, hour) == 1.0
  {
    var f := Floor(hour);
    var c := Ceil(hour);
    if 0.0 <= hour <= 6.0 {
      assert 0 <= f <= 6 && 0 <= c <= 6;
      assert JsRemInt(c, 24) == c;
      assert HourValue(DefaultBriAtHours, f) == Night;
      assert HourValue(DefaultBriAtHours, c) == Night;
    }
    if 9.0 <= hour <= 21.0 {
      assert 9 <= f <= 21 && 9 <= c <= 21;
      assert JsRemInt(c, 24) == c;
      assert f !in DefaultBriAtHours && c !in DefaultBriAtHours;
    }
  }

  /** One output colour: the HSV conversion with v scaled, shifted by the offset and clamped. */
  function Brighten(lib: ColorLib, c: Color, shift: real, offset: real): (r: Color)
    ensures var hsv := HsvOf(lib, c);
            r.Hsv? && r.h == hsv.h && r.s == hsv.s && 0.0 <= r.v <= 100.0
    ensures var hsv := HsvOf(lib, c);
            0.0 <= Times(hsv.v, shift) + offset <= 100.0 ==> r.v == Times(hsv.v, shift) + offset
    ensures var hsv := HsvOf(lib, c);
            (Times(hsv.v, shift) + offset <= 0.0 ==> r.v == 0.0)
            && (100.0 <= Times(hsv.v, shift) + offset ==> r.v == 100.0)
  {
    var hsv := HsvOf(lib, c);
    Hsv(hsv.h, hsv.s, Clamp(0.0, 100.0, Times(hsv.v, shift) + offset))
  }

  /**
    The effect: one output per colour, each the colour brightened by the
    factor at `hour` and the current offset.
   */
  function Brightness(lib: ColorLib, colors: seq<Color>, options: Options, hour: real, offset: real)
    : (r: seq<Color>)
    ensures |r| == |colors|
    ensures forall k :: 0 <= k < |r| ==>
              r[k] == Brighten(lib, colors[k], BriShift(BriTable(options), hour), offset)
  {
    var shift := BriShift(BriTable(options), hour);
    seq(|colors|, k requires 0 <= k < |colors| => Brighten(lib, colors[k], shift, offset))
  }

  /**
    The slow tick's step: the offset moves toward 0 by `rate` and stops at
    0 rather than crossing it.
   */
  function ResetStep(offset: real, rate: real): (r: real)
    ensures offset == 0.0 ==> r == 0.0
    ensures 0.0 <= rate && 0.0 <= offset ==> 0.0 <= r <= offset
    ensures 0.0 <= rate && offset <= 0.0 ==> offset <= r <= 0.0
    ensures -rate <= offset <= rate ==> r == 0.0
    ensures 0.0 <= rate < offset ==> r == offset - rate
    ensures 0.0 <= rate && offset < -rate ==> r == offset + rate
  {
    if offset > 0.0 then (if offset - rate > 0.0 then offset - rate else 0.0)
    else if offset < 0.0 then (if offset + rate < 0.0 then offset + rate else 0.0)
    else offset
  }

  /** The offset after k slow ticks. */
  function ResetTicks(offset: real, rate: real, k: nat): real
    decreases k
  {
    if k == 0 then offset else ResetTicks(ResetStep(offset, rate), rate, k - 1)
  }

  /** With a positive rate, k ticks bring any offset of size at most k·rate back to 0. */
  lemma {:induction false} ResetReachesZero(offset: real, rate: real, k: nat)
    requires 0.0 < rate
    requires -Times(k as real, rate) <= offset <= Times(k as real, rate)
    ensures ResetTicks(offset, rate, k) == 0.0
    decreases k
  {
    if k == 0 {
      assert Times(0.0, rate) == 0.0;
    } else {
      var next := ResetStep(offset, rate);
      assert Times(k as real, rate) == Times((k - 1) as real, rate) + rate;
      if k - 1 == 0 {
        assert Times(0.0, rate) == 0.0;
      }
      assert -Times((k - 1) as real, rate) <= next <= Times((k - 1) as real, rate);
      ResetReachesZero(next, rate, k - 1);
    }
  }

  /** The fast tick's step while adjusting: add rate / 100 and clamp to [-100, 100]. */
  function AdjustStep(offset: real, rate: real): (r: real)
    ensures -100.0 <= r <= 100.0
    ensures -100.0 <= offset + rate / 100.0 <= 100.0 ==> r == offset + rate / 100.0
    ensures 0.0 <= rate && -100.0 <= offset ==> offset <= r || offset > 100.0
    ensures rate <= 0.0 && offset <= 100.0 ==> r <= offset || offset < -100.0
  {
    Clamp(-100.0, 100.0, offset + rate / 100.0)
  }

  /** The effect's module state: the offset and whether (and how fast) it is being adjusted. */
  class BrightnessState {
    var offset: real
    var adjustRate: real
    var adjusting: bool
    const resetRate: real

    constructor()
      ensures offset == 0.0 && adjustRate == 0.0 && !adjusting && resetRate == 0.02
    {
      offset := 0.0;
      adjustRate := 0.0;
      adjusting := false;
      resetRate := 0.02;
    }

    /** The one-second tick: the offset drifts back toward 0. */
    method ResetTick()
      modifies this
      ensures offset == ResetStep(old(offset), resetRate)
      ensures adjustRate == old(adjustRate) && adjusting == old(adjusting)
    {
      if offset > 0.0 {
        offset := if offset - resetRate > 0.0 then offset - resetRate else 0.0;
      } else if offset < 0.0 {
        offset := if offset + resetRate < 0.0 then offset + resetRate else 0.0;
      }
    }

    /** The ten-millisecond tick: while adjusting, the offset moves by the adjust rate. */
    method AdjustTick()
      modifies this
      ensures old(adjusting) ==> offset == AdjustStep(old(offset), adjustRate)
      ensures !old(adjusting) ==> offset == old(offset)
      ensures adjustRate == old(adjustRate) && adjusting == old(adjusting)
    {
      if adjusting {
        offset := offset + adjustRate / 100.0;
        offset := Clamp(-100.0, 100.0, offset);
      }
    }

    /** adjustBrightnessOffset: 0 stops adjusting; any other delta starts adjusting at that rate. */
    method AdjustBrightnessOffset(delta: real)
      modifies this
      ensures delta == 0.0 ==> !adjusting && adjustRate == old(adjustRate)
      ensures delta != 0.0 ==> adjusting && adjustRate == delta
      ensures offset == old(offset)
    {
      if delta == 0.0 {
        adjusting := false;
      } else {
        adjusting := true;
        adjustRate := delta;
      }
    }

    /** setBrightnessOffset */
    method SetBrightnessOffset(o: real)
      modifies this
      ensures offset == o && adjustRate == old(adjustRate) && adjusting == old(adjusting)
    {
      offset := o;
    }
  }
}
