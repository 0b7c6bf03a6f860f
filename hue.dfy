/**
  The decision rules and encoders of the Philips Hue gateway in
  src/plugins/gateway/hue.ts: finding the bridge light named after a
  luminaire, turning a luminaire's state into a bridge request in the
  bridge's units, dropping the parts of a request that would not change the
  light, and the name under which a button event is parked on the bridge.

  The HTTP calls, the polling loops and the bridge's JSON are not modelled;
  the bridge lights are a list of (light id, light) pairs in the order the
  source's `for ... in` visits the bridge's light dictionary.
 */
module HueGateway {
  import opened Base
  import opened Colors
  import opened Luminaires

  datatype BridgeLightstate = BridgeLightstate(hue: int, sat: int, bri: int, on: bool)

  datatype BridgeLight = BridgeLight(name: string, state: BridgeLightstate)

  datatype RequestBody = RequestBody(on: bool, hue: int, sat: int, bri: int, transitiontime: int)

  datatype Request = Request(id: string, body: RequestBody)

  /** The parts of a request worth sending; `None` is a field left out of the body. */
  datatype OptimizedBody = OptimizedBody(
    on: Option<bool>,
    hue: Option<int>,
    sat: Option<int>,
    bri: Option<int>,
    transitiontime: Option<int>)

  datatype OptimizedRequest = OptimizedRequest(id: string, body: OptimizedBody)

  /** Position of the first bridge light whose name is the luminaire id, or -1. */
  function LightIndex(lights: seq<(string, BridgeLight)>, luminaireId: string): (k: int)
    ensures -1 <= k < |lights|
    ensures k == -1 <==> forall j :: 0 <= j < |lights| ==> lights[j].1.name != luminaireId
    ensures k >= 0 ==> lights[k].1.name == luminaireId && forall j :: 0 <= j < k ==> lights[j].1.name != luminaireId
    decreases |lights|
  {
    if |lights| == 0 then -1
    else if lights[|lights| - 1].1.name == luminaireId && LightIndex(lights[..|lights| - 1], luminaireId) == -1 then
      |lights| - 1
    else LightIndex(lights[..|lights| - 1], luminaireId)
  }

  function AbsDiff(a: int, b: int): nat {
    if a < b then b - a else a - b
  }

  /**
    What optimizeRequest keeps of a request, given the light's current state:
    - `on` when it differs from the light's;
    - the transition time when the light is on or being turned on, unless it
      is 4 or 5 hundredths of a second (the bridge's default and close to it);
    - hue, saturation and brightness when the light will be on afterwards
      and they move by at least 400, 4 and 4;
    and nothing at all when none of on, hue, sat or bri is kept.
   */
  function Optimize(current: BridgeLightstate, request: Request): Option<OptimizedRequest> {
    var b := request.body;
    var on := if current.on != b.on then Some(b.on) else None;
    var tt := if (current.on || b.on) && b.transitiontime != 4 && b.transitiontime != 5 then Some(b.transitiontime) else None;
    var hue := if b.on && AbsDiff(current.hue, b.hue) >= 400 then Some(b.hue) else None;
    var sat := if b.on && AbsDiff(current.sat, b.sat) >= 4 then Some(b.sat) else None;
    var bri := if b.on && AbsDiff(current.bri, b.bri) >= 4 then Some(b.bri) else None;
    if on.None? && hue.None? && sat.None? && bri.None? then None
    else Some(OptimizedRequest(request.id, OptimizedBody(on, hue, sat, bri, tt)))
  }

  /** A light already in the requested state (within the thresholds) gets no request, whatever the transition time. */
  lemma NothingToChange(current: BridgeLightstate, request: Request)
    requires current.on == request.body.on
    requires AbsDiff(current.hue, request.body.hue) < 400
    requires AbsDiff(current.sat, request.body.sat) < 4 && AbsDiff(current.bri, request.body.bri) < 4
    ensures Optimize(current, request).None?
  {
  }

  /** A light that is off and stays off gets no request, whatever the colour. */
  lemma OffStaysOff(current: BridgeLightstate, request: Request)
    requires !current.on && !request.body.on
    ensures Optimize(current, request).None?
  {
  }

  /** Turning a light off sends `on: false` and no colour. */
  lemma TurningOff(current: BridgeLightstate, request: Request)
    requires current.on && !request.body.on
    ensures var o := Optimize(current, request);
            o.Some? && o.value.id == request.id && o.value.body.on == Some(false)
            && o.value.body.hue.None? && o.value.body.sat.None? && o.value.body.bri.None?
            && (o.value.body.transitiontime.Some? <==> request.body.transitiontime != 4 && request.body.transitiontime != 5)
  {
  }

  /** Turning a light on sends `on: true` and every channel that moves by its threshold. */
  lemma TurningOn(current: BridgeLightstate, request: Request)
    requires !current.on && request.body.on
    ensures var o := Optimize(current, request);
            o.Some? && o.value.body.on == Some(true)
            && (o.value.body.hue.Some? <==> AbsDiff(current.hue, request.body.hue) >= 400)
            && (o.value.body.sat.Some? <==> AbsDiff(current.sat, request.body.sat) >= 4)
            && (o.value.body.bri.Some? <==> AbsDiff(current.bri, request.body.bri) >= 4)
  {
  }

  /** Math.round((v / 100) * 254) and the like, for the bridge's units. */
  function ToBridgeUnits(x: real, range: real, steps: real): int
    requires range > 0.0
  {
    Round(x / range * steps)
  }

  /**
    The request luminairesUpdated builds for a luminaire from its first
    light source's target colour in HSV: on unless the value is 0, hue in
    1/65536 turns, saturation and brightness in 1/254ths, and the
    transition time (the explicit one when given, else the luminaire's) in
    hundredths of a second. A luminaire without light sources makes the
    source throw a TypeError.
   */
  function BuildRequest(lib: ColorLib, l: Luminaire, transitionTime: Option<int>): (r: Result<Request>)
    ensures r.Err? <==> |l.lightSources| == 0
    ensures r.Ok? ==>
              var st := HsvOf(lib, l.lightSources[0].newState);
              var ms := transitionTime.GetOr(l.transitionTime) as real;
              r.value.id == l.id
              && (r.value.body.on <==> st.v != 0.0)
              && st.h / 360.0 * 65536.0 - 0.5 < r.value.body.hue as real <= st.h / 360.0 * 65536.0 + 0.5
              && st.s / 100.0 * 254.0 - 0.5 < r.value.body.sat as real <= st.s / 100.0 * 254.0 + 0.5
              && st.v / 100.0 * 254.0 - 0.5 < r.value.body.bri as real <= st.v / 100.0 * 254.0 + 0.5
              && ms / 100.0 - 0.5 < r.value.body.transitiontime as real <= ms / 100.0 + 0.5
  {
    if |l.lightSources| == 0 then Err(TypeError("luminaire.lightSources[0] is undefined"))
    else
      var st := HsvOf(lib, l.lightSources[0].newState);
      var ms := transitionTime.GetOr(l.transitionTime);
      Ok(Request(l.id, RequestBody(
        st.v != 0.0,
        ToBridgeUnits(st.h, 360.0, 65536.0),
        ToBridgeUnits(st.s, 100.0, 254.0),
        ToBridgeUnits(st.v, 100.0, 254.0),
        Round(ms as real / 100.0))))
  }

  /**
    Colours in range give bridge values in range: hue in [0, 65536] for h in
    [0, 360), saturation and brightness in [0, 254] for s and v in [0, 100],
    and a value of 0 gives a light that is off at brightness 0.
   */
  lemma RequestRanges(lib: ColorLib, l: Luminaire, transitionTime: Option<int>)
    requires |l.lightSources| > 0
    ensures var st := HsvOf(lib, l.lightSources[0].newState);
            var b := BuildRequest(lib, l, transitionTime).value.body;
            (0.0 <= st.h < 360.0 ==> 0 <= b.hue <= 65536)
            && (0.0 <= st.s <= 100.0 ==> 0 <= b.sat <= 254)
            && (0.0 <= st.v <= 100.0 ==> 0 <= b.bri <= 254)
            && (st.v == 0.0 ==> !b.on && b.bri == 0)
  {
  }

  /**
    The engine's default 500 ms transition becomes 5 hundredths of a second,
    a value optimizeRequest never forwards; an explicit transition time wins
    over the luminaire's.
   */
  lemma DefaultTransitionNotSent(lib: ColorLib, l: Luminaire, current: BridgeLightstate)
    requires |l.lightSources| > 0 && l.transitionTime == 500
    ensures BuildRequest(lib, l, None).value.body.transitiontime == 5
    ensures var o := Optimize(current, BuildRequest(lib, l, None).value);
            o.Some? ==> o.value.body.transitiontime.None?
    ensures BuildRequest(lib, l, Some(1000)).value.body.transitiontime == 10
  {
  }

  /** The request that parks a button event on the bridge's switch sensor. */
  datatype ButtonEventAction = ButtonEventAction(address: string, body: ButtonEventBody, httpMethod: string)

  datatype ButtonEventBody = ButtonEventBody(name: string)

  /** createButtonEventAction */
  function CreateButtonEventAction(switchSensorId: string, sensorId: string, st: string): (a: ButtonEventAction)
    ensures a.address == "/sensors/" + switchSensorId
    ensures a.body.name == sensorId + [','] + st
    ensures a.httpMethod == "PUT"
  {
    ButtonEventAction("/sensors/" + switchSensorId, ButtonEventBody(sensorId + [','] + st), "PUT")
  }

  /** `s.split(sep)`: the pieces between separators, one more than there are separators. */
  function Split(s: string, sep: char): (r: seq<string>)
    ensures |r| >= 1
    decreases |s|
  {
    if |s| == 0 then [""]
    else
      var rest := Split(s[1..], sep);
      if s[0] == sep then [""] + rest else [[s[0]] + rest[0]] + rest[1..]
  }

  /** A piece without the separator splits off whole. */
  lemma {:induction false} SplitFirstPiece(a: string, b: string, sep: char)
    requires sep !in a
    ensures Split(a + [sep] + b, sep) == [a] + Split(b, sep)
    ensures Split(a, sep) == [a]
    decreases |a|
  {
    if |a| > 0 {
      SplitFirstPiece(a[1..], b, sep);
      assert (a + [sep] + b)[1..] == a[1..] + [sep] + b;
      assert [a[0]] + a[1..] == a;
    } else {
      assert a + [sep] + b == [sep] + b;
      assert ([sep] + b)[1..] == b;
    }
  }

  /**
    Splitting a parked button event's name on ',' gives back the sensor id
    and the button state, when neither contains a comma; a state with a
    comma is cut at it.
   */
  lemma ButtonEventRoundTrip(switchSensorId: string, sensorId: string, st: string)
    requires ',' !in sensorId
    ensures var pieces := Split(CreateButtonEventAction(switchSensorId, sensorId, st).body.name, ',');
            |pieces| >= 2 && pieces[0] == sensorId && pieces[1] == Split(st, ',')[0]
    ensures ',' !in st ==> Split(CreateButtonEventAction(switchSensorId, sensorId, st).body.name, ',') == [sensorId, st]
  {
    SplitFirstPiece(sensorId, st, ',');
    if ',' !in st {
      SplitFirstPiece(st, "", ',');
    }
  }

  class HueBridge {
    /** The bridge's lights as last polled, in the order `for ... in` visits them. */
    var bridgeLights: seq<(string, BridgeLight)>

    constructor()
      ensures bridgeLights == []
    {
      bridgeLights := [];
    }

    /** luminaireIdToLightId: the id of the first light named after the luminaire, if any. */
    method LuminaireIdToLightId(luminaireId: string) returns (r: Option<string>)
      ensures r.None? <==> LightIndex(bridgeLights, luminaireId) < 0
      ensures r.Some? ==> r.value == bridgeLights[LightIndex(bridgeLights, luminaireId)].0
    {
      var k := 0;
      while k < |bridgeLights|
        invariant 0 <= k <= |bridgeLights|
        invariant forall j :: 0 <= j < k ==> bridgeLights[j].1.name != luminaireId
      {
        if bridgeLights[k].1.name == luminaireId {
          return Some(bridgeLights[k].0);
        }
        k := k + 1;
      }
      return None;
    }

    /** lightByLuminaireId: the first light named after the luminaire, if any. */
    method LightByLuminaireId(luminaireId: string) returns (r: Option<BridgeLight>)
      ensures r.None? <==> LightIndex(bridgeLights, luminaireId) < 0
      ensures r.Some? ==> r.value == bridgeLights[LightIndex(bridgeLights, luminaireId)].1
    {
      var k := 0;
      while k < |bridgeLights|
        invariant 0 <= k <= |bridgeLights|
        invariant forall j :: 0 <= j < k ==> bridgeLights[j].1.name != luminaireId
      {
        if bridgeLights[k].1.name == luminaireId {
          return Some(bridgeLights[k].1);
        }
        k := k + 1;
      }
      return None;
    }

    /**
      optimizeRequest: throws when no bridge light is named after the
      luminaire; otherwise fills the body field by field as the rules of
      Optimize say, and gives nothing for a request that changes nothing.
     */
    method OptimizeRequest(request: Request) returns (r: Result<Option<OptimizedRequest>>)
      ensures LightIndex(bridgeLights, request.id) < 0 ==> r == Err(NotFound(BridgeLightKind, request.id))
      ensures LightIndex(bridgeLights, request.id) >= 0 ==>
                r == Ok(Optimize(bridgeLights[LightIndex(bridgeLights, request.id)].1.state, request))
    {
      var hueLight := LightByLuminaireId(request.id);
      if hueLight.None? {
        return Err(NotFound(BridgeLightKind, request.id));
      }
      var current := hueLight.value.state;
      var body := OptimizedBody(None, None, None, None, None);
      if current.on != request.body.on {
        body := body.(on := Some(request.body.on));
      }
      if current.on || body.on.Some? {
        if request.body.transitiontime != 4 && request.body.transitiontime != 5 {
          body := body.(transitiontime := Some(request.body.transitiontime));
        }
      }
      if (current.on || body.on == Some(true)) && body.on != Some(false) {
        if AbsDiff(current.hue, request.body.hue) >= 400 {
          body := body.(hue := Some(request.body.hue));
        }
        if AbsDiff(current.sat, request.body.sat) >= 4 {
          body := body.(sat := Some(request.body.sat));
        }
        if AbsDiff(current.bri, request.body.bri) >= 4 {
          body := body.(bri := Some(request.body.bri));
        }
      }
      if body.on.None? && body.hue.None? && body.sat.None? && body.bri.None? {
        return Ok(None);
      }
      return Ok(Some(OptimizedRequest(request.id, body)));
    }
  }
}
