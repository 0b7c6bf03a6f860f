/**
  The luminaire registry and transition engine of src/core/luminaire.ts.

  A luminaire holds an old and a new declarative state (colours plus an
  effect chain), the start and duration of the transition between them, and
  the per-LED light sources last computed from those. Recalculating runs the
  effect pipeline on both states, resamples both colour lists to the number
  of light sources and crossfades between them by the transition progress.

  The luminaire records are values here; the registry is a class whose
  methods replace records in its list.
 */
module Luminaires {
  import opened Base
  import opened Colors
  import opened Utils
  import opened Effects

  /** One LED: the colour it fades from, its current colour, the colour it fades to. */
  datatype LightSource = LightSource(oldState: Color, state: Color, newState: Color)

  /**
    A luminaire record. `brightness` is read by src/core/scene.ts but never
    written by this file, so every luminaire created here has `None`.
   */
  datatype Luminaire = Luminaire(
    id: string,
    gateway: string,
    lightSources: seq<LightSource>,
    oldColors: seq<Color>,
    oldEffects: seq<Effect>,
    newColors: seq<Color>,
    newEffects: seq<Effect>,
    transitionTime: int,
    transitionStart: int,
    brightness: Option<real>)

  /** LuminaireUpdateFields; absent members are `None`. */
  datatype UpdateFields = UpdateFields(
    id: string,
    colors: Option<seq<Color>>,
    effects: Option<seq<Effect>>,
    transitionTime: Option<int>)

  /** One entry of the luminaire configuration (the position fields are unused). */
  datatype LuminaireConfig = LuminaireConfig(id: string, numLightSources: Option<nat>)

  /** The events the registry emits to its listeners. */
  datatype Notification = Registered(luminaire: Luminaire) | Updated(luminaires: seq<Luminaire>)

  /** The outcome of applying updates: the registry as it stands, and the error that stopped them, if any. */
  datatype Applied = Applied(registry: seq<Luminaire>, failure: Option<Error>)

  /** createLightSource: a light source at rest on its initial state, white by default. */
  function CreateLightSource(initState: Color): (s: LightSource)
    ensures s.oldState == s.state == s.newState
    ensures !s.state.Undefined?
    ensures initState.Undefined? ==> s.state == White
    ensures !initState.Undefined? ==> s.state == initState
  {
    var c := if initState.Undefined? then White else initState;
    LightSource(c, c, c)
  }

  /**
    createLuminaire: `numLightSources` light sources at rest, the i-th on the
    i-th initial colour or white; the initial colours as both old and new
    colours, no effects, no transition, started at `now`.
   */
  function CreateLuminaire(id: string, gateway: string, numLightSources: nat,
                           initState: Option<seq<Color>>, now: int): (l: Luminaire)
    ensures l.id == id && l.gateway == gateway
    ensures |l.lightSources| == numLightSources
    ensures forall k :: 0 <= k < numLightSources ==>
              l.lightSources[k].oldState == l.lightSources[k].state == l.lightSources[k].newState
    ensures forall k :: 0 <= k < numLightSources && k < |initState.GetOr([])| && !initState.GetOr([])[k].Undefined?
              ==> l.lightSources[k].state == initState.GetOr([])[k]
    ensures forall k :: 0 <= k < numLightSources && (initState.None? || k >= |initState.value|)
              ==> l.lightSources[k].state == White
    ensures l.oldColors == l.newColors == initState.GetOr([])
    ensures l.oldEffects == l.newEffects == []
    ensures l.transitionTime == 0 && l.transitionStart == now
  {
    var init := initState.GetOr([]);
    Luminaire(id, gateway,
              seq(numLightSources, k requires 0 <= k < numLightSources => CreateLightSource(At(init, k))),
              init, [], init, [], 0, now, None)
  }

  /** The ids of a luminaire list, in order. */
  function Ids(ls: seq<Luminaire>): (ids: seq<string>)
    ensures |ids| == |ls|
    ensures forall k :: 0 <= k < |ls| ==> ids[k] == ls[k].id
  {
    seq(|ls|, k requires 0 <= k < |ls| => ls[k].id)
  }

  /** Array.prototype.findIndex on an equality test: the first position holding x, or -1. */
  function IndexOf(s: seq<string>, x: string): (r: int)
    ensures -1 <= r < |s|
    ensures r == -1 <==> x !in s
    ensures r >= 0 ==> s[r] == x && x !in s[..r]
  {
    if |s| == 0 then -1
    else if s[0] == x then 0
    else
      var k := IndexOf(s[1..], x);
      assert k >= 0 ==> s[..k + 1] == [s[0]] + s[1..][..k];
      if k < 0 then -1 else k + 1
  }

  /** findLuminaireIndex: the position of the first luminaire with the id, or -1. */
  function FindLuminaireIndex(ls: seq<Luminaire>, id: string): (r: int)
    ensures -1 <= r < |ls|
    ensures r == -1 <==> (forall k :: 0 <= k < |ls| ==> ls[k].id != id)
    ensures r >= 0 ==> ls[r].id == id && forall k :: 0 <= k < r ==> ls[k].id != id
  {
    var r := IndexOf(Ids(ls), id);
    assert r >= 0 ==> forall k :: 0 <= k < r ==> Ids(ls)[..r][k] == ls[k].id;
    r
  }

  /** findLuminaire */
  function FindLuminaire(ls: seq<Luminaire>, id: string): (r: Option<Luminaire>)
    ensures r.Some? <==> id in Ids(ls)
    ensures r.Some? ==> r.value == ls[FindLuminaireIndex(ls, id)] && r.value.id == id
  {
    var k := FindLuminaireIndex(ls, id);
    if k < 0 then None else Some(ls[k])
  }

  /** The sampled position `floor(i / targetSize * len)` of resizeColors. */
  function SampleIndex(i: nat, targetSize: nat, len: nat): (k: int)
    requires i < targetSize
    ensures len > 0 ==> 0 <= k < len
    ensures i == 0 ==> k == 0
  {
    FractionOfLength(i, targetSize, len);
    Floor(i as real / targetSize as real * len as real)
  }

  lemma FractionOfLength(i: nat, n: nat, len: nat)
    requires i < n
    ensures 0.0 <= i as real / n as real * len as real
    ensures len > 0 ==> i as real / n as real * len as real < len as real
  {
    var x := i as real / n as real;
    assert x * n as real == i as real;
    assert 0.0 <= x < 1.0;
    var y := x * len as real;
    assert len as real - y == (1.0 - x) * len as real;
  }

  /**
    resizeColors: the source itself when it already has the target size,
    otherwise `targetSize` samples, the i-th taken at `floor(i / targetSize * len)`.
   */
  function ResizeColors(source: seq<Color>, targetSize: nat): (r: seq<Color>)
    ensures |source| == targetSize ==> r == source
    ensures |r| == targetSize
    ensures |source| != targetSize ==>
              forall i :: 0 <= i < targetSize ==> r[i] == At(source, SampleIndex(i, targetSize, |source|))
  {
    if |source| == targetSize then source
    else seq(targetSize, i requires 0 <= i < targetSize => At(source, SampleIndex(i, targetSize, |source|)))
  }

  /** Every sample of a non-empty list is one of its elements; an empty list samples to undefined. */
  lemma ResizeSamplesSource(source: seq<Color>, targetSize: nat, i: nat)
    requires i < targetSize
    ensures |source| > 0 ==> ResizeColors(source, targetSize)[i] in source
    ensures |source| == 0 ==> ResizeColors(source, targetSize)[i] == Undefined
  {
    if |source| != targetSize && |source| > 0 {
      var k := SampleIndex(i, targetSize, |source|);
      assert ResizeColors(source, targetSize)[i] == source[k];
    }
  }

  /** A one-colour list resizes to that colour everywhere. */
  lemma ResizeSingle(c: Color, targetSize: nat)
    ensures ResizeColors([c], targetSize) == seq(targetSize, _ => c)
  {
    var r := ResizeColors([c], targetSize);
    forall i | 0 <= i < targetSize
      ensures r[i] == c
    {
      ResizeSamplesSource([c], targetSize, i);
    }
  }

  /** The progress of a luminaire's transition at `now`. */
  function Progress(l: Luminaire, now: int): real {
    CalculateTransitionProgress(l.transitionStart, l.transitionTime, now)
  }

  /** One light source from a resampled old and new colour, both defaulting to black. */
  function MakeSource(lib: ColorLib, oldColor: Color, newColor: Color, progress: real): LightSource {
    var o := Or(oldColor, Black);
    var n := Or(newColor, Black);
    LightSource(o, GetColorTransition(lib, o, n, progress), n)
  }

  /** The old colours after effects: evaluated only while the transition is ongoing, black otherwise. */
  function OldTarget(l: Luminaire, lumIndex: int, now: int, table: EffectTable): Result<seq<Color>> {
    if Progress(l, now) != 1.0 then
      ApplyEffectsAll(table, l.oldEffects, l.oldColors, lumIndex, l.id, |l.lightSources|)
    else Ok([Black])
  }

  /** The new colours after effects. */
  function NewTarget(l: Luminaire, lumIndex: int, table: EffectTable): Result<seq<Color>> {
    ApplyEffectsAll(table, l.newEffects, l.newColors, lumIndex, l.id, |l.lightSources|)
  }

  /**
    recalcLightSources: the new light sources, one per existing light source,
    each fading from the resampled old colour to the resampled new colour
    (black where either is missing); an effect that throws makes the whole
    recalculation throw. Once the transition is over the old state is black
    and every light source shows its new state.
   */
  function RecalcLightSources(l: Luminaire, lumIndex: int, now: int, table: EffectTable, lib: ColorLib)
    : (r: Result<seq<LightSource>>)
    ensures r.Err? <==> OldTarget(l, lumIndex, now, table).Err? || NewTarget(l, lumIndex, table).Err?
    ensures r.Ok? ==> |r.value| == |l.lightSources|
    ensures r.Ok? ==> forall k :: 0 <= k < |r.value| ==>
              r.value[k].newState == Or(ResizeColors(NewTarget(l, lumIndex, table).value, |l.lightSources|)[k], Black)
              && r.value[k].oldState == Or(ResizeColors(OldTarget(l, lumIndex, now, table).value, |l.lightSources|)[k], Black)
    ensures r.Ok? && Progress(l, now) == 1.0 ==> forall k :: 0 <= k < |r.value| ==>
              r.value[k].oldState == Black && r.value[k].state == r.value[k].newState
    ensures r.Ok? && Progress(l, now) == 0.0 ==> forall k :: 0 <= k < |r.value| ==>
              r.value[k].state == r.value[k].oldState
    ensures r.Ok? ==> forall k :: 0 <= k < |r.value| ==>
              r.value[k].state == GetColorTransition(lib, r.value[k].oldState, r.value[k].newState, Progress(l, now))
  {
    var n := |l.lightSources|;
    var oldColors :- OldTarget(l, lumIndex, now, table);
    var newColors :- NewTarget(l, lumIndex, table);
    var oldResized := ResizeColors(oldColors, n);
    var newResized := ResizeColors(newColors, n);
    if Progress(l, now) == 1.0 then
      ResizeSingle(Black, n);
      Ok(seq(n, k requires 0 <= k < n => MakeSource(lib, oldResized[k], newResized[k], Progress(l, now))))
    else
      Ok(seq(n, k requires 0 <= k < n => MakeSource(lib, oldResized[k], newResized[k], Progress(l, now))))
  }

  /** Once the transition is over, the old colours and effects play no part (an unknown old effect included). */
  lemma SettledIgnoresOldState(l: Luminaire, lumIndex: int, now: int, table: EffectTable, lib: ColorLib,
                               colors: seq<Color>, effects: seq<Effect>)
    requires Progress(l, now) == 1.0
    ensures RecalcLightSources(l, lumIndex, now, table, lib)
         == RecalcLightSources(l.(oldColors := colors, oldEffects := effects), lumIndex, now, table, lib)
  {
    var l' := l.(oldColors := colors, oldEffects := effects);
    assert OldTarget(l, lumIndex, now, table) == OldTarget(l', lumIndex, now, table) == Ok([Black]);
    assert NewTarget(l, lumIndex, table) == NewTarget(l', lumIndex, table);
  }

  /**
    A settled luminaire without effects shows its new colours resampled to
    its light sources, black past the end of the list.
   */
  lemma SettledPlainColors(l: Luminaire, lumIndex: int, now: int, table: EffectTable, lib: ColorLib)
    requires Progress(l, now) == 1.0 && l.newEffects == []
    ensures var r := RecalcLightSources(l, lumIndex, now, table, lib);
            r.Ok? && forall k :: 0 <= k < |r.value| ==>
              r.value[k].state == r.value[k].newState == Or(ResizeColors(l.newColors, |l.lightSources|)[k], Black)
  {
    assert NewTarget(l, lumIndex, table) == Ok(l.newColors);
  }

  /**
    The luminaire at position i with its light sources recalculated, as
    getLuminaire leaves it; it keeps its id, colours, effects and light
    source count.
   */
  function Refresh(ls: seq<Luminaire>, i: nat, now: int, table: EffectTable, lib: ColorLib): (r: Result<Luminaire>)
    requires i < |ls|
    ensures r.Err? <==> RecalcLightSources(ls[i], i, now, table, lib).Err?
    ensures r.Ok? ==> r.value == ls[i].(lightSources := r.value.lightSources)
    ensures r.Ok? ==> |r.value.lightSources| == |ls[i].lightSources|
    ensures r.Ok? ==> r.value.lightSources == RecalcLightSources(ls[i], i, now, table, lib).value
  {
    var sources :- RecalcLightSources(ls[i], i, now, table, lib);
    Ok(ls[i].(lightSources := sources))
  }

  /** The field shift of updateLuminaire: new state becomes old, the update becomes new. */
  function Retarget(l: Luminaire, f: UpdateFields, now: int): Luminaire {
    l.(oldColors := l.newColors, oldEffects := l.newEffects,
       transitionTime := f.transitionTime.GetOr(500), transitionStart := now,
       newColors := f.colors.GetOr([]), newEffects := f.effects.GetOr([]))
  }

  /**
    updateLuminaire on a registry list. The fields are assigned before the
    light sources are recalculated, so an effect that throws leaves the
    luminaire retargeted but with its old light sources.
   */
  function UpdateOne(ls: seq<Luminaire>, f: UpdateFields, now: int, table: EffectTable, lib: ColorLib): (a: Applied)
    ensures Ids(a.registry) == Ids(ls)
    ensures FindLuminaireIndex(ls, f.id) < 0 ==> a == Applied(ls, Some(NotFound(LuminaireKind, f.id)))
    ensures var i := FindLuminaireIndex(ls, f.id);
            i >= 0 ==>
              (forall k :: 0 <= k < |ls| && k != i ==> a.registry[k] == ls[k])
              && a.registry[i].oldColors == ls[i].newColors
              && a.registry[i].oldEffects == ls[i].newEffects
              && a.registry[i].newColors == f.colors.GetOr([])
              && a.registry[i].newEffects == f.effects.GetOr([])
              && a.registry[i].transitionTime == f.transitionTime.GetOr(500)
              && a.registry[i].transitionStart == now
              && a.registry[i].gateway == ls[i].gateway
              && a.registry[i].brightness == ls[i].brightness
              && (a.failure.None? ==> |a.registry[i].lightSources| == |ls[i].lightSources|)
              && (a.failure.Some? ==> a.registry[i].lightSources == ls[i].lightSources)
    ensures var i := FindLuminaireIndex(ls, f.id);
            i >= 0 ==>
              var recalc := RecalcLightSources(Retarget(ls[i], f, now), i, now, table, lib);
              (a.failure.Some? <==> recalc.Err?)
              && (recalc.Err? ==> a.failure.value == recalc.error)
              && (recalc.Ok? ==> a.registry[i].lightSources == recalc.value)
  {
    var i := FindLuminaireIndex(ls, f.id);
    if i < 0 then Applied(ls, Some(NotFound(LuminaireKind, f.id)))
    else
      var t := Retarget(ls[i], f, now);
      match RecalcLightSources(t, i, now, table, lib)
      case Err(e) =>
        assert Ids(ls[i := t]) == Ids(ls);
        Applied(ls[i := t], Some(e))
      case Ok(sources) =>
        assert Ids(ls[i := t.(lightSources := sources)]) == Ids(ls);
        Applied(ls[i := t.(lightSources := sources)], None)
  }

  /** The updates applied in order, stopping at the first that throws. */
  function ApplyUpdates(ls: seq<Luminaire>, fs: seq<UpdateFields>, now: int, table: EffectTable, lib: ColorLib)
    : (a: Applied)
    ensures Ids(a.registry) == Ids(ls)
    decreases |fs|
  {
    if fs == [] then Applied(ls, None)
    else
      var prev := ApplyUpdates(ls, fs[..|fs| - 1], now, table, lib);
      if prev.failure.Some? then prev
      else UpdateOne(prev.registry, fs[|fs| - 1], now, table, lib)
  }

  /** One more update on a batch that has not failed yet. */
  lemma ApplyUpdatesStep(ls: seq<Luminaire>, fs: seq<UpdateFields>, k: nat, now: int, table: EffectTable, lib: ColorLib)
    requires k < |fs|
    requires ApplyUpdates(ls, fs[..k], now, table, lib).failure.None?
    ensures ApplyUpdates(ls, fs[..k + 1], now, table, lib)
         == UpdateOne(ApplyUpdates(ls, fs[..k], now, table, lib).registry, fs[k], now, table, lib)
  {
    assert fs[..k + 1][..k] == fs[..k];
  }

  /**
    Applying two runs of updates in a row: the second run starts from the
    registry the first one left, unless the first one threw, in which case
    the second run changes nothing.
   */
  lemma {:induction false} ApplyUpdatesAppend(ls: seq<Luminaire>, a: seq<UpdateFields>, b: seq<UpdateFields>,
                                              now: int, table: EffectTable, lib: ColorLib)
    ensures ApplyUpdates(ls, a, now, table, lib).failure.Some? ==>
              ApplyUpdates(ls, a + b, now, table, lib) == ApplyUpdates(ls, a, now, table, lib)
    ensures ApplyUpdates(ls, a, now, table, lib).failure.None? ==>
              ApplyUpdates(ls, a + b, now, table, lib)
              == ApplyUpdates(ApplyUpdates(ls, a, now, table, lib).registry, b, now, table, lib)
    decreases |b|
  {
    if b == [] {
      assert a + b == a;
    } else {
      var b' := b[..|b| - 1];
      ApplyUpdatesAppend(ls, a, b', now, table, lib);
      assert (a + b)[..|a + b| - 1] == a + b';
      assert (a + b)[|a + b| - 1] == b[|b| - 1];
    }
  }

  /** The filter of updateLuminaires: the updates whose id is registered, in order. */
  function KeptFields(ls: seq<Luminaire>, fs: seq<UpdateFields>): (r: seq<UpdateFields>)
    ensures |r| <= |fs|
    ensures forall f :: f in r <==> f in fs && f.id in Ids(ls)
  {
    if fs == [] then []
    else
      var rest := KeptFields(ls, fs[1..]);
      assert forall f :: f in fs <==> f == fs[0] || f in fs[1..];
      if fs[0].id in Ids(ls) then [fs[0]] + rest else rest
  }

  /**
    The filter keeps order and repetitions: filtering two runs of updates
    gives the kept part of the first followed by the kept part of the
    second, and a single update is kept exactly when its id is registered.
   */
  lemma {:induction false} KeptFieldsAppend(ls: seq<Luminaire>, a: seq<UpdateFields>, b: seq<UpdateFields>)
    ensures KeptFields(ls, a + b) == KeptFields(ls, a) + KeptFields(ls, b)
    ensures forall f :: KeptFields(ls, [f]) == if f.id in Ids(ls) then [f] else []
    decreases |a|
  {
    if a != [] {
      KeptFieldsAppend(ls, a[1..], b);
      assert (a + b)[0] == a[0];
      assert (a + b)[1..] == a[1..] + b;
    } else {
      assert a + b == b;
    }
    forall f: UpdateFields
      ensures KeptFields(ls, [f]) == if f.id in Ids(ls) then [f] else []
    {
      assert [f][1..] == [];
    }
  }

  /** Updates that all name registered luminaires are all kept. */
  lemma {:induction false} KeptAll(ls: seq<Luminaire>, fs: seq<UpdateFields>)
    requires forall f :: f in fs ==> f.id in Ids(ls)
    ensures KeptFields(ls, fs) == fs
  {
    if fs != [] {
      assert forall f :: f in fs[1..] ==> f in fs;
      KeptAll(ls, fs[1..]);
      assert fs[0] in fs;
      assert [fs[0]] + fs[1..] == fs;
    }
  }

  /**
    The luminaires that updateLuminaires returns: one per kept update, the
    registry's record for its id once all updates are done (the source
    returns the live objects, so an id updated twice shows its final state
    in both places).
   */
  function Current(ls: seq<Luminaire>, fs: seq<UpdateFields>): (r: seq<Luminaire>)
    requires forall f :: f in fs ==> f.id in Ids(ls)
    ensures |r| == |fs|
    ensures forall k :: 0 <= k < |fs| ==> r[k].id == fs[k].id
    ensures forall k :: 0 <= k < |fs| ==> r[k] in ls && Some(r[k]) == FindLuminaire(ls, fs[k].id)
  {
    seq(|fs|, k requires 0 <= k < |fs| => ls[FindLuminaireIndex(ls, fs[k].id)])
  }

  /** The registry list after updateLuminaires, for an initialised registry. */
  function BatchRegistry(ls: seq<Luminaire>, fs: seq<UpdateFields>, now: int, table: EffectTable, lib: ColorLib)
    : seq<Luminaire>
  {
    ApplyUpdates(ls, KeptFields(ls, fs), now, table, lib).registry
  }

  /**
    What updateLuminaires returns for an initialised registry: the first
    error, or the updated luminaires, one per update naming a registered id.
   */
  function BatchResult(ls: seq<Luminaire>, fs: seq<UpdateFields>, now: int, table: EffectTable, lib: ColorLib)
    : (r: Result<seq<Luminaire>>)
    ensures r.Ok? ==> |r.value| == |KeptFields(ls, fs)|
    ensures r.Ok? ==> forall k :: 0 <= k < |r.value| ==> r.value[k].id in Ids(ls)
    ensures r.Err? <==> ApplyUpdates(ls, KeptFields(ls, fs), now, table, lib).failure.Some?
    ensures r.Err? ==> r.error == ApplyUpdates(ls, KeptFields(ls, fs), now, table, lib).failure.value
    ensures r.Ok? ==> r.value == Current(BatchRegistry(ls, fs, now, table, lib), KeptFields(ls, fs))
  {
    var kept := KeptFields(ls, fs);
    var a := ApplyUpdates(ls, kept, now, table, lib);
    if a.failure.Some? then Err(a.failure.value) else Ok(Current(a.registry, kept))
  }

  /** Reads BatchRegistry and BatchResult off the applied updates. */
  lemma BatchOutcome(ls: seq<Luminaire>, fs: seq<UpdateFields>, now: int, table: EffectTable, lib: ColorLib, a: Applied)
    requires ApplyUpdates(ls, KeptFields(ls, fs), now, table, lib) == a
    ensures BatchRegistry(ls, fs, now, table, lib) == a.registry
    ensures a.failure.Some? ==> BatchResult(ls, fs, now, table, lib) == Err(a.failure.value)
    ensures a.failure.None? ==> BatchResult(ls, fs, now, table, lib) == Ok(Current(a.registry, KeptFields(ls, fs)))
  {
  }

  /**
    A batch whose updates give no transition time leaves every luminaire it
    names on the 500 ms default, started at `now`.
   */
  lemma {:induction false} BatchDefaultsTransition(ls: seq<Luminaire>, fs: seq<UpdateFields>, now: int,
                                                   table: EffectTable, lib: ColorLib)
    requires forall f :: f in fs ==> f.transitionTime.None?
    requires ApplyUpdates(ls, fs, now, table, lib).failure.None?
    ensures var reg := ApplyUpdates(ls, fs, now, table, lib).registry;
            forall f :: f in fs ==>
              (f.id in Ids(ls)
               && reg[FindLuminaireIndex(ls, f.id)].transitionTime == 500
               && reg[FindLuminaireIndex(ls, f.id)].transitionStart == now)
    decreases |fs|
  {
    if fs != [] {
      var init := fs[..|fs| - 1];
      var last := fs[|fs| - 1];
      var prev := ApplyUpdates(ls, init, now, table, lib);
      assert prev.failure.None?;
      assert forall f :: f in init ==> f in fs;
      BatchDefaultsTransition(ls, init, now, table, lib);
      var reg := ApplyUpdates(ls, fs, now, table, lib).registry;
      assert Ids(prev.registry) == Ids(ls);
      assert last.id in Ids(ls);
      forall f | f in fs
        ensures f.id in Ids(ls)
        ensures reg[FindLuminaireIndex(ls, f.id)].transitionTime == 500
        ensures reg[FindLuminaireIndex(ls, f.id)].transitionStart == now
      {
        if f != last {
          assert f in init by {
            var k :| 0 <= k < |fs| && fs[k] == f;
            assert k < |fs| - 1;
            assert init[k] == f;
          }
        }
      }
    }
  }

  /** No update changes a luminaire's brightness. */
  lemma {:induction false} BatchKeepsBrightness(ls: seq<Luminaire>, fs: seq<UpdateFields>, now: int,
                                                table: EffectTable, lib: ColorLib, j: nat)
    requires j < |ls|
    ensures ApplyUpdates(ls, fs, now, table, lib).registry[j].brightness == ls[j].brightness
    decreases |fs|
  {
    if fs != [] {
      BatchKeepsBrightness(ls, fs[..|fs| - 1], now, table, lib, j);
    }
  }

  /** Luminaires whose id no update names come out of a batch unchanged. */
  lemma {:induction false} UntargetedUnchanged(ls: seq<Luminaire>, fs: seq<UpdateFields>, now: int,
                                               table: EffectTable, lib: ColorLib, j: nat)
    requires j < |ls|
    requires forall f :: f in fs ==> f.id != ls[j].id
    ensures ApplyUpdates(ls, fs, now, table, lib).registry[j] == ls[j]
    decreases |fs|
  {
    if fs != [] {
      var init := fs[..|fs| - 1];
      assert forall f :: f in init ==> f in fs;
      UntargetedUnchanged(ls, init, now, table, lib, j);
      var prev := ApplyUpdates(ls, init, now, table, lib);
      if prev.failure.None? {
        var f := fs[|fs| - 1];
        assert f in fs;
        var i := FindLuminaireIndex(prev.registry, f.id);
        assert Ids(prev.registry)[j] == Ids(ls)[j];
        assert i != j;
      }
    }
  }

  /**
    The last update naming a luminaire decides its new colours, effects and
    transition, once the whole batch has gone through.
   */
  lemma {:induction false} LastUpdateWins(ls: seq<Luminaire>, fs: seq<UpdateFields>, now: int,
                                          table: EffectTable, lib: ColorLib, k: nat)
    requires k < |fs|
    requires forall m :: k < m < |fs| ==> fs[m].id != fs[k].id
    requires fs[k].id in Ids(ls)
    requires ApplyUpdates(ls, fs, now, table, lib).failure.None?
    ensures var reg := ApplyUpdates(ls, fs, now, table, lib).registry;
            var l := reg[FindLuminaireIndex(ls, fs[k].id)];
            l.newColors == fs[k].colors.GetOr([])
            && l.newEffects == fs[k].effects.GetOr([])
            && l.transitionTime == fs[k].transitionTime.GetOr(500)
            && l.transitionStart == now
    decreases |fs|
  {
    var init := fs[..|fs| - 1];
    var prev := ApplyUpdates(ls, init, now, table, lib);
    var i := FindLuminaireIndex(ls, fs[k].id);
    assert FindLuminaireIndex(prev.registry, fs[k].id) == i by {
      assert Ids(prev.registry) == Ids(ls);
    }
    if k < |fs| - 1 {
      LastUpdateWins(ls, init, now, table, lib, k);
      var f := fs[|fs| - 1];
      var j := FindLuminaireIndex(prev.registry, f.id);
      assert prev.registry[i].id == fs[k].id;
      assert j != i;
    }
  }

  class LuminaireRegistry {
    /** Whether register has run (the source's `state.app`). */
    var initialized: bool
    var luminaires: seq<Luminaire>
    /** The events emitted so far. */
    ghost var notifications: seq<Notification>
    /** The effect modules the pipeline can load. */
    const table: EffectTable
    const lib: ColorLib

    constructor(table: EffectTable, lib: ColorLib)
      ensures !initialized && luminaires == [] && notifications == []
      ensures this.table == table && this.lib == lib
    {
      this.table := table;
      this.lib := lib;
      initialized := false;
      luminaires := [];
      notifications := [];
    }

    /** getLuminaireIdList: exactly the registered ids, in registry order. */
    function IdList(): (ids: seq<string>)
      reads this
      ensures |ids| == |luminaires|
      ensures forall id :: id in ids <==> FindLuminaireIndex(luminaires, id) >= 0
      ensures forall k :: 0 <= k < |ids| ==> ids[k] == luminaires[k].id
    {
      Ids(luminaires)
    }

    /** luminaireExists */
    function LuminaireExists(id: string): (b: bool)
      reads this
      ensures b <==> exists k :: 0 <= k < |luminaires| && luminaires[k].id == id
    {
      FindLuminaire(luminaires, id).Some?
    }

    /**
      getLuminaire: an unknown id throws; a known one has its light sources
      recalculated in the registry and is returned.
     */
    method GetLuminaire(id: string, now: int) returns (r: Result<Luminaire>)
      modifies this
      ensures initialized == old(initialized) && notifications == old(notifications)
      ensures var i := FindLuminaireIndex(old(luminaires), id);
              (i < 0 ==> r == Err(NotFound(LuminaireKind, id)) && luminaires == old(luminaires))
              && (i >= 0 ==> r == Refresh(old(luminaires), i, now, table, lib))
              && (i >= 0 && r.Ok? ==> luminaires == old(luminaires)[i := r.value])
              && (i >= 0 && r.Err? ==> luminaires == old(luminaires))
    {
      var i := FindLuminaireIndex(luminaires, id);
      if i < 0 {
        return Err(NotFound(LuminaireKind, id));
      }
      r := Refresh(luminaires, i, now, table, lib);
      if r.Ok? {
        luminaires := luminaires[i := r.value];
      }
    }

    /**
      registerLuminaire: throws before initialisation and for an id that is
      not configured; otherwise recalculates the luminaire, sets its gateway,
      and announces it. As written it ignores `numLightSources` and
      `initState`: colours and light source count stay as configured.
     */
    method RegisterLuminaire(id: string, gateway: string, numLightSources: nat,
                             initState: Option<seq<Color>>, now: int) returns (r: Result<Luminaire>)
      modifies this
      ensures initialized == old(initialized)
      ensures !old(initialized) ==>
                r == Err(NotInitialized) && luminaires == old(luminaires) && notifications == old(notifications)
      ensures var i := FindLuminaireIndex(old(luminaires), id);
              old(initialized) && i < 0 ==>
                r == Err(NotFound(LuminaireKind, id)) && luminaires == old(luminaires)
                && notifications == old(notifications)
      ensures var i := FindLuminaireIndex(old(luminaires), id);
              old(initialized) && i >= 0 && r.Err? ==>
                r == Refresh(old(luminaires), i, now, table, lib) && luminaires == old(luminaires)
                && notifications == old(notifications)
      ensures var i := FindLuminaireIndex(old(luminaires), id);
              r.Ok? ==>
                0 <= i && Refresh(old(luminaires), i, now, table, lib).Ok?
                && r.value == Refresh(old(luminaires), i, now, table, lib).value.(gateway := gateway)
                && luminaires == old(luminaires)[i := r.value]
                && notifications == old(notifications) + [Registered(r.value)]
    {
      if !initialized {
        return Err(NotInitialized);
      }
      var i := FindLuminaireIndex(luminaires, id);
      var got := GetLuminaire(id, now);
      if got.Err? {
        return got;
      }
      var l := got.value.(gateway := gateway);
      luminaires := luminaires[i := l];
      notifications := notifications + [Registered(l)];
      r := Ok(l);
    }

    /** A registered luminaire keeps its id, colours and light source count; only its gateway is set. */
    lemma RegisteredKeepsConfiguration(ls: seq<Luminaire>, i: nat, gateway: string, now: int)
      requires i < |ls| && Refresh(ls, i, now, table, lib).Ok?
      ensures var l := Refresh(ls, i, now, table, lib).value.(gateway := gateway);
              l.id == ls[i].id && l.gateway == gateway
              && l.newColors == ls[i].newColors && l.newEffects == ls[i].newEffects
              && l.oldColors == ls[i].oldColors && l.oldEffects == ls[i].oldEffects
              && |l.lightSources| == |ls[i].lightSources|
    {
    }

    /**
      updateLuminaire: throws before initialisation and for an unknown id;
      otherwise retargets the luminaire and recalculates it.
     */
    method UpdateLuminaire(f: UpdateFields, now: int) returns (r: Result<Luminaire>)
      modifies this
      ensures initialized == old(initialized) && notifications == old(notifications)
      ensures !old(initialized) ==> (r == Err(NotInitialized) && luminaires == old(luminaires))
      ensures var a := UpdateOne(old(luminaires), f, now, table, lib);
              old(initialized) ==>
                luminaires == a.registry
                && (a.failure.Some? ==> r == Err(a.failure.value))
                && (a.failure.None? ==> r == Ok(a.registry[FindLuminaireIndex(old(luminaires), f.id)]))
    {
      if !initialized {
        return Err(NotInitialized);
      }
      var a := UpdateOne(luminaires, f, now, table, lib);
      var i := FindLuminaireIndex(luminaires, f.id);
      luminaires := a.registry;
      if a.failure.Some? {
        r := Err(a.failure.value);
      } else {
        r := Ok(luminaires[i]);
      }
    }

    /**
      updateLuminaires: drops the updates naming unknown luminaires, applies
      the rest in order and, when none throws, emits and returns the updated
      luminaires. An update that throws ends the batch with the earlier ones
      applied and nothing emitted.
     */
    method UpdateLuminaires(fieldsList: seq<UpdateFields>, now: int) returns (r: Result<seq<Luminaire>>)
      modifies this
      ensures initialized == old(initialized)
      ensures !old(initialized) ==>
                r == Err(NotInitialized) && luminaires == old(luminaires) && notifications == old(notifications)
      ensures old(initialized) ==> luminaires == BatchRegistry(old(luminaires), fieldsList, now, table, lib)
      ensures old(initialized) ==> r == BatchResult(old(luminaires), fieldsList, now, table, lib)
      ensures old(initialized) && r.Err? ==> notifications == old(notifications)
      ensures old(initialized) && r.Ok? ==> notifications == old(notifications) + [Updated(r.value)]
    {
      if !initialized {
        return Err(NotInitialized);
      }
      var kept := KeptFields(luminaires, fieldsList);
      ghost var start := luminaires;
      var a := UpdateInOrder(kept, now);
      BatchOutcome(start, fieldsList, now, table, lib, a);
      if a.failure.Some? {
        return Err(a.failure.value);
      }
      r := Ok(Current(luminaires, kept));
      notifications := notifications + [Updated(r.value)];
    }

    /** The map step of updateLuminaires: updateLuminaire on each update in turn, until one throws. */
    method UpdateInOrder(kept: seq<UpdateFields>, now: int) returns (a: Applied)
      requires initialized
      modifies this
      ensures initialized && notifications == old(notifications)
      ensures a == ApplyUpdates(old(luminaires), kept, now, table, lib)
      ensures luminaires == a.registry
    {
      var k := 0;
      while k < |kept|
        invariant 0 <= k <= |kept|
        invariant initialized && notifications == old(notifications)
        invariant ApplyUpdates(old(luminaires), kept[..k], now, table, lib) == Applied(luminaires, None)
      {
        ApplyUpdatesStep(old(luminaires), kept, k, now, table, lib);
        var u := UpdateLuminaire(kept[k], now);
        if u.Err? {
          ErrorPersists(old(luminaires), kept, k + 1, now);
          return Applied(luminaires, Some(u.error));
        }
        k := k + 1;
      }
      assert kept[..k] == kept;
      a := Applied(luminaires, None);
    }

    /** An update that fails ends the batch: later updates change nothing. */
    lemma {:induction false} ErrorPersists(ls: seq<Luminaire>, fs: seq<UpdateFields>, k: nat, now: int)
      requires k <= |fs|
      requires ApplyUpdates(ls, fs[..k], now, table, lib).failure.Some?
      ensures ApplyUpdates(ls, fs, now, table, lib) == ApplyUpdates(ls, fs[..k], now, table, lib)
      decreases |fs| - k
    {
      if k < |fs| {
        assert fs[..k + 1][..k] == fs[..k];
        ErrorPersists(ls, fs, k + 1, now);
      } else {
        assert fs[..k] == fs;
      }
    }

    /**
      register: marks the registry initialised and appends one luminaire per
      configuration entry, on the 'dummy' gateway, with its configured light
      source count or 1.
     */
    method Register(config: seq<LuminaireConfig>, now: int)
      modifies this
      ensures initialized
      ensures luminaires == old(luminaires) + Configured(config, now)
      ensures notifications == old(notifications)
    {
      initialized := true;
      var k := 0;
      while k < |config|
        invariant 0 <= k <= |config|
        invariant initialized
        invariant luminaires == old(luminaires) + Configured(config[..k], now)
        invariant notifications == old(notifications)
      {
        assert Configured(config[..k + 1], now) == Configured(config[..k], now) + [ConfiguredLuminaire(config[k], now)];
        luminaires := luminaires + [ConfiguredLuminaire(config[k], now)];
        k := k + 1;
      }
      assert config[..k] == config;
    }
  }

  /** The luminaire register creates for one configuration entry. */
  function ConfiguredLuminaire(c: LuminaireConfig, now: int): (l: Luminaire)
    ensures l.id == c.id && l.gateway == "dummy"
    ensures |l.lightSources| == if c.numLightSources.GetOr(0) == 0 then 1 else c.numLightSources.value
    ensures forall k :: 0 <= k < |l.lightSources| ==> l.lightSources[k] == LightSource(White, White, White)
    ensures l.newColors == [] && l.newEffects == [] && l.brightness == None
  {
    var n := if c.numLightSources.GetOr(0) == 0 then 1 else c.numLightSources.value;
    CreateLuminaire(c.id, "dummy", n, None, now)
  }

  function Configured(config: seq<LuminaireConfig>, now: int): (ls: seq<Luminaire>)
    ensures |ls| == |config|
    ensures Ids(ls) == seq(|config|, k requires 0 <= k < |config| => config[k].id)
  {
    seq(|config|, k requires 0 <= k < |config| => ConfiguredLuminaire(config[k], now))
  }
}
