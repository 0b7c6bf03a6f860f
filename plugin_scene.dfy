/**
  The older scene module of src/plugins/scene.ts. It works like the scene
  module of src/core but scales each colour's value by the target's
  brightness alone, passes a non-group target's id on without checking it
  (updateLuminaires drops an id no luminaire has), and expands groups of the
  older group store, whose members are ids or registered luminaires.
 */
module PluginScenes {
  import opened Base
  import opened Colors
  import opened Effects
  import opened Luminaires
  import opened GroupsAndScenes
  import opened PluginGroups

  /** `target.brightness === undefined ? 1 : target.brightness` */
  function TargetBrightness(t: SceneTarget): real {
    t.brightness.GetOr(1.0)
  }

  /**
    A target's colours: its own or else the scene's, each converted to HSV
    with the value multiplied by the target's brightness and h and s kept.
   */
  function PluginTargetColors(lib: ColorLib, scene: Scene, t: SceneTarget): (r: seq<Color>)
    ensures |r| == |t.colors.GetOr(scene.colors)|
    ensures forall k :: 0 <= k < |r| ==>
              var c := HsvOf(lib, t.colors.GetOr(scene.colors)[k]);
              r[k].Hsv? && r[k].h == c.h && r[k].s == c.s && r[k].v == Times(c.v, TargetBrightness(t))
  {
    var source := t.colors.GetOr(scene.colors);
    seq(|source|, k requires 0 <= k < |source| =>
      var c := HsvOf(lib, source[k]);
      Hsv(c.h, c.s, Times(c.v, TargetBrightness(t))))
  }

  /**
    Without a brightness a target sends the HSV conversions unscaled, and a
    brightness in [0, 1] keeps every non-negative value in [0, v].
   */
  lemma PluginScaling(lib: ColorLib, scene: Scene, t: SceneTarget, k: nat)
    requires k < |t.colors.GetOr(scene.colors)|
    ensures t.brightness.None? ==> PluginTargetColors(lib, scene, t)[k] == HsvOf(lib, t.colors.GetOr(scene.colors)[k])
    ensures var c := HsvOf(lib, t.colors.GetOr(scene.colors)[k]);
            var b := TargetBrightness(t);
            0.0 <= c.v && 0.0 <= b <= 1.0 ==> 0.0 <= PluginTargetColors(lib, scene, t)[k].v <= c.v
  {
    var c := HsvOf(lib, t.colors.GetOr(scene.colors)[k]);
    var b := TargetBrightness(t);
    assert Times(c.v, 1.0) == c.v;
    if 0.0 <= c.v && 0.0 <= b <= 1.0 {
      ScaleWithinValue(c.v, b);
    }
  }

  /** The fields object built for a target: its id, colours and effects, no transition time. */
  function PluginTargetFields(lib: ColorLib, scene: Scene, t: SceneTarget): (f: UpdateFields)
    ensures f.id == t.id && f.transitionTime.None?
    ensures f.colors == Some(PluginTargetColors(lib, scene, t))
    ensures f.effects == Some(t.effects.GetOr(scene.effects))
  {
    UpdateFields(t.id, Some(PluginTargetColors(lib, scene, t)), Some(t.effects.GetOr(scene.effects)), None)
  }

  /**
    The entries one target contributes, as written: for a group, one per
    member with the member as id. A registered member is a luminaire object,
    and an object never equals a luminaire id, so updateLuminaires drops its
    entry; only the members still pending reach a luminaire.
   */
  function TargetEntriesAsWritten(groups: seq<SlotGroup>, lib: ColorLib, scene: Scene, t: SceneTarget)
    : (r: seq<UpdateFields>)
    ensures !GroupExists(groups, t.id) ==> r == [PluginTargetFields(lib, scene, t)]
    ensures GroupExists(groups, t.id) ==>
              forall f :: f in r ==> Pending(f.id) in GetGroup(groups, t.id).value.luminaires
  {
    if GroupExists(groups, t.id) then PendingFanOut(PluginTargetFields(lib, scene, t), GetGroup(groups, t.id).value.luminaires)
    else [PluginTargetFields(lib, scene, t)]
  }

  /** The fan-out over the pending members only, in member order. */
  function PendingFanOut(f: UpdateFields, slots: seq<Slot>): (r: seq<UpdateFields>)
    ensures forall g :: g in r ==> g == f.(id := g.id) && Pending(g.id) in slots
    ensures (forall k :: 0 <= k < |slots| ==> slots[k].Joined?) ==> r == []
    decreases |slots|
  {
    if slots == [] then []
    else
      var init := PendingFanOut(f, slots[..|slots| - 1]);
      var last := slots[|slots| - 1];
      assert forall s :: s in slots[..|slots| - 1] ==> s in slots;
      if last.Pending? then init + [f.(id := last.id)] else init
  }

  /**
    The entries one target contributes, as intended: for a group, one per
    member, identical to the target's fields except for the member's id
    (the luminaire's own id once it has registered); otherwise the target's
    fields under its own, unchecked, id.
   */
  function TargetEntries(groups: seq<SlotGroup>, lib: ColorLib, scene: Scene, t: SceneTarget)
    : (r: seq<UpdateFields>)
    ensures !GroupExists(groups, t.id) ==> r == [PluginTargetFields(lib, scene, t)]
    ensures GroupExists(groups, t.id) ==>
              var members := GetGroup(groups, t.id).value.luminaires;
              |r| == |members|
              && forall k :: 0 <= k < |members| ==> r[k] == PluginTargetFields(lib, scene, t).(id := SlotId(members[k]))
  {
    if GroupExists(groups, t.id) then
      var members := GetGroup(groups, t.id).value.luminaires;
      var f := PluginTargetFields(lib, scene, t);
      seq(|members|, k requires 0 <= k < |members| => f.(id := SlotId(members[k])))
    else [PluginTargetFields(lib, scene, t)]
  }

  /** `flatten(targets.map(...))` with the intended entries. */
  function SceneEntries(groups: seq<SlotGroup>, lib: ColorLib, scene: Scene, targets: seq<SceneTarget>)
    : seq<UpdateFields>
  {
    FlatMap((t: SceneTarget) => TargetEntries(groups, lib, scene, t), targets)
  }

  /** `flatten(targets.map(...))` as written. */
  function SceneEntriesAsWritten(groups: seq<SlotGroup>, lib: ColorLib, scene: Scene, targets: seq<SceneTarget>)
    : seq<UpdateFields>
  {
    FlatMap((t: SceneTarget) => TargetEntriesAsWritten(groups, lib, scene, t), targets)
  }

  /**
    A scene whose one target is a group of one registered luminaire: as
    written no entry carrying a luminaire id is produced, so that luminaire
    is not updated even though it is registered; as intended it gets one.
   */
  lemma RegisteredMemberDropped(l: Luminaire, lib: ColorLib, scene: Scene, t: SceneTarget)
    ensures var groups := [SlotGroup(t.id, [Joined(l)])];
            var s := scene.(targets := [t]);
            SceneEntriesAsWritten(groups, lib, s, s.targets) == []
            && SceneEntries(groups, lib, s, s.targets) == [PluginTargetFields(lib, s, t).(id := l.id)]
            && KeptFields([l], SceneEntries(groups, lib, s, s.targets)) == SceneEntries(groups, lib, s, s.targets)
  {
    var groups := [SlotGroup(t.id, [Joined(l)])];
    var s := scene.(targets := [t]);
    assert GroupExists(groups, t.id);
    assert s.targets[..0] == [];
    FlatMapSingleton((u: SceneTarget) => TargetEntriesAsWritten(groups, lib, s, u), t);
    FlatMapSingleton((u: SceneTarget) => TargetEntries(groups, lib, s, u), t);
    var members := [Joined(l)];
    assert PendingFanOut(PluginTargetFields(lib, s, t), members[..0]) == [];
    assert Ids([l]) == [l.id];
  }

  /**
    Every intended entry is a target's fields under the target's id or under
    the id of one of its group's members.
   */
  lemma {:induction false} EntriesComeFromTargets(groups: seq<SlotGroup>, lib: ColorLib, scene: Scene,
                                                  targets: seq<SceneTarget>)
    ensures forall f :: f in SceneEntries(groups, lib, scene, targets) ==>
              exists t :: t in targets && f == PluginTargetFields(lib, scene, t).(id := f.id)
                          && (f.id == t.id || (GroupExists(groups, t.id)
                                               && exists s :: s in GetGroup(groups, t.id).value.luminaires && SlotId(s) == f.id))
    decreases |targets|
  {
    if targets != [] {
      var init := targets[..|targets| - 1];
      var last := targets[|targets| - 1];
      EntriesComeFromTargets(groups, lib, scene, init);
      assert forall t :: t in init ==> t in targets;
      var tail := TargetEntries(groups, lib, scene, last);
      forall f | f in tail
        ensures f == PluginTargetFields(lib, scene, last).(id := f.id)
                && (f.id == last.id || (GroupExists(groups, last.id)
                                        && exists s :: s in GetGroup(groups, last.id).value.luminaires && SlotId(s) == f.id))
      {
        if GroupExists(groups, last.id) {
          var members := GetGroup(groups, last.id).value.luminaires;
          var k :| 0 <= k < |tail| && tail[k] == f;
          assert members[k] in members && SlotId(members[k]) == f.id;
        }
      }
    }
  }

  /**
    What activating a scene does to the engine: an uninitialised registry
    throws and changes nothing; otherwise the scene's entries go to
    updateLuminaires as one batch, and the activation fails exactly when
    that batch throws.
   */
  function PluginActivation(ls: seq<Luminaire>, initialized: bool, groups: seq<SlotGroup>, scene: Scene,
                            now: int, table: EffectTable, lib: ColorLib): (a: Activation)
    ensures !initialized ==> a == Activation(Fail(NotInitialized), ls, [])
    ensures initialized ==>
              var fs := SceneEntries(groups, lib, scene, scene.targets);
              a.registry == BatchRegistry(ls, fs, now, table, lib)
              && (a.outcome.Pass? <==> BatchResult(ls, fs, now, table, lib).Ok?)
              && (a.outcome.Fail? ==> a.outcome.error == BatchResult(ls, fs, now, table, lib).error)
              && (a.outcome.Pass? ==> a.events == [Updated(BatchResult(ls, fs, now, table, lib).value)])
    ensures a.outcome.Fail? ==> a.events == []
  {
    if !initialized then Activation(Fail(NotInitialized), ls, [])
    else
      var fs := SceneEntries(groups, lib, scene, scene.targets);
      var reg := BatchRegistry(ls, fs, now, table, lib);
      match BatchResult(ls, fs, now, table, lib)
      case Err(e) => Activation(Fail(e), reg, [])
      case Ok(v) => Activation(Pass, reg, [Updated(v)])
  }

  class PluginSceneManager {
    var scenes: seq<Scene>
    var activeScene: Option<Scene>

    constructor()
      ensures scenes == [] && activeScene == None
    {
      scenes := [];
      activeScene := None;
    }

    /** resetActiveScene */
    method ResetActiveScene()
      modifies this
      ensures activeScene == None && scenes == old(scenes)
    {
      activeScene := None;
    }

    /**
      activateScene: an unknown scene id throws; a known one becomes the
      active scene and its entries go to updateLuminaires in one batch.
     */
    method ActivateScene(id: string, groups: PluginGroupRegistry, reg: LuminaireRegistry, now: int) returns (r: Outcome)
      modifies this, reg
      ensures scenes == old(scenes) && reg.initialized == old(reg.initialized)
      ensures FindScene(scenes, id).None? ==>
                r == Fail(NotFound(SceneKind, id)) && activeScene == old(activeScene)
                && reg.luminaires == old(reg.luminaires) && reg.notifications == old(reg.notifications)
      ensures FindScene(scenes, id).Some? ==> activeScene == FindScene(scenes, id)
      ensures FindScene(scenes, id).Some? && !old(reg.initialized) ==>
                r == Fail(NotInitialized) && reg.luminaires == old(reg.luminaires)
      ensures FindScene(scenes, id).Some? && old(reg.initialized) ==>
                var scene := FindScene(scenes, id).value;
                var fs := SceneEntries(groups.groups, reg.lib, scene, scene.targets);
                reg.luminaires == BatchRegistry(old(reg.luminaires), fs, now, reg.table, reg.lib)
                && (r.Pass? <==> BatchResult(old(reg.luminaires), fs, now, reg.table, reg.lib).Ok?)
      ensures FindScene(scenes, id).Some? ==>
                var a := PluginActivation(old(reg.luminaires), old(reg.initialized), groups.groups,
                                          FindScene(scenes, id).value, now, reg.table, reg.lib);
                r == a.outcome && reg.luminaires == a.registry && reg.notifications == old(reg.notifications) + a.events
    {
      var found := FindScene(scenes, id);
      if found.None? {
        return Fail(NotFound(SceneKind, id));
      }
      var scene := found.value;
      activeScene := Some(scene);
      var fieldsList := SceneEntries(groups.groups, reg.lib, scene, scene.targets);
      var u := reg.UpdateLuminaires(fieldsList, now);
      r := if u.Ok? then Pass else Fail(u.error);
    }

    /**
      cycleScenes: activates the scene after the active one in `names`, or
      the first; an empty list names no scene, which throws.
     */
    method CycleScenes(names: seq<string>, groups: PluginGroupRegistry, reg: LuminaireRegistry, now: int)
      returns (r: Outcome)
      modifies this, reg
      ensures scenes == old(scenes) && reg.initialized == old(reg.initialized)
      ensures |names| == 0 ==>
                r == Fail(NotFound(SceneKind, "undefined")) && activeScene == old(activeScene)
                && reg.luminaires == old(reg.luminaires) && reg.notifications == old(reg.notifications)
      ensures |names| > 0 ==>
                var next := NextSceneId(names, old(activeScene)).value;
                (FindScene(scenes, next).None? ==> r == Fail(NotFound(SceneKind, next)) && activeScene == old(activeScene))
                && (FindScene(scenes, next).Some? ==>
                      activeScene == FindScene(scenes, next)
                      && var a := PluginActivation(old(reg.luminaires), old(reg.initialized), groups.groups,
                                                   FindScene(scenes, next).value, now, reg.table, reg.lib);
                         r == a.outcome && reg.luminaires == a.registry
                         && reg.notifications == old(reg.notifications) + a.events)
      ensures |names| > 0 && FindScene(scenes, NextSceneId(names, old(activeScene)).value).None? ==>
                reg.luminaires == old(reg.luminaires) && reg.notifications == old(reg.notifications)
    {
      var next := NextSceneId(names, activeScene);
      if next.None? {
        return Fail(NotFound(SceneKind, "undefined"));
      }
      r := ActivateScene(next.value, groups, reg, now);
    }

    /** register: stores the scenes and activates the first one, if any. */
    method Register(options: seq<Scene>, groups: PluginGroupRegistry, reg: LuminaireRegistry, now: int)
      returns (r: Outcome)
      modifies this, reg
      ensures scenes == options && reg.initialized == old(reg.initialized)
      ensures |options| == 0 ==>
                r == Pass && activeScene == old(activeScene) && reg.luminaires == old(reg.luminaires)
                && reg.notifications == old(reg.notifications)
      ensures |options| > 0 ==> activeScene == Some(FindScene(options, options[0].id).value)
      ensures |options| > 0 ==>
                var a := PluginActivation(old(reg.luminaires), old(reg.initialized), groups.groups,
                                          FindScene(options, options[0].id).value, now, reg.table, reg.lib);
                r == a.outcome && reg.luminaires == a.registry && reg.notifications == old(reg.notifications) + a.events
    {
      scenes := options;
      if |options| == 0 {
        return Pass;
      }
      assert options[0].id in SceneIds(options);
      r := ActivateScene(options[0].id, groups, reg, now);
    }
  }
}
