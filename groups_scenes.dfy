/**
  Groups and scenes of src/core/group.ts and src/core/scene.ts (the two
  files import each other, so they share one module here).

  A group names a list of luminaire ids. An update addressed to an id goes to
  the luminaire of that id if there is one, otherwise to every member of the
  group of that id. A scene is a set of targets (luminaires or groups) with
  default colours and effects that each target may override; activating it
  sends one update per luminaire it reaches, with each colour's value channel
  scaled by the target's brightness. A direct update clears the record of
  which scene is active.
 */
module GroupsAndScenes {
  import opened Base
  import opened Colors
  import opened Effects
  import opened Luminaires

  datatype Group = Group(id: string, luminaires: seq<string>)

  datatype SceneTarget = SceneTarget(
    id: string,
    brightness: Option<real>,
    effects: Option<seq<Effect>>,
    colors: Option<seq<Color>>)

  datatype Scene = Scene(id: string, effects: seq<Effect>, colors: seq<Color>, targets: seq<SceneTarget>)

  /** The outcome of activating a scene, the registry list it leaves, and the events it emits. */
  datatype Activation = Activation(outcome: Outcome, registry: seq<Luminaire>, events: seq<Notification>)

  /** The configured groups added in order: a later group replaces an earlier one of the same id. */
  function WithGroups(m: map<string, Group>, config: seq<Group>): map<string, Group>
    decreases |config|
  {
    if config == [] then m
    else WithGroups(m, config[..|config| - 1])[config[|config| - 1].id := config[|config| - 1]]
  }

  /** The group stored under a configured id is the last configured group of that id. */
  lemma {:induction false} LastGroupWins(m: map<string, Group>, config: seq<Group>, k: nat)
    requires k < |config|
    requires forall j :: k < j < |config| ==> config[j].id != config[k].id
    ensures config[k].id in WithGroups(m, config) && WithGroups(m, config)[config[k].id] == config[k]
    decreases |config|
  {
    if k < |config| - 1 {
      var init := config[..|config| - 1];
      assert init[k] == config[k];
      LastGroupWins(m, init, k);
    }
  }

  /** An id no configured group has keeps its group, or its absence. */
  lemma {:induction false} UnconfiguredGroupKept(m: map<string, Group>, config: seq<Group>, id: string)
    requires forall k :: 0 <= k < |config| ==> config[k].id != id
    ensures id in WithGroups(m, config) <==> id in m
    ensures id in m ==> WithGroups(m, config)[id] == m[id]
    decreases |config|
  {
    if config != [] {
      UnconfiguredGroupKept(m, config[..|config| - 1], id);
    }
  }

  /** One update per group member, identical to `f` except for its id. */
  function FanOut(f: UpdateFields, members: seq<string>): (r: seq<UpdateFields>)
    ensures |r| == |members|
    ensures forall k :: 0 <= k < |members| ==> r[k] == f.(id := members[k])
  {
    seq(|members|, k requires 0 <= k < |members| => f.(id := members[k]))
  }

  /**
    The updates updateLuminaireOrGroup passes on: the update itself when a
    luminaire has its id, else its fan-out over the group of that id.
   */
  function Requested(ls: seq<Luminaire>, groups: map<string, Group>, f: UpdateFields): (r: seq<UpdateFields>)
    ensures f.id in Ids(ls) ==> r == [f]
    ensures f.id !in Ids(ls) && f.id in groups ==> |r| == |groups[f.id].luminaires|
    ensures f.id !in Ids(ls) && f.id in groups ==>
              forall k :: 0 <= k < |r| ==>
                (r[k].id == groups[f.id].luminaires[k]
                 && r[k].colors == f.colors && r[k].effects == f.effects && r[k].transitionTime == f.transitionTime)
  {
    if f.id in Ids(ls) then [f]
    else if f.id in groups then FanOut(f, groups[f.id].luminaires)
    else []
  }

  /** The value channel scaled by the luminaire's brightness (1 when unset) and the target's. */
  function ScaleValue(c: Color, luminaireBrightness: Option<real>, targetBrightness: real): (r: Color)
    requires c.Hsv?
    ensures r.Hsv? && r.h == c.h && r.s == c.s
  {
    Hsv(c.h, c.s, Times(Times(c.v, luminaireBrightness.GetOr(1.0)), targetBrightness))
  }

  /**
    As written, src/core/scene.ts multiplies by `luminaire.brightness`, which
    no luminaire carries; `None` stands for the NaN that results.
   */
  function ValueAsWritten(v: real, luminaireBrightness: Option<real>, targetBrightness: real): (r: Option<real>)
    ensures luminaireBrightness.None? <==> r.None?
  {
    if luminaireBrightness.None? then None
    else Some(Times(Times(v, luminaireBrightness.value), targetBrightness))
  }

  /**
    Every luminaire the registry configures has no brightness and no update
    gives it one, so as written every scene colour's value is NaN.
   */
  lemma SceneValueIsNaN(config: seq<LuminaireConfig>, now: int, fs: seq<UpdateFields>,
                        table: EffectTable, lib: ColorLib, j: nat, v: real, targetBrightness: real)
    requires j < |config|
    ensures var reg := ApplyUpdates(Configured(config, now), fs, now, table, lib).registry;
            ValueAsWritten(v, reg[j].brightness, targetBrightness).None?
  {
    BatchKeepsBrightness(Configured(config, now), fs, now, table, lib, j);
  }

  /**
    With brightness unset (taken as 1) the value is scaled by the target's
    brightness alone, so a target brightness in [0, 1] keeps it in [0, v];
    a configured brightness of 0.5 and a target brightness of 0.8 take 100 to 40.
   */
  lemma ScaleValueBounds(c: Color, targetBrightness: real)
    requires c.Hsv? && 0.0 <= c.v && 0.0 <= targetBrightness <= 1.0
    ensures 0.0 <= ScaleValue(c, None, targetBrightness).v <= c.v
    ensures ScaleValue(c, None, 1.0) == c
    ensures ScaleValue(Hsv(c.h, c.s, 100.0), Some(0.5), 0.8).v == 40.0
  {
    var v := c.v;
    assert Times(v, 1.0) == v;
    ScaleWithinValue(v, targetBrightness);
    assert Times(100.0, 0.5) == 50.0;
  }

  /** The colours a scene target sends: its own or the scene's, converted to HSV, value scaled. */
  function TargetColors(lib: ColorLib, luminaireBrightness: Option<real>, scene: Scene, target: SceneTarget)
    : (r: seq<Color>)
    ensures |r| == |target.colors.GetOr(scene.colors)|
    ensures forall k :: 0 <= k < |r| ==>
              (var c := HsvOf(lib, target.colors.GetOr(scene.colors)[k]);
               r[k].Hsv? && r[k].h == c.h && r[k].s == c.s
               && r[k] == ScaleValue(c, luminaireBrightness, target.brightness.GetOr(1.0)))
  {
    var source := target.colors.GetOr(scene.colors);
    seq(|source|, k requires 0 <= k < |source| =>
      ScaleValue(HsvOf(lib, source[k]), luminaireBrightness, target.brightness.GetOr(1.0)))
  }

  /**
    getLuminaireFields: getLuminaire throws for an unknown id (and when its
    recalculation throws); otherwise the update carries the target's colours
    and effects, or the scene's, and no transition time.
   */
  function LuminaireFields(ls: seq<Luminaire>, luminaireId: string, scene: Scene, target: SceneTarget,
                           now: int, table: EffectTable, lib: ColorLib): (r: Result<UpdateFields>)
    ensures FindLuminaireIndex(ls, luminaireId) < 0 ==> r == Err(NotFound(LuminaireKind, luminaireId))
    ensures r.Ok? ==> r.value.id == luminaireId && luminaireId in Ids(ls) && r.value.transitionTime.None?
    ensures r.Ok? ==> r.value.effects == Some(target.effects.GetOr(scene.effects))
    ensures r.Ok? ==>
              r.value.colors == Some(TargetColors(lib, ls[FindLuminaireIndex(ls, luminaireId)].brightness, scene, target))
    ensures var i := FindLuminaireIndex(ls, luminaireId);
            i >= 0 ==> (r.Err? <==> Refresh(ls, i, now, table, lib).Err?)
                       && (r.Err? ==> r.error == Refresh(ls, i, now, table, lib).error)
  {
    var i := FindLuminaireIndex(ls, luminaireId);
    if i < 0 then Err(NotFound(LuminaireKind, luminaireId))
    else if Refresh(ls, i, now, table, lib).Err? then Err(Refresh(ls, i, now, table, lib).error)
    else
      Ok(UpdateFields(ls[i].id, Some(TargetColors(lib, ls[i].brightness, scene, target)),
                      Some(target.effects.GetOr(scene.effects)), None))
  }

  /** The luminaire ids one target reaches: the group's members when a group has its id, else the id itself. */
  function TargetEntries(groups: map<string, Group>, t: SceneTarget): (r: seq<(string, SceneTarget)>)
    ensures t.id in groups ==> |r| == |groups[t.id].luminaires|
    ensures t.id in groups ==> forall k :: 0 <= k < |r| ==> r[k] == (groups[t.id].luminaires[k], t)
    ensures t.id !in groups ==> r == [(t.id, t)]
  {
    if t.id in groups then
      var members := groups[t.id].luminaires;
      seq(|members|, k requires 0 <= k < |members| => (members[k], t))
    else [(t.id, t)]
  }

  /** TargetEntries as a function of the target alone. */
  function EntriesOf(groups: map<string, Group>): SceneTarget -> seq<(string, SceneTarget)> {
    t => TargetEntries(groups, t)
  }

  /**
    Every pair of a flattened expansion comes from one of its targets, and
    every non-group target and every member of every group target is reached.
   */
  lemma {:induction false} FlattenedMembers(groups: map<string, Group>, targets: seq<SceneTarget>)
    ensures var r := FlatMap(EntriesOf(groups), targets);
            (forall e :: e in r ==> e.1 in targets)
            && (forall t :: t in targets && t.id !in groups ==> (t.id, t) in r)
            && (forall t, m :: t in targets && t.id in groups && m in groups[t.id].luminaires ==> (m, t) in r)
    decreases |targets|
  {
    if targets != [] {
      var init := targets[..|targets| - 1];
      var last := targets[|targets| - 1];
      FlattenedMembers(groups, init);
      var entries := TargetEntries(groups, last);
      assert FlatMap(EntriesOf(groups), targets) == FlatMap(EntriesOf(groups), init) + entries;
      assert forall t :: t in targets ==> t in init || t == last;
      assert forall t :: t in init ==> t in targets;
      forall m | last.id in groups && m in groups[last.id].luminaires
        ensures (m, last) in entries
      {
        var k :| 0 <= k < |groups[last.id].luminaires| && groups[last.id].luminaires[k] == m;
        assert entries[k] == (m, last);
      }
    }
  }

  /** The scene's targets flattened into (luminaire id, target) pairs, in order. */
  function Expand(groups: map<string, Group>, targets: seq<SceneTarget>): (r: seq<(string, SceneTarget)>)
    ensures forall e :: e in r ==> e.1 in targets
    ensures forall t :: t in targets && t.id !in groups ==> (t.id, t) in r
    ensures forall t, m :: t in targets && t.id in groups && m in groups[t.id].luminaires ==> (m, t) in r
  {
    FlattenedMembers(groups, targets);
    FlatMap(EntriesOf(groups), targets)
  }

  /**
    Expansion keeps the targets' order and multiplicity: the targets a + b
    expand to a's entries followed by b's, and one target to its own entries.
   */
  lemma ExpandAppend(groups: map<string, Group>, a: seq<SceneTarget>, b: seq<SceneTarget>)
    ensures Expand(groups, a + b) == Expand(groups, a) + Expand(groups, b)
    ensures forall t :: Expand(groups, [t]) == TargetEntries(groups, t)
  {
    FlatMapAppend(EntriesOf(groups), a, b);
    forall t: SceneTarget
      ensures Expand(groups, [t]) == TargetEntries(groups, t)
    {
      FlatMapSingleton(EntriesOf(groups), t);
    }
  }

  /**
    The updates activateScene sends for a scene: the fields of every
    (luminaire id, target) pair in order; the first luminaire that cannot be
    fetched makes the whole activation throw.
   */
  function SceneFields(ls: seq<Luminaire>, groups: map<string, Group>, scene: Scene,
                       now: int, table: EffectTable, lib: ColorLib): Result<seq<UpdateFields>>
  {
    MapAll((e: (string, SceneTarget)) => LuminaireFields(ls, e.0, scene, e.1, now, table, lib),
              Expand(groups, scene.targets))
  }

  /** Every update of a scene names a registered luminaire and carries no transition time. */
  lemma SceneFieldsShape(ls: seq<Luminaire>, groups: map<string, Group>, scene: Scene,
                         now: int, table: EffectTable, lib: ColorLib)
    requires SceneFields(ls, groups, scene, now, table, lib).Ok?
    ensures var fs := SceneFields(ls, groups, scene, now, table, lib).value;
            forall f :: f in fs ==> f.id in Ids(ls) && f.transitionTime.None?
  {
    var entries := Expand(groups, scene.targets);
    var fs := SceneFields(ls, groups, scene, now, table, lib).value;
    forall f | f in fs
      ensures f.id in Ids(ls) && f.transitionTime.None?
    {
      var k :| 0 <= k < |fs| && fs[k] == f;
      var lf := LuminaireFields(ls, entries[k].0, scene, entries[k].1, now, table, lib);
      assert lf.Ok? && fs[k] == lf.value;
    }
  }

  /**
    A scene's updates never carry a transition time, so once they are
    applied every luminaire they name is on the 500 ms default transition.
   */
  lemma SceneUsesDefaultTransition(ls: seq<Luminaire>, groups: map<string, Group>, scene: Scene,
                                   now: int, table: EffectTable, lib: ColorLib)
    requires SceneFields(ls, groups, scene, now, table, lib).Ok?
    requires BatchResult(ls, SceneFields(ls, groups, scene, now, table, lib).value, now, table, lib).Ok?
    ensures var fs := SceneFields(ls, groups, scene, now, table, lib).value;
            var reg := BatchRegistry(ls, fs, now, table, lib);
            forall f :: f in fs ==> reg[FindLuminaireIndex(ls, f.id)].transitionTime == 500
  {
    var fs := SceneFields(ls, groups, scene, now, table, lib).value;
    SceneFieldsShape(ls, groups, scene, now, table, lib);
    KeptAll(ls, fs);
    BatchDefaultsTransition(ls, fs, now, table, lib);
  }

  /**
    What activating a found scene does to the registry: its updates, when
    every luminaire could be fetched, go to updateLuminaires in one batch.
   */
  function SceneActivation(ls: seq<Luminaire>, initialized: bool, groups: map<string, Group>, scene: Scene,
                           now: int, table: EffectTable, lib: ColorLib): (a: Activation)
    ensures SceneFields(ls, groups, scene, now, table, lib).Err? ==> a.registry == ls && a.outcome.Fail?
    ensures !initialized ==> a.registry == ls && a.outcome.Fail?
    ensures a.outcome.Pass? ==> initialized && SceneFields(ls, groups, scene, now, table, lib).Ok?
    ensures var sf := SceneFields(ls, groups, scene, now, table, lib);
            (sf.Err? ==> a.outcome == Fail(sf.error))
            && (sf.Ok? && !initialized ==> a.outcome == Fail(NotInitialized))
    ensures var sf := SceneFields(ls, groups, scene, now, table, lib);
            sf.Ok? && initialized ==>
              a.registry == BatchRegistry(ls, sf.value, now, table, lib)
              && (a.outcome.Pass? <==> BatchResult(ls, sf.value, now, table, lib).Ok?)
              && (a.outcome.Fail? ==> a.outcome.error == BatchResult(ls, sf.value, now, table, lib).error)
              && (a.outcome.Pass? ==> a.events == [Updated(BatchResult(ls, sf.value, now, table, lib).value)])
    ensures a.outcome.Fail? ==> a.events == []
  {
    match SceneFields(ls, groups, scene, now, table, lib)
    case Err(e) => Activation(Fail(e), ls, [])
    case Ok(fs) =>
      if !initialized then Activation(Fail(NotInitialized), ls, [])
      else
        var reg := BatchRegistry(ls, fs, now, table, lib);
        match BatchResult(ls, fs, now, table, lib)
        case Err(e) => Activation(Fail(e), reg, [])
        case Ok(v) => Activation(Pass, reg, [Updated(v)])
  }

  /** The ids of a scene list, in order. */
  function SceneIds(scenes: seq<Scene>): (ids: seq<string>)
    ensures |ids| == |scenes|
    ensures forall k :: 0 <= k < |scenes| ==> ids[k] == scenes[k].id
  {
    seq(|scenes|, k requires 0 <= k < |scenes| => scenes[k].id)
  }

  /** `scenes.find(scene => scene.id === id)` */
  function FindScene(scenes: seq<Scene>, id: string): (r: Option<Scene>)
    ensures r.None? <==> id !in SceneIds(scenes)
    ensures r.Some? ==> r.value.id == id && r.value in scenes
    ensures r.Some? ==> r.value == scenes[IndexOf(SceneIds(scenes), id)]
  {
    var k := IndexOf(SceneIds(scenes), id);
    if k < 0 then None else Some(scenes[k])
  }

  /**
    The scene cycleScenes activates: the entry after the first occurrence of
    the active scene's id, wrapping around, or the first entry when the
    active scene is not listed; nothing for an empty list.
   */
  function NextSceneId(names: seq<string>, active: Option<Scene>): (r: Option<string>)
    ensures r.None? <==> |names| == 0
    ensures |names| > 0 && (active.None? || active.value.id !in names) ==> r == Some(names[0])
    ensures r.Some? ==> r.value in names
  {
    if |names| == 0 then None
    else
      var current := if active.Some? && active.value.id in names then IndexOf(names, active.value.id) else -1;
      Some(names[(current + 1) % |names|])
  }

  /** In a list without repeats, each entry is found at its own position. */
  lemma IndexOfDistinct(names: seq<string>, j: nat)
    requires j < |names|
    requires forall a, b :: 0 <= a < b < |names| ==> names[a] != names[b]
    ensures IndexOf(names, names[j]) == j
  {
  }

  /**
    The two facts about `%` that the scene cycle needs, kept as separate
    lemmas so that CycleWraps' own proof does not search modular arithmetic.
   */
  lemma SmallMod(a: int, n: int)
    requires 0 <= a < n
    ensures a % n == a
  {
  }

  lemma SelfMod(n: int)
    requires 0 < n
    ensures n % n == 0
  {
  }

  /**
    In a list without repeats the scene after the one at position j is the
    one at j + 1, and after the last entry comes the first.
   */
  lemma CycleWraps(names: seq<string>, j: nat, active: Scene)
    requires j < |names|
    requires forall a, b :: 0 <= a < b < |names| ==> names[a] != names[b]
    requires active.id == names[j]
    ensures j + 1 < |names| ==> NextSceneId(names, Some(active)) == Some(names[j + 1])
    ensures j + 1 == |names| ==> NextSceneId(names, Some(active)) == Some(names[0])
  {
    IndexOfDistinct(names, j);
    assert names[j] in names;
    if j + 1 < |names| {
      SmallMod(j + 1, |names|);
    } else {
      SelfMod(|names|);
    }
  }

  /** Scenes reached from the first entry by k cycles. */
  function CycleFromFirst(names: seq<string>, scenes: seq<Scene>, k: nat): Option<string>
    requires |names| > 0
  {
    if k == 0 then Some(names[0])
    else
      match CycleFromFirst(names, scenes, k - 1)
      case None => None
      case Some(id) =>
        match FindScene(scenes, id)
        case None => None
        case Some(s) => NextSceneId(names, Some(s))
  }

  /**
    When every listed name is a scene and the list has no repeats, k cycles
    from the first entry reach the entry at position k, and n cycles come
    back to the first.
   */
  lemma {:induction false} CycleVisitsAll(names: seq<string>, scenes: seq<Scene>, k: nat)
    requires 0 < k <= |names|
    requires forall a, b :: 0 <= a < b < |names| ==> names[a] != names[b]
    requires forall n :: n in names ==> n in SceneIds(scenes)
    ensures k < |names| ==> CycleFromFirst(names, scenes, k) == Some(names[k])
    ensures k == |names| ==> CycleFromFirst(names, scenes, k) == Some(names[0])
  {
    if k > 1 {
      CycleVisitsAll(names, scenes, k - 1);
    }
    assert CycleFromFirst(names, scenes, k - 1) == Some(names[k - 1]);
    assert names[k - 1] in names;
    var s := FindScene(scenes, names[k - 1]);
    CycleWraps(names, k - 1, s.value);
  }

  class GroupRegistry {
    var groups: map<string, Group>

    constructor()
      ensures groups == map[]
    {
      groups := map[];
    }

    /** getGroup: the stored group, or an error for an unknown id. */
    function GetGroup(id: string): (r: Result<Group>)
      reads this
      ensures r.Ok? <==> id in groups
      ensures r.Ok? ==> r.value == groups[id]
      ensures r.Err? ==> r.error == NotFound(GroupKind, id)
    {
      if id in groups then Ok(groups[id]) else Err(NotFound(GroupKind, id))
    }

    /** groupExists: exactly the ids getGroup does not throw for. */
    function GroupExists(id: string): (b: bool)
      reads this
      ensures b <==> GetGroup(id).Ok?
    {
      id in groups
    }

    /** addGroup: stores the group under its id, replacing any group of that id. */
    method AddGroup(g: Group)
      modifies this
      ensures groups == old(groups)[g.id := g]
    {
      groups := groups[g.id := g];
    }

    /**
      register: adds the configured groups in order, then a group 'All' of
      the luminaire ids registered at this moment (replacing a configured
      'All'); later registrations do not change it.
     */
    method Register(config: seq<Group>, reg: LuminaireRegistry)
      modifies this
      ensures groups == WithGroups(old(groups), config)["All" := Group("All", Ids(reg.luminaires))]
      ensures groups["All"].luminaires == reg.IdList()
    {
      var k := 0;
      while k < |config|
        invariant 0 <= k <= |config|
        invariant groups == WithGroups(old(groups), config[..k])
      {
        assert config[..k + 1][..k] == config[..k];
        AddGroup(config[k]);
        k := k + 1;
      }
      assert config[..k] == config;
      AddGroup(Group("All", reg.IdList()));
    }

    /**
      updateLuminaireOrGroup: a luminaire id is updated on its own; otherwise
      a group id updates all its members; either way the active scene is
      cleared first. An id that is neither throws.
     */
    method UpdateLuminaireOrGroup(f: UpdateFields, reg: LuminaireRegistry, scenes: SceneManager, now: int)
      returns (r: Result<seq<Luminaire>>)
      modifies reg, scenes
      ensures scenes.scenes == old(scenes.scenes) && reg.initialized == old(reg.initialized)
      ensures f.id !in Ids(old(reg.luminaires)) && f.id !in groups ==>
                r == Err(NotFound(LuminaireOrGroupKind, f.id)) && reg.luminaires == old(reg.luminaires)
                && reg.notifications == old(reg.notifications) && scenes.activeScene == old(scenes.activeScene)
      ensures f.id in Ids(old(reg.luminaires)) || f.id in groups ==> scenes.activeScene == None
      ensures (f.id in Ids(old(reg.luminaires)) || f.id in groups) && !old(reg.initialized) ==>
                r == Err(NotInitialized) && reg.luminaires == old(reg.luminaires)
                && reg.notifications == old(reg.notifications)
      ensures (f.id in Ids(old(reg.luminaires)) || f.id in groups) && old(reg.initialized) ==>
                var fs := Requested(old(reg.luminaires), groups, f);
                reg.luminaires == BatchRegistry(old(reg.luminaires), fs, now, reg.table, reg.lib)
                && r == BatchResult(old(reg.luminaires), fs, now, reg.table, reg.lib)
      ensures r.Err? ==> reg.notifications == old(reg.notifications)
      ensures r.Ok? ==> reg.notifications == old(reg.notifications) + [Updated(r.value)]
    {
      if reg.LuminaireExists(f.id) {
        scenes.ResetActiveScene();
        r := reg.UpdateLuminaires([f], now);
      } else if GroupExists(f.id) {
        var fieldsList := FanOut(f, groups[f.id].luminaires);
        scenes.ResetActiveScene();
        r := reg.UpdateLuminaires(fieldsList, now);
      } else {
        r := Err(NotFound(LuminaireOrGroupKind, f.id));
      }
    }
  }

  /** SceneActivation once the scene's updates are computed: NotInitialized, or the batch and its event. */
  lemma ActivationOfFields(ls: seq<Luminaire>, initialized: bool, groups: map<string, Group>, scene: Scene,
                           now: int, table: EffectTable, lib: ColorLib)
    requires SceneFields(ls, groups, scene, now, table, lib).Ok?
    ensures var fs := SceneFields(ls, groups, scene, now, table, lib).value;
            var a := SceneActivation(ls, initialized, groups, scene, now, table, lib);
            a == if !initialized then Activation(Fail(NotInitialized), ls, [])
                 else match BatchResult(ls, fs, now, table, lib)
                      case Err(e) => Activation(Fail(e), BatchRegistry(ls, fs, now, table, lib), [])
                      case Ok(v) => Activation(Pass, BatchRegistry(ls, fs, now, table, lib), [Updated(v)])
  {
  }

  class SceneManager {
    var scenes: seq<Scene>
    var activeScene: Option<Scene>

    constructor()
      ensures scenes == [] && activeScene == None
    {
      scenes := [];
      activeScene := None;
    }

    /** resetActiveScene */
    method ResetActiveScene()
      modifies this
      ensures activeScene == None && scenes == old(scenes)
    {
      activeScene := None;
    }

    /**
      activateScene: an unknown scene id throws; a known one becomes the
      active scene (before its updates are computed, so it stays active if
      they throw) and its updates go to the registry in one batch.
     */
    method ActivateScene(id: string, groups: GroupRegistry, reg: LuminaireRegistry, now: int) returns (r: Outcome)
      modifies this, reg
      ensures scenes == old(scenes) && reg.initialized == old(reg.initialized)
      ensures FindScene(scenes, id).None? ==>
                r == Fail(NotFound(SceneKind, id)) && activeScene == old(activeScene)
                && reg.luminaires == old(reg.luminaires) && reg.notifications == old(reg.notifications)
      ensures FindScene(scenes, id).Some? ==>
                activeScene == FindScene(scenes, id)
                && var a := SceneActivation(old(reg.luminaires), old(reg.initialized), groups.groups,
                                            FindScene(scenes, id).value, now, reg.table, reg.lib);
                   r == a.outcome && reg.luminaires == a.registry
                   && reg.notifications == old(reg.notifications) + a.events
    {
      var found := FindScene(scenes, id);
      if found.None? {
        return Fail(NotFound(SceneKind, id));
      }
      activeScene := found;
      r := ActivateFound(found.value, groups, reg, now);
    }

    /** The part of activateScene after the scene is found: its updates go to the registry in one batch. */
    method ActivateFound(scene: Scene, groups: GroupRegistry, reg: LuminaireRegistry, now: int) returns (r: Outcome)
      modifies reg
      ensures reg.initialized == old(reg.initialized)
      ensures var a := SceneActivation(old(reg.luminaires), old(reg.initialized), groups.groups, scene, now, reg.table, reg.lib);
              r == a.outcome && reg.luminaires == a.registry && reg.notifications == old(reg.notifications) + a.events
    {
      var fields := SceneFields(reg.luminaires, groups.groups, scene, now, reg.table, reg.lib);
      if fields.Err? {
        return Fail(fields.error);
      }
      ghost var ls := reg.luminaires;
      var u := reg.UpdateLuminaires(fields.value, now);
      r := if u.Ok? then Pass else Fail(u.error);
      ActivationOfFields(ls, reg.initialized, groups.groups, scene, now, reg.table, reg.lib);
    }

    /**
      cycleScenes: activates the scene after the active one in `names`, or
      the first; an empty list names no scene, which throws.
     */
    method CycleScenes(names: seq<string>, groups: GroupRegistry, reg: LuminaireRegistry, now: int)
      returns (r: Outcome)
      modifies this, reg
      ensures scenes == old(scenes) && reg.initialized == old(reg.initialized)
      ensures |names| == 0 ==>
                r == Fail(NotFound(SceneKind, "undefined")) && activeScene == old(activeScene)
                && reg.luminaires == old(reg.luminaires) && reg.notifications == old(reg.notifications)
      ensures |names| > 0 ==>
                var next := NextSceneId(names, old(activeScene)).value;
                (FindScene(scenes, next).None? ==>
                   r == Fail(NotFound(SceneKind, next)) && activeScene == old(activeScene)
                   && reg.luminaires == old(reg.luminaires) && reg.notifications == old(reg.notifications))
                && (FindScene(scenes, next).Some? ==>
                      activeScene == FindScene(scenes, next)
                      && var a := SceneActivation(old(reg.luminaires), old(reg.initialized), groups.groups,
                                                  FindScene(scenes, next).value, now, reg.table, reg.lib);
                         r == a.outcome && reg.luminaires == a.registry
                         && reg.notifications == old(reg.notifications) + a.events)
    {
      var next := NextSceneId(names, activeScene);
      if next.None? {
        return Fail(NotFound(SceneKind, "undefined"));
      }
      r := ActivateScene(next.value, groups, reg, now);
    }

    /** register: stores the scenes and activates the first one, if any. */
    method Register(options: seq<Scene>, groups: GroupRegistry, reg: LuminaireRegistry, now: int)
      returns (r: Outcome)
      modifies this, reg
      ensures scenes == options && reg.initialized == old(reg.initialized)
      ensures |options| == 0 ==>
                r == Pass && activeScene == old(activeScene) && reg.luminaires == old(reg.luminaires)
                && reg.notifications == old(reg.notifications)
      ensures |options| > 0 ==> activeScene == Some(FindScene(options, options[0].id).value)
      ensures |options| > 0 ==>
                var a := SceneActivation(old(reg.luminaires), old(reg.initialized), groups.groups,
                                         FindScene(options, options[0].id).value, now, reg.table, reg.lib);
                r == a.outcome && reg.luminaires == a.registry && reg.notifications == old(reg.notifications) + a.events
    {
      scenes := options;
      if |options| == 0 {
        return Pass;
      }
      assert options[0].id in SceneIds(options);
      r := ActivateScene(options[0].id, groups, reg, now);
    }
  }
}
