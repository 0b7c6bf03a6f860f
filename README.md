# lightctl-koa core, modelled in Dafny

lightctl-koa is a home-lighting controller. Every luminaire (a lamp or an LED
strip) has a declarative target: a list of colours plus a chain of effects.
The controller's core turns that target into one colour per LED:

- it runs the effect chain over the colours;
- it resamples the result to the luminaire's number of light sources;
- it crossfades from the previous target over a transition time.

Around the core sit the rest of the system:

- groups, which name sets of luminaires;
- scenes, which set many luminaires at once;
- an older registry, group store and scene module;
- reference effects (resize, mirror, avg, colorcycle, huecycle, test,
  calibrate, brightness);
- the encoders and decision rules of two gateways: the Philips Hue bridge
  and the lightctl-udp LED protocol.

The model is organised by source file:

- `base.dfy` (module Base): errors, results, JavaScript `Math.floor`/`ceil`/`round`/`%`, clamping, generic maps over lists
- `colors.dfy` (module Colors): colour values; the colour-conversion libraries as uninterpreted functions
- `utils.dfy` (module Utils): src/utils.ts
- `effect.dfy` (module Effects): src/core/effect.ts
- `luminaire.dfy` (module Luminaires): src/core/luminaire.ts
- `groups_scenes.dfy` (module GroupsAndScenes): src/core/group.ts and src/core/scene.ts (they import each other)
- `plugin_lightsource.dfy` (module PluginLightSources): src/plugins/core/lightsource.ts
- `plugin_luminaire.dfy` (module PluginLuminaires): src/plugins/core/luminaire.ts
- `plugin_group.dfy` (module PluginGroups): src/plugins/group.ts
- `plugin_scene.dfy` (module PluginScenes): src/plugins/scene.ts
- `reference_effects.dfy` (module ReferenceEffects): src/plugins/effects/{resize,mirror,avg,colorcycle,huecycle,test,calibrate}.ts
- `brightness.dfy` (module BrightnessEffect): src/plugins/effects/brightness.ts
- `hue.dfy` (module HueGateway): the decision rules and encoders of src/plugins/gateway/hue.ts
- `udp.dfy` (module UdpGateway): src/plugins/gateway/lightctl-udp.ts

Modelling choices:

- **Objects with mutable state become classes.** This covers the module-level
  state that the source updates in place:
  - the luminaire registry;
  - the group dictionary;
  - the active-scene marker;
  - the brightness offset;
  - the Hue bridge's light list;
  - the UDP client list.

  Luminaire records, groups, scenes and colours are datatype values.
- **The current time is a parameter `now`** (milliseconds). The brightness
  effect takes the fractional hour of the day as a parameter.
- **Effects are looked up in a table.** The source loads an effect with a
  dynamic `require`; here an `EffectTable` maps effect ids to effect
  functions, and an id missing from the table is an error.
- **Colour conversions are uninterpreted.** The conversions of the chromatism2
  and color-convert libraries are total functions carried by a `ColorLib`
  value.
- **JavaScript numbers are `real`s and `int`s.** Rounding, flooring,
  JavaScript's truncating `%` and the Uint8 wrap-around are written out.
- **Errors are values.** A source `throw` is an `Err` / `Fail` value of the
  `Error` datatype. `Undefined` is the colour value that reading past the end
  of a list yields.
- **Emitted events are recorded.** The events the registry emits are a
  `notifications` list on the registry.

## Model

| member | source | states |
|---|---|---|
| Utils.ConvertTo | src/utils.ts:7-52 | A value whose detected space (h, then r, then c) is the target comes back itself. Otherwise the result is the library conversion of its channels, and it is always a value of the target space (RGB, CT; HSV unless returned unchanged). |
| Utils.UndetectedReadsAsWhite | src/utils.ts:8-28 | A value with no h, r or c is treated as HSV white `[0, 0, 100]`: unchanged when the target is HSV, converted from white otherwise. |
| Utils.CalculateTransitionProgress | src/utils.ts:54-67 | The progress lies in [0, 1]. It is 1 for a zero duration, 0 up to the start, 1 from start + duration on, and strictly between 0 and 1 in between. |
| Utils.TransitionValues | src/utils.ts:69-76 | Gives the old value at progress ≤ 0 and the new value at progress ≥ 1; otherwise a value between the two. |
| Utils.LerpBetween | src/utils.ts:75 | For a factor in [0, 1] the linear blend lies between its two endpoints. |
| Utils.GetColorTransition | src/utils.ts:78-101 | Gives the old colour itself at progress 0 and the new colour itself at progress 1; otherwise an HSV colour. |
| Effects.NumOption | src/plugins/effects/colorcycle.ts:15 | `options[key] \|\| default`: gives the default exactly when the key is missing, not a number or 0, and the option's own number otherwise; never 0 when the default is not 0. |
| Effects.ApplyEffectsAll | src/core/effect.ts:10-34 | An empty chain returns the colours unchanged. The fold equals an independent left-to-right reading, in which effect k receives the previous effect's output, its own options (or an empty map), position k and the chain length. |
| Effects.ErrorStops | src/core/effect.ts:16-33 | Once an effect has thrown, running further effects leaves that error as the result. |
| Effects.FoldIsReduce | src/core/effect.ts:16-33 | Continuing left to right from the fold of the first k effects gives the fold of the whole chain; an error among the first k is the whole chain's error. |
| Effects.SingleEffect | src/core/effect.ts:17-29 | A one-effect chain calls that effect once on the base colours, as effect 0 of 1, with its options or an empty map. An id the table lacks is an error. |
| Luminaires.CreateLightSource | src/core/luminaire.ts:75-82 | Old, current and new state are the same colour: the initial state, or white when it is missing. |
| Luminaires.CreateLuminaire | src/core/luminaire.ts:95-115 | The record has the given id, gateway and number of light sources. Light source k starts at initial colour k, or white when there is none. Old and new colours are the initial list, effects are empty, the transition time is 0 and it starts at `now`. |
| Luminaires.FindLuminaireIndex | src/core/luminaire.ts:88-90 | Gives the position of the first luminaire with the id, or -1 exactly when none has it. |
| Luminaires.FindLuminaire | src/core/luminaire.ts:84-86 | Finds a luminaire exactly when the id is registered; the one found is at the first matching position. |
| Luminaires.SampleIndex | src/core/luminaire.ts:176 | The sampled index `floor(i / targetSize * len)` is a valid index of a non-empty source, and 0 for i = 0. |
| Luminaires.ResizeColors | src/core/luminaire.ts:168-178 | A source already of the target size comes back itself. Otherwise the result has exactly targetSize entries, entry i being the source at the sampled index (undefined past the end). |
| Luminaires.ResizeSamplesSource | src/core/luminaire.ts:175-177 | Every entry resampled from a non-empty list is one of its colours; resampling an empty list gives undefined. |
| Luminaires.ResizeSingle | src/core/luminaire.ts:175-177 | A one-colour list resizes to that colour everywhere. |
| Luminaires.RecalcLightSources | src/core/luminaire.ts:186-227 | Throws exactly when the old or the new effect chain throws. Otherwise it keeps the number of light sources, and each source's old and new state is the resampled old and new colour, or black. When the transition is over every old state is black and every source shows its new state; at progress 0 every source shows its old state. In between, each source's current state is getColorTransition from its old to its new state at the luminaire's progress. |
| Luminaires.SettledIgnoresOldState | src/core/luminaire.ts:193-204 | Once the transition is over, the old colours and old effects (even unknown ones) do not affect the result. |
| Luminaires.SettledPlainColors | src/core/luminaire.ts:206-226 | A settled luminaire without effects shows its new colours resampled to its light sources, or black past the end of the list. |
| Luminaires.Refresh | src/core/luminaire.ts:232-239 | Recalculating a registered luminaire fails exactly when its recalculation throws. Otherwise it changes only the light sources, which become the recalculated ones (so their number stays the same). |
| Luminaires.UpdateOne | src/core/luminaire.ts:251-274 | An unknown id is an error that changes nothing. Otherwise only that luminaire changes: new colours and effects move to old, the update's colours and effects (or empty lists) become new, the transition time becomes the given one or 500, and the start becomes `now`. Gateway and brightness are kept. The update throws exactly when recalculating the retargeted luminaire throws, and with that error; the fields are then already set but the light sources are the old ones. Otherwise the light sources are that recalculation's. |
| Luminaires.ApplyUpdates | src/core/luminaire.ts:286-288 | Applying updates in order never changes the registry's ids or their order. |
| Luminaires.ApplyUpdatesAppend | src/core/luminaire.ts:286-288 | Applying a + b equals applying a and then applying b to the registry a left. If a threw, b changes nothing and a's error is the result. |
| Luminaires.KeptFields | src/core/luminaire.ts:286-287 | The filter keeps exactly the updates whose id is registered. |
| Luminaires.KeptFieldsAppend | src/core/luminaire.ts:286-287 | The filter keeps order and repetitions: filtering a + b gives the filtered a followed by the filtered b. A single update is kept exactly when its id is registered. |
| Luminaires.KeptAll | src/core/luminaire.ts:286-287 | When every update names a registered luminaire, the filter keeps all of them in order. |
| Luminaires.Current | src/core/luminaire.ts:288-291 | The returned luminaires are one per kept update, in order. Entry k is the registry's record for update k's id, the one findLuminaire returns. |
| Luminaires.BatchResult | src/core/luminaire.ts:281-292 | updateLuminaires throws exactly when applying the kept updates in order stops at an error, and then with that error. Otherwise it returns, per kept update, the registry's record for that id after all updates. |
| Luminaires.BatchDefaultsTransition | src/core/luminaire.ts:255 | Updates without a transition time leave every luminaire they name on the 500 ms default, started at `now`. |
| Luminaires.BatchKeepsBrightness | src/core/luminaire.ts:251-274 | No update changes a luminaire's brightness. |
| Luminaires.UntargetedUnchanged | src/core/luminaire.ts:286-288 | A luminaire that no update names comes out of a batch unchanged. |
| Luminaires.LastUpdateWins | src/core/luminaire.ts:262-269 | After a batch, a luminaire's new colours, effects and transition are those of the last update naming it. |
| Luminaires.LuminaireRegistry.constructor | src/core/luminaire.ts:71-73 | The registry starts uninitialised, with no luminaires and no events. |
| Luminaires.LuminaireRegistry.IdList | src/core/luminaire.ts:244-245 | getLuminaireIdList holds exactly the registered ids, one per luminaire, in registry order. |
| Luminaires.LuminaireRegistry.LuminaireExists | src/core/luminaire.ts:161 | True exactly when some luminaire has the id. |
| Luminaires.LuminaireRegistry.GetLuminaire | src/core/luminaire.ts:232-239 | An unknown id throws and changes nothing. A known one is recalculated and stored back (unless recalculation throws) and returned. |
| Luminaires.LuminaireRegistry.RegisterLuminaire | src/core/luminaire.ts:121-156 | Throws before initialisation and for an unconfigured id; neither changes the registry. Otherwise the luminaire is recalculated and its gateway set; it is stored, announced once and returned. |
| Luminaires.LuminaireRegistry.RegisteredKeepsConfiguration | src/core/luminaire.ts:137-138 | Registration keeps the configured id, colours and light-source count; only the gateway changes. |
| Luminaires.LuminaireRegistry.UpdateLuminaire | src/core/luminaire.ts:251-274 | Throws before initialisation. Otherwise the registry becomes UpdateOne's result, and the method returns its error or the updated luminaire. |
| Luminaires.LuminaireRegistry.UpdateLuminaires | src/core/luminaire.ts:281-292 | Throws before initialisation. Otherwise it drops unknown ids, applies the rest in order, and stops at the first that throws. On success it emits one 'luminairesUpdated' event with the result; on failure it emits none. |
| Luminaires.LuminaireRegistry.UpdateInOrder | src/core/luminaire.ts:286-288 | The map step leaves the registry equal to the ordered application of the kept updates. |
| Luminaires.LuminaireRegistry.ErrorPersists | src/core/luminaire.ts:286-288 | After an update has thrown, the later updates change nothing. |
| Luminaires.LuminaireRegistry.Register | src/core/luminaire.ts:294-312 | Marks the registry initialised and appends one luminaire per configuration entry, in order. |
| Luminaires.ConfiguredLuminaire | src/core/luminaire.ts:303-311 | A configured luminaire has gateway 'dummy', `numLightSources \|\| 1` white light sources, no colours, no effects and no brightness. |
| Luminaires.Configured | src/core/luminaire.ts:303-311 | There is one luminaire per configuration entry, with the entries' ids in order. |
| GroupsAndScenes.LastGroupWins | src/core/group.ts:92-100 | After the configured groups are added, an id holds the last configured group of that id. |
| GroupsAndScenes.UnconfiguredGroupKept | src/core/group.ts:92-100 | An id that no configured group has keeps its previous group, or its absence. |
| GroupsAndScenes.FanOut | src/core/group.ts:64-67 | One update per group member, in member order, each identical to the input except for the id. |
| GroupsAndScenes.Requested | src/core/group.ts:57-67 | A luminaire id wins: the update goes on its own. Otherwise a group id fans out to its members, one update per member with the same colours, effects and transition. |
| GroupsAndScenes.ScaleValue | src/core/scene.ts:47-55 | Scaling a scene colour keeps its hue and saturation and changes only its value; with the luminaire's brightness unset, the value is taken as scaled by 1 (see ScaleValueBounds). |
| GroupsAndScenes.ValueAsWritten | src/core/scene.ts:54 | As written, a luminaire without brightness gives no value (NaN), and one with brightness gives a value. |
| GroupsAndScenes.SceneValueIsNaN | src/core/scene.ts:54 | No configured luminaire has a brightness and no update sets one, so as written every scene colour's value is NaN. |
| GroupsAndScenes.ScaleValueBounds | src/core/scene.ts:47-55 | With brightness unset, a target brightness in [0, 1] keeps the value in [0, v], and brightness 1 changes nothing. Brightness 0.5 with a target brightness of 0.8 takes 100 to 40. |
| GroupsAndScenes.TargetColors | src/core/scene.ts:47-55 | There is one colour per colour of the target, or of the scene when the target has none. Each is that colour's HSV conversion with h and s kept and v scaled. |
| GroupsAndScenes.LuminaireFields | src/core/scene.ts:40-64 | An unknown luminaire throws. For a known luminaire it throws exactly when getLuminaire's recalculation throws, with that error. Otherwise the update names that luminaire, has no transition time, and takes the target's effects (or the scene's) and the scaled colours. |
| GroupsAndScenes.TargetEntries | src/core/scene.ts:79-91 | A group target reaches its members in order; any other target reaches its own id. |
| GroupsAndScenes.Expand | src/core/scene.ts:78-92 | Every pair comes from a target. Every non-group target and every member of every group target is reached. |
| GroupsAndScenes.FlattenedMembers | src/core/scene.ts:78-92 | The flattening of the per-target entries reaches exactly the targets' members as Expand states, by induction over the targets. |
| GroupsAndScenes.ExpandAppend | src/core/scene.ts:78-92 | Expansion keeps the targets' order and multiplicity: targets a + b expand to a's entries followed by b's, and one target expands to one entry per group member in order (or its own id). |
| GroupsAndScenes.SceneFieldsShape | src/core/scene.ts:78-94 | Every update of an activated scene names a registered luminaire and carries no transition time. |
| GroupsAndScenes.SceneUsesDefaultTransition | src/core/scene.ts:94 | After a scene is activated, every luminaire it names is on the 500 ms default transition. |
| GroupsAndScenes.SceneActivation | src/core/scene.ts:78-94 | A scene whose luminaires cannot all be fetched, or an uninitialised registry, fails without changing the registry. A fetch error is passed on unchanged, and NotInitialized comes after a successful fetch. With an initialised registry and computable updates, the registry becomes the batch update of those updates, and the activation fails exactly when, and with the error with which, that batch throws. It emits one luminairesUpdated event, carrying the batch's result, exactly when it passes, and no event when it fails. |
| GroupsAndScenes.FindScene | src/core/scene.ts:70 | Finds a scene exactly when some scene has the id, and finds the first such scene. |
| GroupsAndScenes.NextSceneId | src/core/scene.ts:105-113 | There is no next scene exactly when the list is empty. With no active scene, or one not listed, the next is the first entry; the next is always a listed name. |
| GroupsAndScenes.CycleWraps | src/core/scene.ts:105-113 | In a list without repeats the scene after position j is the one at j + 1, and after the last comes the first. |
| GroupsAndScenes.CycleVisitsAll | src/core/scene.ts:105-113 | When every listed name is a scene, k cycles from the first entry reach entry k, and n cycles return to the first. |
| GroupsAndScenes.GroupRegistry.constructor | src/core/group.ts:27 | The group dictionary starts empty. |
| GroupsAndScenes.GroupRegistry.GetGroup | src/core/group.ts:33-38 | Returns the stored group, or throws exactly when the id is unknown. |
| GroupsAndScenes.GroupRegistry.GroupExists | src/core/group.ts:47 | True exactly when getGroup would not throw. |
| GroupsAndScenes.GroupRegistry.AddGroup | src/core/group.ts:92-95 | Stores the group under its id, replacing a group of that id and leaving the others. |
| GroupsAndScenes.GroupRegistry.Register | src/core/group.ts:97-106 | Adds the configured groups in order, then a group 'All' holding the ids registered at that moment, replacing a configured 'All'. |
| GroupsAndScenes.GroupRegistry.UpdateLuminaireOrGroup | src/core/group.ts:54-74 | An id that is neither a luminaire nor a group throws and changes nothing. Otherwise the active scene is cleared and the requested updates (luminaire first, else the group fan-out) go through updateLuminaires. The event list is unchanged when that call throws (NotInitialized included), and gains one luminairesUpdated event with the returned luminaires when it succeeds. |
| GroupsAndScenes.SceneManager.constructor | src/core/scene.ts:38 | There are no scenes and no active scene. |
| GroupsAndScenes.SceneManager.ResetActiveScene | src/core/scene.ts:97-99 | Clears the active scene and keeps the scenes. |
| GroupsAndScenes.SceneManager.ActivateScene | src/core/scene.ts:69-95 | An unknown scene throws and changes nothing, events included. A known scene becomes active before its updates are computed. The registry, outcome and emitted events are those of SceneActivation: no event on a fetch error or NotInitialized, one luminairesUpdated event when the batch succeeds. The registry's initialised flag is kept. |
| GroupsAndScenes.SceneManager.CycleScenes | src/core/scene.ts:105-113 | Activates NextSceneId's scene, with the registry, outcome and events of SceneActivation. An empty list names the scene 'undefined', which throws; that and an unknown next scene leave the active scene, the luminaires and the events unchanged. The scenes and the initialised flag are kept. |
| GroupsAndScenes.SceneManager.Register | src/core/scene.ts:115-128 | Stores the scenes and activates the first one, if there is one, with the registry, outcome and events of SceneActivation. With no scenes the registry and its events are unchanged. The initialised flag is kept. |
| PluginLightSources.CreateLightSource | src/plugins/core/lightsource.ts:5-17 | Previous and next state are the initial state (white by default); both instants are 0. |
| PluginLightSources.TransitionProgress | src/plugins/core/lightsource.ts:19-28 | The progress lies in [0, 1]: 1 when start equals end, 0 up to the start, 1 from the end on, and strictly between in between. |
| PluginLightSources.BlendEndpoints | src/plugins/core/lightsource.ts:45-49 | The RGB blend is the previous colour at q = 0 and the next at q = 1, and every channel lies between its two endpoints. |
| PluginLightSources.GetCurrentState | src/plugins/core/lightsource.ts:30-54 | The current state is the HSV conversion of an RGB colour whose channels are `prev·(1−q) + next·q`. Here prev and next are the RGB conversions of the two states, and q is the transition progress at `now`. |
| PluginLightSources.CurrentStateAtEnds | src/plugins/core/lightsource.ts:30-54 | Before a fade the current state is the previous state round-tripped through RGB. After it, or when start equals end, it is the next state round-tripped. |
| PluginLuminaires.CreateLuminaire | src/plugins/core/luminaire.ts:18-28 | Has numLights default light sources and no colours or effects. |
| PluginLuminaires.PluginLuminaireRegistry.constructor | src/plugins/core/luminaire.ts:14-16 | The registry starts uninitialised and empty. |
| PluginLuminaires.PluginLuminaireRegistry.GetLuminaire | src/plugins/core/luminaire.ts:44-46 | Returns the stored luminaire, or undefined exactly for an unknown id. |
| PluginLuminaires.PluginLuminaireRegistry.RegisterLuminaire | src/plugins/core/luminaire.ts:30-42 | Throws before initialisation and for an id already present, changing nothing. Otherwise it stores a new luminaire under the id and announces it. |
| PluginLuminaires.PluginLuminaireRegistry.RegistrationLookup | src/plugins/core/luminaire.ts:38-46 | After registration getLuminaire finds the new luminaire, and every other id finds what it found before. |
| PluginLuminaires.PluginLuminaireRegistry.Register | src/plugins/core/luminaire.ts:48-50 | Marks the registry initialised and changes nothing else. |
| PluginGroups.GetGroup | src/plugins/group.ts:20-25 | Throws exactly when no group has the id; otherwise returns the first group with it. |
| PluginGroups.GroupExists | src/plugins/scene.ts:5 | True exactly when getGroup would not throw. |
| PluginGroups.JoinedMembers | src/plugins/group.ts:37-39 | Keeps exactly the registered members, in slot order: none when all are pending, all when all are registered. |
| PluginGroups.GetGroupLuminaires | src/plugins/group.ts:31-44 | An unknown group throws; otherwise gives the group's registered members in order. |
| PluginGroups.UpdateMembers | src/plugins/group.ts:58-60 | The callee runs on each member by its id, in order. When every call succeeds the results are one per member; otherwise the error is that of the first member whose call throws. |
| PluginGroups.UpdateGroupLuminaires | src/plugins/group.ts:50-63 | An unknown group throws. Otherwise the callee runs on each registered member by its id, in order, giving one result per member; a failure carries the error of the first member whose update throws. |
| PluginGroups.ReplaceSlots | src/plugins/group.ts:71-84 | The length is kept. A slot standing for the luminaire's id (pending id or registered luminaire) becomes the luminaire, and every other slot is unchanged. |
| PluginGroups.RegisteredIn | src/plugins/group.ts:69-86 | Every group keeps its id and position, and its slots are replaced as ReplaceSlots says. |
| PluginGroups.RegisterIdempotent | src/plugins/group.ts:69-86 | Registering the same luminaire twice gives the same groups as registering it once. |
| PluginGroups.RegisteredSlotsHoldLuminaire | src/plugins/group.ts:71-84 | After registration every slot for the id holds the new luminaire, and a list without such slots is unchanged. |
| PluginGroups.PluginGroupRegistry.constructor | src/plugins/group.ts:12-14 | No groups. |
| PluginGroups.PluginGroupRegistry.Register | src/plugins/group.ts:88-93 | The configured groups become the state. |
| PluginGroups.PluginGroupRegistry.OnLuminaireRegistered | src/plugins/group.ts:69-86 | Each group's list is rebuilt in turn, and the result is RegisteredIn of the old groups. |
| PluginScenes.PluginTargetColors | src/plugins/scene.ts:31-36 | There is one colour per colour of the target (or of the scene). Each is its HSV conversion with h and s kept and v times the target brightness (default 1). |
| PluginScenes.PluginScaling | src/plugins/scene.ts:31-36 | Without a brightness the colours are sent unscaled. A brightness in [0, 1] keeps each non-negative value in [0, v]. |
| PluginScenes.PluginTargetFields | src/plugins/scene.ts:34-44 | The fields carry the target's own unchecked id, its colours, its effects or the scene's, and no transition time. |
| PluginScenes.TargetEntriesAsWritten | src/plugins/scene.ts:46-57 | As written, a non-group target gives its own fields. A group target gives entries only for members still pending, because a registered member's copied slot is an object, not an id. |
| PluginScenes.PendingFanOut | src/plugins/scene.ts:51-54 | Every entry is the target's fields under a pending member's id; a group of registered members gives no entry. |
| PluginScenes.TargetEntries | src/plugins/scene.ts:46-57 | Intended: a group target gives one entry per member, in order, under the member's id (the luminaire's id once registered); any other target gives its own fields. |
| PluginScenes.RegisteredMemberDropped | src/plugins/scene.ts:51-54 | For a group of one registered luminaire, the code as written produces no entry. The intended expansion gives one entry, which updateLuminaires keeps. |
| PluginScenes.EntriesComeFromTargets | src/plugins/scene.ts:29-59 | Every entry is some target's fields, differing at most in the id. |
| PluginScenes.PluginSceneManager.constructor | src/plugins/scene.ts:16 | There are no scenes and no active scene. |
| PluginScenes.PluginSceneManager.ResetActiveScene | src/plugins/scene.ts:64-66 | Clears the active scene and keeps the scenes. |
| PluginScenes.PluginSceneManager.ActivateScene | src/plugins/scene.ts:21-62 | An unknown scene throws and changes nothing, events included. A known scene becomes active. Before initialisation it then throws; otherwise the registry, outcome and emitted events are PluginActivation's. The entries are the intended group expansion (SceneEntries), not the as-written one. |
| PluginScenes.PluginActivation | src/plugins/scene.ts:29-61 | Before initialisation, activating throws NotInitialized and changes nothing and emits no event. Otherwise the registry becomes the batch update of the scene's entries. The activation fails exactly when that batch throws, and then with the batch's error. It emits one luminairesUpdated event, carrying the batch's result, exactly when it passes. |
| PluginScenes.PluginSceneManager.CycleScenes | src/plugins/scene.ts:72-80 | Activates NextSceneId's scene, with the registry, outcome and events of PluginActivation. An empty list or an unknown next scene throws and leaves the luminaires and the events unchanged. The initialised flag is kept. |
| PluginScenes.PluginSceneManager.Register | src/plugins/scene.ts:82-93 | Stores the scenes and activates the first one, if there is one, with the registry, outcome and events of PluginActivation. With no scenes the registry and its events are unchanged. The initialised flag is kept. |
| ReferenceEffects.ResizePosBounds | src/plugins/effects/resize.ts:18 | The position `i / n * len` lies in [0, len), and is 0 for an empty list. |
| ReferenceEffects.Resize | src/plugins/effects/resize.ts:5-26 | A list of the right length comes back itself. Any other list gives exactly numLightSources blended samples. |
| ReferenceEffects.ResizeIndices | src/plugins/effects/resize.ts:18-24 | The left index is valid, the right index is at most one past the end, and the factor lies in [0, 1). An integral position gives the left colour itself. |
| ReferenceEffects.ResizeEmpty | src/plugins/effects/resize.ts:19-20 | Resizing an empty list gives undefined colours. |
| ReferenceEffects.Reverse | src/plugins/effects/mirror.ts:4 | Same length; entry k is entry n-1-k of the input. |
| ReferenceEffects.Mirror | src/plugins/effects/mirror.ts:3-7 | Twice the length: the input, then the input in reverse. |
| ReferenceEffects.MirrorPalindrome | src/plugins/effects/mirror.ts:4-6 | The mirrored list reads the same backwards. |
| ReferenceEffects.SumOfCopies | src/plugins/effects/avg.ts:6-12 | The channel sum of k copies of one colour is k times each channel. |
| ReferenceEffects.Avg | src/plugins/effects/avg.ts:3-19 | Throws exactly for an empty list. Otherwise gives one RGB colour whose channels times the count are the channel sums. |
| ReferenceEffects.AvgOfEqualColors | src/plugins/effects/avg.ts:3-19 | Colours with equal RGB conversions average to that RGB colour. |
| ReferenceEffects.CycleInterval | src/plugins/effects/colorcycle.ts:15 | The interval is never 0: a missing or 0 interval is 3. |
| ReferenceEffects.ColorCycle | src/plugins/effects/colorcycle.ts:17-27 | Gives one output per input colour, output k being the blend at its rotating offset. |
| ReferenceEffects.CycleIndices | src/plugins/effects/colorcycle.ts:18-24 | For a non-negative numerator the offset lies in [0, len), both neighbour indices are valid, and the factor lies in [0, 1). A whole offset gives the left colour itself. |
| ReferenceEffects.HueCycle | src/plugins/effects/huecycle.ts:17-26 | Gives one output per colour: its HSV conversion with s and v kept and the hue shifted by the same amount, under JavaScript's `% 360`. |
| ReferenceEffects.HueInRange | src/plugins/effects/huecycle.ts:18-23 | A non-negative shifted hue lands in [0, 360) and differs from h plus the shift by whole turns. |
| ReferenceEffects.LitIndex | src/plugins/effects/test.ts:19 | The lit index lies strictly between -n and n. |
| ReferenceEffects.LitIndexValid | src/plugins/effects/test.ts:17-19 | A non-negative time and rate give a valid index. |
| ReferenceEffects.TestPattern | src/plugins/effects/test.ts:4-30 | Gives numLightSources entries, all black except the lit one: red at index 0, else blue at the last index, else white. |
| ReferenceEffects.CalibrationIndex | src/plugins/effects/calibrate.ts:16-18 | Gives the first calibration for the luminaire, or -1 exactly when there is none. |
| ReferenceEffects.Calibrate | src/plugins/effects/calibrate.ts:9-29 | Throws exactly when the luminaires option is missing. With no calibration for the luminaire the list comes back itself; otherwise the first matching calibration applies to every colour. |
| ReferenceEffects.CalibrationWithoutCielab | src/plugins/effects/calibrate.ts:22-28 | A calibration without a cielab function leaves every colour unchanged. |
| BrightnessEffect.HourValue | src/plugins/effects/brightness.ts:62-63 | A missing or 0 entry counts as 1; any other entry is itself. |
| BrightnessEffect.BriShift | src/plugins/effects/brightness.ts:60-66 | The factor lies between the values of floor(hour) and ceil(hour) % 24, and equals the hour's value on a whole hour. |
| BrightnessEffect.LastHourWrapsToMidnight | src/plugins/effects/brightness.ts:63 | Between 23:00 and midnight the factor moves toward hour 0's value. |
| BrightnessEffect.DefaultTableNightAndDay | src/plugins/effects/brightness.ts:6-20 | With the default table the factor is 0.7 from midnight to 06:00 and 1 from 09:00 to 21:00. |
| BrightnessEffect.Brighten | src/plugins/effects/brightness.ts:68-75 | Keeps the HSV hue and saturation. The value is v times the factor plus the offset when that lies in [0, 100]. It is 0 below that range and 100 above it. |
| BrightnessEffect.Brightness | src/plugins/effects/brightness.ts:56-76 | Gives one output per colour, each brightened by the same factor and offset. |
| BrightnessEffect.ResetStep | src/plugins/effects/brightness.ts:29-35 | The offset moves toward 0 by the rate without crossing it, and 0 stays 0. |
| BrightnessEffect.ResetReachesZero | src/plugins/effects/brightness.ts:29-35 | k reset ticks bring any offset of size at most k times the rate back to 0. |
| BrightnessEffect.AdjustStep | src/plugins/effects/brightness.ts:37-42 | Adds rate / 100 and clamps to [-100, 100]; a non-negative rate never lowers an in-range offset. |
| BrightnessEffect.BrightnessState.constructor | src/plugins/effects/brightness.ts:22-27 | Offset 0, adjust rate 0, not adjusting, reset rate 0.02. |
| BrightnessEffect.BrightnessState.ResetTick | src/plugins/effects/brightness.ts:29-35 | The one-second tick applies ResetStep and changes nothing else. |
| BrightnessEffect.BrightnessState.AdjustTick | src/plugins/effects/brightness.ts:37-42 | The ten-millisecond tick applies AdjustStep while adjusting, and does nothing otherwise. |
| BrightnessEffect.BrightnessState.AdjustBrightnessOffset | src/plugins/effects/brightness.ts:44-51 | 0 stops adjusting; any other delta starts adjusting at that rate. |
| BrightnessEffect.BrightnessState.SetBrightnessOffset | src/plugins/effects/brightness.ts:52-54 | Sets the offset exactly. |
| HueGateway.LightIndex | src/plugins/gateway/hue.ts:101-108 | Gives the first bridge light named after the luminaire, or -1 exactly when none is. |
| HueGateway.NothingToChange | src/plugins/gateway/hue.ts:184-232 | A light already in the requested state (within 400/4/4) gets no request, whatever the transition time. |
| HueGateway.OffStaysOff | src/plugins/gateway/hue.ts:196-229 | A light that is off and stays off gets no request. |
| HueGateway.TurningOff | src/plugins/gateway/hue.ts:196-220 | Turning a light off sends `on: false`, no colour, and the transition time unless it is 4 or 5. |
| HueGateway.TurningOn | src/plugins/gateway/hue.ts:196-220 | Turning a light on sends `on: true` and exactly the channels that move by their threshold. |
| HueGateway.BuildRequest | src/plugins/gateway/hue.ts:239-263 | A luminaire without light sources throws. Otherwise the light is on iff v ≠ 0, and hue, sat, bri and the transition time (explicit, else the luminaire's) are `Math.round` of h/360·65536, s/100·254, v/100·254 and ms/100. |
| HueGateway.RequestRanges | src/plugins/gateway/hue.ts:248-253 | Colours in range give bridge values in range (hue 0..65536, sat and bri 0..254); v = 0 is off at brightness 0. |
| HueGateway.DefaultTransitionNotSent | src/plugins/gateway/hue.ts:255-261 | The 500 ms default becomes 5, which optimizeRequest never forwards; an explicit 1000 ms becomes 10. |
| HueGateway.CreateButtonEventAction | src/plugins/gateway/hue.ts:402-412 | Address `/sensors/<switch>`, name `<sensor>,<state>`, method PUT. |
| HueGateway.SplitFirstPiece | src/plugins/gateway/hue.ts:356 | A piece without the separator splits off whole. |
| HueGateway.ButtonEventRoundTrip | src/plugins/gateway/hue.ts:402-412 | Splitting the name on ',' gives back the sensor id first, and `[sensor, state]` when neither has a comma. |
| HueGateway.HueBridge.constructor | src/plugins/gateway/hue.ts:85-99 | No bridge lights. |
| HueGateway.HueBridge.LuminaireIdToLightId | src/plugins/gateway/hue.ts:101-108 | Gives the id of the first light named after the luminaire, or nothing exactly when there is none. |
| HueGateway.HueBridge.LightByLuminaireId | src/plugins/gateway/hue.ts:110-117 | Gives the first light named after the luminaire, or nothing exactly when there is none. |
| HueGateway.HueBridge.OptimizeRequest | src/plugins/gateway/hue.ts:184-232 | Throws when no light is named after the luminaire. Otherwise the field-by-field body matches the rules: `on` if it differs; transition time if on or turning on and not 4 or 5; hue/sat/bri if the light ends on and they move by 400/4/4; null if none of on, hue, sat or bri is kept. |
| UdpGateway.ToUint8 | src/plugins/gateway/lightctl-udp.ts:77-79 | A byte equal to the value in 0..255 and congruent to it modulo 256 otherwise. |
| UdpGateway.PixelOf | src/plugins/gateway/lightctl-udp.ts:74-79 | A state without h, s, v fields gives zero bytes. |
| UdpGateway.HueByteInRange | src/plugins/gateway/lightctl-udp.ts:77 | A hue in [0, 360) gives a byte in 0..254 that decodes to within one step below it. |
| UdpGateway.PercentByteInRange | src/plugins/gateway/lightctl-udp.ts:78-79 | A saturation or value in [0, 100] gives a byte without wrapping; 100 gives 255. |
| UdpGateway.OverRangeWraps | src/plugins/gateway/lightctl-udp.ts:79 | A value of 101 is stored as 1. |
| UdpGateway.Flatten | src/plugins/gateway/lightctl-udp.ts:74-79 | Gives three bytes per pixel, bytes 3i, 3i+1 and 3i+2 being pixel i's hue, saturation and value. |
| UdpGateway.FlattenUnique | src/plugins/gateway/lightctl-udp.ts:74-79 | Any byte list with every pixel's bytes at its place is the flattening. |
| UdpGateway.TripleBytes | src/plugins/gateway/lightctl-udp.ts:116-121 | A configured triple gives three bytes. |
| UdpGateway.Frame | src/plugins/gateway/lightctl-udp.ts:70-121 | Fails exactly when a light source has no state. Otherwise the frame has 3n + 7 bytes: the pixels, then 4, then the gamma triple, then the contrast triple. |
| UdpGateway.WritePixels | src/plugins/gateway/lightctl-udp.ts:74-112 | Fills the first 3n bytes with the flattened pixels and leaves the rest, unless a state is missing. |
| UdpGateway.WriteSettings | src/plugins/gateway/lightctl-udp.ts:114-121 | The last seven bytes are 4, then the gamma and contrast bytes; the pixels are kept. |
| UdpGateway.EncodeFrame | src/plugins/gateway/lightctl-udp.ts:72-121 | A fresh array holding exactly Frame's bytes, or Frame's error. |
| UdpGateway.ClientIndex | src/plugins/gateway/lightctl-udp.ts:134-138 | Gives the first client at the address and port, or -1 exactly when none is. |
| UdpGateway.Without | src/plugins/gateway/lightctl-udp.ts:142-144 | The list is unchanged when no client matches. Otherwise the first matching client is removed: earlier clients keep their positions, and later ones move up by one. |
| UdpGateway.WithoutKeepsOthers | src/plugins/gateway/lightctl-udp.ts:142-144 | Every client at another address stays. |
| UdpGateway.WithoutDropsAddress | src/plugins/gateway/lightctl-udp.ts:142-144 | With distinct addresses, no client at the address remains and the rest stay distinct. |
| UdpGateway.UdpServer.constructor | src/plugins/gateway/lightctl-udp.ts:68 | No clients, no gamma or contrast configuration. |
| UdpGateway.UdpServer.Register | src/plugins/gateway/lightctl-udp.ts:154-156 | The gamma and contrast tables are the configured ones, or empty. |
| UdpGateway.UdpServer.NewClient | src/plugins/gateway/lightctl-udp.ts:183-189 | A new client has the configured gamma and contrast for its id, or [220, 250, 180] and [255, 255, 255], and a timeout 30000 ms from now. |
| UdpGateway.UdpServer.OnMessage | src/plugins/gateway/lightctl-udp.ts:158-196 | A known address only restarts its timeout. A missing or empty id, or a missing or 0 light count, is ignored without registering. Otherwise the reply is Added or RegisterFailed. It is RegisterFailed with NotInitialized before initialisation, with NotFound for an unconfigured id, or with the recalculation's error; the luminaires, the events and the client list are then unchanged. The registry's initialised flag is never changed. On Added, the luminaire's record is the recalculated one with gateway 'lightctl-udp', and one client is appended. Distinct addresses are preserved. |
| UdpGateway.UdpServer.RemoveClient | src/plugins/gateway/lightctl-udp.ts:132-145 | The list becomes Without of the old list. |
| UdpGateway.UdpServer.ExpireClient | src/plugins/gateway/lightctl-udp.ts:147-152 | A client whose timeout has passed is removed; otherwise nothing changes. |
| UdpGateway.UdpServer.Send | src/plugins/gateway/lightctl-udp.ts:70-130 | An unknown luminaire, or one whose recalculation throws, throws. Otherwise the frame of its recalculated states with the client's triples is encoded. The registry keeps the recalculated record when the recalculation succeeds, and is otherwise unchanged. |

## Left out

- Colour conversions (chromatism2, color-convert) are uninterpreted functions, so the mid-transition colours of getColorTransition and every `convert(...)` are left unspecified.
- Floating point: NaN, infinities and rounding error are not modelled. An option that is present but not a number is read as its default.
- Utils.ConvertTo: reading the channels of an undefined value throws in the source; the model reads it as HSV white.
- Luminaire objects are values. The source returns the live objects it stores, so later updates show through earlier results. The model returns the records as they stand when the call returns.
- The clock (`new Date()`, getMsSinceMidnight): the time and the hour are parameters.
- Timers (setInterval, setTimeout), the UDP socket, HTTP requests to the Hue bridge and JSON.parse are left out. A parsed message is a parameter, and a client timeout is the time at which it would fire.
- The Hue gateway's luminairesUpdated PUT loop and its unused `R.groupWith` result, pollLights, pollSensors, initSensors, createGroups, filterHueLuminaires and register are network plumbing and are left out.
- Event wiring (`app.on`, `app.emit`): emitted events are a list on the registry; listeners are not run.
- getLuminaireFields calls getLuminaire, which recalculates and stores the luminaire's light sources. The model computes the fields without storing that recalculation; the batch update that follows recalculates each luminaire again.
- PluginGroups.GetGroupLuminaires: the recalculation pass over the returned luminaires (src/plugins/group.ts:41) is left out. That pass rewrites, in place, the light sources of luminaire objects that the engine's registry also holds. The model's groups hold luminaire values, which cannot show that sharing, and the recalculation also needs the clock.
- src/plugins/group.ts imports an updateLuminaire that src/core/luminaire.ts does not export, so the callee is a function parameter. Likewise, the groupExists that src/plugins/scene.ts imports from it is modelled as the membership test.
- createGroup is the Group datatype constructor. getGroups and getScenes only list the stored values.
- GroupsAndScenes.SceneManager.CycleScenes: with an empty list the source looks up the scene `undefined`; the model reports NotFound for the name "undefined".
- Console output (`console.log`) is left out. This covers the registration message of registerLuminaire (src/core/luminaire.ts:150) and the idle-client message of removeClient (src/plugins/gateway/lightctl-udp.ts:140).
- Object prototype keys (such as `constructor`) in the dictionaries are not modelled.
- UdpGateway.TripleBytes: gamma and contrast entries are taken as integers; a fractional configured entry (truncated by Uint8Array) is not modelled.
- UdpGateway.UdpServer.OnMessage: a negative light count is not modelled (`numLights` is a natural number).
- The shootingstars, plasma, sunlight, travelingsine, nightlight and dummy effects, the HTTP API, the server bootstrap, the configuration file and src/core/room.ts are not part of this model.

## Findings

| source | as written | input that shows it | evidently intended | confidence | as-written member | corrected member |
|---|---|---|---|---|---|---|
| src/core/scene.ts:54 | `v: color.v * luminaire.brightness * sceneTargetBrightness`, where no luminaire record ever has a `brightness` | any scene activation: `undefined * x` is NaN, so every colour's value is NaN | the brightness taken as 1 when unset, so v is scaled by the target's brightness | not executed | GroupsAndScenes.SceneValueIsNaN | GroupsAndScenes.ScaleValueBounds |
| src/plugins/scene.ts:51-54 | a group target copies each `group.luminaires` entry as the update id, but src/plugins/group.ts:69-86 has replaced registered members with luminaire objects | a group `[luminaire L]` after L registered: the entry's id is the object, no luminaire has it, and updateLuminaires drops it. As written, line 46 first calls a groupExists that src/plugins/group.ts does not export, which throws a TypeError. The drop therefore assumes groupExists is the membership test, as under Left out | one update per member under the member's id | not executed | PluginScenes.RegisteredMemberDropped | PluginScenes.TargetEntries |
