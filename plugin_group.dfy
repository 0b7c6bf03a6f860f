/**
  The older group store of src/plugins/group.ts. A group is configured with
  luminaire ids; when a luminaire registers, every slot holding its id (or
  an earlier registration of it) is replaced by the luminaire itself, so a
  group's list mixes ids still waiting for their luminaire and registered
  luminaires.
 */
module PluginGroups {
  import opened Base
  import opened Colors
  import opened Luminaires

  /** One entry of a group's `luminaires` list. */
  datatype Slot = Pending(id: string) | Joined(luminaire: Luminaire)

  datatype SlotGroup = SlotGroup(id: string, luminaires: seq<Slot>)

  /**
    The callee `updateLuminaire(id, colors, effects, transitionTime)` that
    updateGroupLuminaires calls. src/core/luminaire.ts exports no such
    function, so it is a parameter here.
   */
  type UpdateFn = (string, seq<Color>, seq<string>, Option<int>) -> Result<Luminaire>

  /** Position of the first group with the given id, or -1. */
  function GroupIndex(groups: seq<SlotGroup>, id: string): (k: int)
    ensures -1 <= k < |groups|
    ensures k == -1 <==> forall j :: 0 <= j < |groups| ==> groups[j].id != id
    ensures k >= 0 ==> groups[k].id == id && forall j :: 0 <= j < k ==> groups[j].id != id
    decreases |groups|
  {
    if |groups| == 0 then -1
    else if groups[|groups| - 1].id == id && GroupIndex(groups[..|groups| - 1], id) == -1 then |groups| - 1
    else GroupIndex(groups[..|groups| - 1], id)
  }

  /** getGroup: the first group with the id; throws when there is none. */
  function GetGroup(groups: seq<SlotGroup>, id: string): (r: Result<SlotGroup>)
    ensures r.Err? <==> forall j :: 0 <= j < |groups| ==> groups[j].id != id
    ensures r.Err? ==> r.error == NotFound(GroupKind, id)
    ensures r.Ok? ==> r.value.id == id && r.value in groups
    ensures r.Ok? ==> exists k :: 0 <= k < |groups| && groups[k] == r.value && forall j :: 0 <= j < k ==> groups[j].id != id
  {
    var k := GroupIndex(groups, id);
    if k < 0 then Err(NotFound(GroupKind, id)) else Ok(groups[k])
  }

  /**
    Whether a group has the id: the reading the older scene code gives to
    the `groupExists` it imports (src/plugins/group.ts defines no such
    function).
   */
  function GroupExists(groups: seq<SlotGroup>, id: string): (b: bool)
    ensures b <==> GetGroup(groups, id).Ok?
  {
    GroupIndex(groups, id) >= 0
  }

  /** The registered luminaires among a group's slots, in slot order. */
  function JoinedMembers(slots: seq<Slot>): (r: seq<Luminaire>)
    ensures |r| <= |slots|
    ensures forall l :: l in r <==> Joined(l) in slots
    ensures (forall k :: 0 <= k < |slots| ==> slots[k].Pending?) ==> r == []
    ensures (forall k :: 0 <= k < |slots| ==> slots[k].Joined?) ==>
              |r| == |slots| && forall k :: 0 <= k < |slots| ==> r[k] == slots[k].luminaire
    decreases |slots|
  {
    if slots == [] then []
    else
      var init := JoinedMembers(slots[..|slots| - 1]);
      var last := slots[|slots| - 1];
      assert forall s :: s in slots <==> s in slots[..|slots| - 1] || s == last;
      if last.Joined? then init + [last.luminaire] else init
  }

  /**
    getGroupLuminaires: the registered members of the group, in order;
    throws when no group has the id.
   */
  function GetGroupLuminaires(groups: seq<SlotGroup>, id: string): (r: Result<seq<Luminaire>>)
    ensures r.Err? <==> GetGroup(groups, id).Err?
    ensures r.Err? ==> r.error == NotFound(GroupKind, id)
    ensures r.Ok? ==> r.value == JoinedMembers(GetGroup(groups, id).value.luminaires)
  {
    var g :- GetGroup(groups, id);
    Ok(JoinedMembers(g.luminaires))
  }

  /**
    The callee run once per member, by the member's id, in order: the
    results when every call succeeds, otherwise the first call's error.
   */
  function UpdateMembers(members: seq<Luminaire>, colors: seq<Color>, effects: seq<string>,
                         transitionTime: Option<int>, update: UpdateFn): (r: Result<seq<Luminaire>>)
    ensures r.Ok? ==>
              |r.value| == |members|
              && forall k :: 0 <= k < |members| ==> update(members[k].id, colors, effects, transitionTime) == Ok(r.value[k])
    ensures r.Err? ==>
              exists k :: 0 <= k < |members| && update(members[k].id, colors, effects, transitionTime).Err?
                          && r.error == update(members[k].id, colors, effects, transitionTime).error
                          && forall j :: 0 <= j < k ==> update(members[j].id, colors, effects, transitionTime).Ok?
    ensures r.Err? ==> exists m :: m in members && update(m.id, colors, effects, transitionTime).Err?
  {
    var call := (m: Luminaire) => update(m.id, colors, effects, transitionTime);
    var r := MapAll(call, members);
    assert r.Err? ==>
             (exists k :: 0 <= k < |members| && update(members[k].id, colors, effects, transitionTime).Err?
                          && r.error == update(members[k].id, colors, effects, transitionTime).error
                          && forall j :: 0 <= j < k ==> update(members[j].id, colors, effects, transitionTime).Ok?)
             && exists m :: m in members && update(m.id, colors, effects, transitionTime).Err?
    by {
      if r.Err? {
        var k :| 0 <= k < |members| && call(members[k]).Err? && r.error == call(members[k]).error
                 && forall j :: 0 <= j < k ==> call(members[j]).Ok?;
        assert call(members[k]) == update(members[k].id, colors, effects, transitionTime);
        assert members[k] in members;
        forall j | 0 <= j < k
          ensures update(members[j].id, colors, effects, transitionTime).Ok?
        {
          assert call(members[j]).Ok?;
        }
      }
    }
    r
  }

  /**
    updateGroupLuminaires: the callee runs once per registered member, by
    the member's id, in order; members still pending are not updated; an
    unknown group throws.
   */
  function UpdateGroupLuminaires(groups: seq<SlotGroup>, id: string, colors: seq<Color>, effects: seq<string>,
                                 transitionTime: Option<int>, update: UpdateFn): (r: Result<seq<Luminaire>>)
    ensures GetGroup(groups, id).Err? ==> r == Err(NotFound(GroupKind, id))
    ensures GetGroup(groups, id).Ok? ==>
              r == UpdateMembers(JoinedMembers(GetGroup(groups, id).value.luminaires), colors, effects, transitionTime, update)
    ensures r.Ok? ==>
              var members := JoinedMembers(GetGroup(groups, id).value.luminaires);
              |r.value| == |members|
              && forall k :: 0 <= k < |members| ==> update(members[k].id, colors, effects, transitionTime) == Ok(r.value[k])
    ensures r.Err? && GetGroup(groups, id).Ok? ==>
              exists m :: m in JoinedMembers(GetGroup(groups, id).value.luminaires)
                          && update(m.id, colors, effects, transitionTime).Err?
    ensures r.Err? && GetGroup(groups, id).Ok? ==>
              var members := JoinedMembers(GetGroup(groups, id).value.luminaires);
              exists k :: 0 <= k < |members| && update(members[k].id, colors, effects, transitionTime).Err?
                          && r.error == update(members[k].id, colors, effects, transitionTime).error
                          && forall j :: 0 <= j < k ==> update(members[j].id, colors, effects, transitionTime).Ok?
  {
    var members :- GetGroupLuminaires(groups, id);
    assert members == JoinedMembers(GetGroup(groups, id).value.luminaires);
    UpdateMembers(members, colors, effects, transitionTime, update)
  }

  /** What one slot becomes when `l` registers. */
  function ReplaceSlot(s: Slot, l: Luminaire): Slot {
    match s
    case Pending(id) => if id == l.id then Joined(l) else s
    case Joined(m) => if m.id == l.id then Joined(l) else s
  }

  /** The identifier a slot stands for: its id, or its luminaire's id. */
  function SlotId(s: Slot): string {
    match s
    case Pending(id) => id
    case Joined(m) => m.id
  }

  /**
    A group's slots after `l` registers: every slot that stands for l's id
    now holds l, every other slot is as it was, and the length is kept.
   */
  function ReplaceSlots(slots: seq<Slot>, l: Luminaire): (r: seq<Slot>)
    ensures |r| == |slots|
    ensures forall k :: 0 <= k < |slots| ==> (SlotId(slots[k]) == l.id ==> r[k] == Joined(l))
    ensures forall k :: 0 <= k < |slots| ==> (SlotId(slots[k]) != l.id ==> r[k] == slots[k])
  {
    seq(|slots|, k requires 0 <= k < |slots| => ReplaceSlot(slots[k], l))
  }

  /** Every group after `l` registers. */
  function RegisteredIn(groups: seq<SlotGroup>, l: Luminaire): (r: seq<SlotGroup>)
    ensures |r| == |groups|
    ensures forall k :: 0 <= k < |groups| ==>
              r[k].id == groups[k].id && r[k].luminaires == ReplaceSlots(groups[k].luminaires, l)
  {
    seq(|groups|, k requires 0 <= k < |groups| => groups[k].(luminaires := ReplaceSlots(groups[k].luminaires, l)))
  }

  /** Registering the same luminaire again changes nothing more. */
  lemma RegisterIdempotent(groups: seq<SlotGroup>, l: Luminaire)
    ensures RegisteredIn(RegisteredIn(groups, l), l) == RegisteredIn(groups, l)
  {
    var once := RegisteredIn(groups, l);
    forall k | 0 <= k < |groups|
      ensures ReplaceSlots(once[k].luminaires, l) == once[k].luminaires
    {
      var slots := once[k].luminaires;
      forall j | 0 <= j < |slots|
        ensures ReplaceSlots(slots, l)[j] == slots[j]
      {
        if SlotId(groups[k].luminaires[j]) == l.id {
          assert SlotId(slots[j]) == l.id;
        }
      }
    }
  }

  /**
    After `l` registers, no slot stands for l's id unless it holds l, and
    every registered member of a group whose slots stand for distinct ids
    other than l's is as it was.
   */
  lemma RegisteredSlotsHoldLuminaire(slots: seq<Slot>, l: Luminaire)
    ensures forall s :: s in ReplaceSlots(slots, l) && SlotId(s) == l.id ==> s == Joined(l)
    ensures (forall k :: 0 <= k < |slots| ==> SlotId(slots[k]) != l.id) ==> ReplaceSlots(slots, l) == slots
  {
    var r := ReplaceSlots(slots, l);
    forall s | s in r && SlotId(s) == l.id
      ensures s == Joined(l)
    {
      var k :| 0 <= k < |r| && r[k] == s;
    }
  }

  class PluginGroupRegistry {
    var groups: seq<SlotGroup>

    constructor()
      ensures groups == []
    {
      groups := [];
    }

    /** register: the configured groups become the state, ids still pending. */
    method Register(options: seq<SlotGroup>)
      modifies this
      ensures groups == options
    {
      groups := options;
    }

    /**
      onLuminaireRegistered: each group's list is rebuilt in turn with the
      newly registered luminaire in the slots that stand for its id.
     */
    method OnLuminaireRegistered(l: Luminaire)
      modifies this
      ensures groups == RegisteredIn(old(groups), l)
    {
      var k := 0;
      while k < |groups|
        invariant 0 <= k <= |groups| == |old(groups)|
        invariant forall j :: 0 <= j < k ==> groups[j] == RegisteredIn(old(groups), l)[j]
        invariant forall j :: k <= j < |groups| ==> groups[j] == old(groups)[j]
      {
        groups := groups[k := groups[k].(luminaires := ReplaceSlots(groups[k].luminaires, l))];
        k := k + 1;
      }
    }
  }
}
