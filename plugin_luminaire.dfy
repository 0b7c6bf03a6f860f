/**
  The older luminaire registry of src/plugins/core/luminaire.ts: luminaires
  are kept in a dictionary by id, registration refuses an id that is
  already present, and a lookup of an unknown id yields undefined.
 */
module PluginLuminaires {
  import opened Base
  import opened Colors
  import opened Effects
  import opened PluginLightSources

  datatype PLuminaire = PLuminaire(
    id: string,
    gateway: string,
    lightSources: seq<PLightSource>,
    colors: seq<Color>,
    effects: seq<Effect>)

  /**
    createLuminaire: `numLights` default light sources (each created
    without an initial state, hence white) and no colours or effects.
   */
  function CreateLuminaire(id: string, gateway: string, numLights: nat): (l: PLuminaire)
    ensures l.id == id && l.gateway == gateway
    ensures |l.lightSources| == numLights
    ensures forall k :: 0 <= k < numLights ==> l.lightSources[k] == CreateLightSource(None)
    ensures l.colors == [] && l.effects == []
  {
    PLuminaire(id, gateway, seq(numLights, _ => CreateLightSource(None)), [], [])
  }

  class PluginLuminaireRegistry {
    /** Whether register has stored the application (`state.app`). */
    var initialized: bool
    var luminaires: map<string, PLuminaire>
    /** The 'luminaireRegistered' events emitted, oldest first. */
    ghost var registered: seq<PLuminaire>

    constructor()
      ensures !initialized && luminaires == map[] && registered == []
    {
      initialized := false;
      luminaires := map[];
      registered := [];
    }

    /** getLuminaire: the stored luminaire, or nothing (undefined) for an unknown id. */
    function GetLuminaire(id: string): (r: Option<PLuminaire>)
      reads this
      ensures r.None? <==> id !in luminaires
      ensures r.Some? ==> r.value == luminaires[id]
    {
      if id in luminaires then Some(luminaires[id]) else None
    }

    /**
      registerLuminaire: throws before initialisation and for an id already
      present; otherwise stores a new luminaire under its id, leaves every
      other entry as it was and announces the new luminaire.
     */
    method RegisterLuminaire(id: string, gateway: string, numLights: nat) returns (r: Result<PLuminaire>)
      modifies this
      ensures initialized == old(initialized)
      ensures !old(initialized) ==> r == Err(NotInitialized) && unchanged(this)
      ensures old(initialized) && id in old(luminaires) ==> r == Err(DuplicateId(id)) && unchanged(this)
      ensures old(initialized) && id !in old(luminaires) ==>
                r == Ok(CreateLuminaire(id, gateway, numLights))
                && luminaires == old(luminaires)[id := r.value]
                && registered == old(registered) + [r.value]
    {
      if !initialized {
        return Err(NotInitialized);
      }
      if id in luminaires {
        return Err(DuplicateId(id));
      }
      var luminaire := CreateLuminaire(id, gateway, numLights);
      luminaires := luminaires[id := luminaire];
      registered := registered + [luminaire];
      r := Ok(luminaire);
    }

    /**
      After a successful registration getLuminaire finds the new luminaire
      under its id, and every other id finds what it found before.
     */
    lemma RegistrationLookup(before: map<string, PLuminaire>, id: string, l: PLuminaire, other: string)
      requires luminaires == before[id := l]
      ensures GetLuminaire(id) == Some(l)
      ensures other != id ==> GetLuminaire(other) == (if other in before then Some(before[other]) else None)
    {
    }

    /** register: stores the application, after which registration is possible. */
    method Register()
      modifies this
      ensures initialized && luminaires == old(luminaires) && registered == old(registered)
    {
      initialized := true;
    }
  }
}
