/**
  The `params` slice of the client store (client/src/store/paramSlice.ts): six
  boolean switches keyed by name, and `toggleParam`, which replaces the map by a
  copy with one entry negated. The store's `set` merges only `params`, so the
  updater is modelled as a function from the old map to the new one.
*/
module ParamSlice {
  /** A JavaScript `Record<string, boolean>`; a key that is neither an own key nor a
      name inherited from `Object.prototype` reads as `undefined`. Inherited names
      (`constructor`, `toString`, ...) are not modelled: here every missing key is
      `undefined`. */
  type Params = map<string, bool>

  const UseDatachannel: string := "use-datachannel"
  const UseAudio: string := "use-audio"
  const UseVideo: string := "use-video"
  const UseStun: string := "use-stun"
  const ShowIceState: string := "show-ICE-state"
  const ShowSdp: string := "show-SDP"

  /** The switches the slice starts with. */
  function InitialParams(): (p: Params)
    ensures p.Keys == {UseDatachannel, UseAudio, UseVideo, UseStun, ShowIceState, ShowSdp}
    ensures forall k :: k in p ==> (p[k] <==> k == UseVideo || k == ShowIceState)
  {
    map[UseDatachannel := false, UseAudio := false, UseVideo := true,
        UseStun := false, ShowIceState := true, ShowSdp := false]
  }

  /** `!state.params[id]` reads true for a key the map does not hold (`!undefined`),
      taking every missing key to be one not inherited from `Object.prototype`. */
  predicate IsOn(params: Params, id: string)
  {
    id in params && params[id]
  }

  /** `toggleParam(id)`: the new `params` is `{...params, [id]: !params[id]}`. */
  function ToggleParam(params: Params, id: string): (r: Params)
    ensures r.Keys == params.Keys + {id}
    ensures IsOn(r, id) <==> !IsOn(params, id)
    ensures forall k :: k in params && k != id ==> r[k] == params[k]
  {
    params[id := !IsOn(params, id)]
  }

  /** Toggling a key the map holds twice gives back the same map. */
  lemma ToggleTwiceRestores(params: Params, id: string)
    requires id in params
    ensures ToggleParam(ToggleParam(params, id), id) == params
  {
    var twice := ToggleParam(ToggleParam(params, id), id);
    assert forall k :: k in params ==> twice[k] == params[k];
  }

  /** Toggling an unknown key adds it, switched on; toggling it again switches it off,
      so the map does not come back. */
  lemma ToggleUnknownKey(params: Params, id: string)
    requires id !in params
    ensures ToggleParam(params, id) == params[id := true]
    ensures ToggleParam(ToggleParam(params, id), id) == params[id := false]
    ensures ToggleParam(ToggleParam(params, id), id) != params
  {
    assert id in ToggleParam(ToggleParam(params, id), id);
  }

  /** Toggles of different keys commute. */
  lemma TogglesCommute(params: Params, a: string, b: string)
    requires a != b
    ensures ToggleParam(ToggleParam(params, a), b) == ToggleParam(ToggleParam(params, b), a)
  {
  }
}
