/**
  The selection parameters of the React client (client/src/providers/ParamContext.tsx):
  a string map that starts empty, and `setParam(key, value)`, whose state updater
  returns `{...prevParams, [key]: value}`.
*/
module ParamContext {
  type SelectorParams = map<string, string>

  /** `useState({})`: no parameter is set at first. */
  function InitialParams(): (p: SelectorParams)
    ensures |p| == 0
  {
    map[]
  }

  /** The updater `setParam(key, value)` passes to `setParams`. */
  function SetParam(params: SelectorParams, key: string, value: string): (r: SelectorParams)
    ensures r.Keys == params.Keys + {key}
    ensures r[key] == value
    ensures forall k :: k in params && k != key ==> r[k] == params[k]
  {
    params[key := value]
  }

  /** Setting the same value again changes nothing. */
  lemma SetParamIdempotent(params: SelectorParams, key: string, value: string)
    ensures SetParam(SetParam(params, key, value), key, value) == SetParam(params, key, value)
  {
  }

  /** Of two writes to one key, the last one wins. */
  lemma LastWriteWins(params: SelectorParams, key: string, first: string, second: string)
    ensures SetParam(SetParam(params, key, first), key, second) == SetParam(params, key, second)
  {
  }

  /** Writes to different keys commute. */
  lemma WritesToDifferentKeysCommute(params: SelectorParams, k1: string, v1: string, k2: string, v2: string)
    requires k1 != k2
    ensures SetParam(SetParam(params, k1, v1), k2, v2) == SetParam(SetParam(params, k2, v2), k1, v1)
  {
  }

  /** Writing back the value a key already holds gives the same map. */
  lemma SetCurrentValue(params: SelectorParams, key: string)
    requires key in params
    ensures SetParam(params, key, params[key]) == params
  {
  }
}
