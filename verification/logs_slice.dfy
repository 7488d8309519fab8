/**
  The `logs` slice of the client store (client/src/store/logsSlice.ts): one text
  per state log (ICE gathering, ICE connection, signalling), and `appendText`,
  which replaces the map by a copy whose entry for the id is extended with
  `-->` and the new text.
*/
module LogsSlice {
  /** A JavaScript `Record<string, string>`. */
  type Logs = map<string, string>

  const IceGatheringState: string := "ice-gathering-state"
  const IceConnectionState: string := "ice-connection-state"
  const SignalingState: string := "signaling-state"

  const Separator: string := "-->"

  /** The logs the slice starts with: the three state logs, all empty. */
  function InitialLogs(): (l: Logs)
    ensures l.Keys == {IceGatheringState, IceConnectionState, SignalingState}
    ensures forall k :: k in l ==> l[k] == ""
  {
    map[IceConnectionState := "", IceGatheringState := "", SignalingState := ""]
  }

  /** `state.logs[id]` as string concatenation sees it: a missing entry is `undefined`,
      which concatenation turns into the text "undefined". Every missing key is taken
      to be one not inherited from `Object.prototype` (an inherited `toString` would
      read as a function and print as its source text). */
  function Entry(logs: Logs, id: string): string
  {
    if id in logs then logs[id] else "undefined"
  }

  /** `appendText(id, text)`: the new `logs` is `{...logs, [id]: logs[id] + "-->" + text}`. */
  function AppendText(logs: Logs, id: string, text: string): (r: Logs)
    ensures r.Keys == logs.Keys + {id}
    ensures Entry(logs, id) <= r[id] && r[id][|Entry(logs, id)|..] == Separator + text
    ensures forall k :: k in logs && k != id ==> r[k] == logs[k]
  {
    logs[id := Entry(logs, id) + Separator + text]
  }

  /** A declared log only grows: the old text is a prefix of the new one, which is longer
      by the separator and the appended text. */
  lemma AppendGrows(logs: Logs, id: string, text: string)
    requires id in logs
    ensures logs[id] <= AppendText(logs, id, text)[id]
    ensures |AppendText(logs, id, text)[id]| == |logs[id]| + 3 + |text|
  {
  }

  /** Appends to the three state logs keep exactly those three keys. */
  lemma AppendKeepsStateLogs(logs: Logs, id: string, text: string)
    requires logs.Keys == InitialLogs().Keys
    requires id in logs
    ensures AppendText(logs, id, text).Keys == InitialLogs().Keys
  {
  }

  /** Two appends to one log read as the old text with both pieces, in order. */
  lemma AppendTwice(logs: Logs, id: string, a: string, b: string)
    ensures AppendText(AppendText(logs, id, a), id, b)[id] == Entry(logs, id) + Separator + a + Separator + b
  {
  }

  /** Appends to different logs do not interfere. */
  lemma AppendsCommute(logs: Logs, x: string, a: string, y: string, b: string)
    requires x != y
    ensures AppendText(AppendText(logs, x, a), y, b) == AppendText(AppendText(logs, y, b), x, a)
  {
  }

  /** An append to a log the slice did not declare (and whose name is not inherited from
      `Object.prototype`) starts from the text "undefined". */
  lemma AppendToUndeclared(id: string, text: string)
    requires id !in InitialLogs()
    ensures AppendText(InitialLogs(), id, text)[id] == "undefined-->" + text
  {
  }
}
