/**
  What both versions of `negotiate` (client.js and the React hook useNegotiation.tsx)
  share: the abstract peer connection and signalling socket they drive, the order
  of the calls they make, and the ICE-gathering gate, a promise that resolves once
  the peer connection's `iceGatheringState` is `complete`.

  The gate resolves at once when gathering is already complete. Otherwise it
  registers a `checkState` listener for `icegatheringstatechange`; the listener
  ignores every state but `complete`, and on the first `complete` removes itself
  and resolves.
*/
module Negotiation {
  import opened Wrappers

  // ---------------------------------------------------------------------------
  // The platform, as abstract state
  // ---------------------------------------------------------------------------

  /** `RTCPeerConnection.iceGatheringState`. */
  datatype GatheringState = New | Gathering | Complete

  datatype SdpType = Offer | Answer | PrAnswer | Rollback

  /** An `RTCSessionDescription`. */
  datatype SessionDescription = SessionDescription(sdpType: SdpType, sdp: string)

  /** `WebSocket.readyState`. */
  datatype SocketState = Connecting | Open | Closing | Closed

  /** What `WebSocket.send` does: it throws while the socket is connecting, transmits
      while it is open, and discards the data once it is closing or closed. */
  datatype SendOutcome = Transmitted | Discarded | Threw

  function SendOutcomeOf(socket: SocketState): (r: SendOutcome)
    ensures r == Threw <==> socket == Connecting
    ensures r == Transmitted <==> socket == Open
  {
    match socket
    case Connecting => Threw
    case Open => Transmitted
    case Closing => Discarded
    case Closed => Discarded
  }

  /** A signalling message as the `message` listener sees it after `JSON.parse`:
      a session description, or text that does not parse into one (the listener throws). */
  datatype InboundMessage = Parsed(answer: SessionDescription) | Malformed

  // ---------------------------------------------------------------------------
  // Order of the calls
  // ---------------------------------------------------------------------------

  /** The platform calls of one negotiation attempt. */
  datatype Call =
    | CreateOffer
    | SetLocalDescription
    | AddGatheringListener
    | RemoveGatheringListener
    | Send
    | AddAnswerListener

  /** Position of a call in the promise chain. */
  function Rank(c: Call): (r: nat)
    ensures r < 6
  {
    match c
    case CreateOffer => 0
    case SetLocalDescription => 1
    case AddGatheringListener => 2
    case RemoveGatheringListener => 3
    case Send => 4
    case AddAnswerListener => 5
  }

  /** Each call made at most once, and in the order of the chain. */
  predicate InChainOrder(calls: seq<Call>)
  {
    forall i, j :: 0 <= i < j < |calls| ==> Rank(calls[i]) < Rank(calls[j])
  }

  // ---------------------------------------------------------------------------
  // The gathering gate
  // ---------------------------------------------------------------------------

  /**
    The gate of one attempt: whether `checkState` is registered, whether the
    promise is resolved, and how many times the listener was registered and
    removed and `resolve` was called.
  */
  datatype Gate = Gate(listening: bool, resolved: bool, registrations: nat, removals: nat, resolutions: nat)

  /** One removal per registration, one resolution at most, and the promise is resolved
      exactly when no listener is waiting. */
  predicate GateInvariant(g: Gate)
  {
    && g.registrations <= 1
    && g.removals <= g.registrations
    && (g.listening <==> g.registrations == 1 && g.removals == 0)
    && (g.resolved <==> g.resolutions == 1)
    && g.resolutions <= 1
    && (g.resolved <==> !g.listening)
  }

  /** `new Promise(resolve => ...)` run when gathering is in `state`. */
  function ArmGate(state: GatheringState): (g: Gate)
    ensures GateInvariant(g)
    ensures g.resolved <==> state == Complete
    ensures g.registrations == (if state == Complete then 0 else 1) && g.removals == 0
  {
    if state == Complete then Gate(false, true, 0, 0, 1)
    else Gate(true, false, 1, 0, 0)
  }

  /** An `icegatheringstatechange` event that leaves gathering in `state`. Only a
      registered listener reacts, and only to `complete`. */
  function OnGatheringChange(g: Gate, state: GatheringState): (r: Gate)
    requires GateInvariant(g)
    ensures GateInvariant(r)
    ensures r.resolved <==> g.resolved || (g.listening && state == Complete)
    ensures r.registrations == g.registrations
    ensures !(g.listening && state == Complete) ==> r == g
  {
    if g.listening && state == Complete then
      g.(listening := false, resolved := true, removals := g.removals + 1, resolutions := g.resolutions + 1)
    else g
  }

  /** The gate armed in `initial`, after the events `events`, in order. */
  function RunGate(initial: GatheringState, events: seq<GatheringState>): (g: Gate)
    ensures GateInvariant(g)
    decreases |events|
  {
    if events == [] then ArmGate(initial)
    else OnGatheringChange(RunGate(initial, events[..|events| - 1]), events[|events| - 1])
  }

  /** The gate resolves exactly when gathering was complete when it was armed or became
      complete afterwards. */
  lemma {:induction false} GateResolvesIffComplete(initial: GatheringState, events: seq<GatheringState>)
    ensures RunGate(initial, events).resolved <==> initial == Complete || Complete in events
    decreases |events|
  {
    if events != [] {
      var front := events[..|events| - 1];
      GateResolvesIffComplete(initial, front);
      assert events == front + [events[|events| - 1]];
      assert Complete in events <==> Complete in front || events[|events| - 1] == Complete;
    }
  }

  /** Events that are not `complete` leave the gate as it is. */
  lemma {:induction false} GateIgnoresOtherStates(initial: GatheringState, events: seq<GatheringState>)
    requires Complete !in events
    ensures RunGate(initial, events) == ArmGate(initial)
    decreases |events|
  {
    if events != [] {
      assert Complete !in events[..|events| - 1];
      GateIgnoresOtherStates(initial, events[..|events| - 1]);
    }
  }

  /** Once resolved, the gate does not change, whatever events follow: a second
      `complete` finds no listener. */
  lemma {:induction false} ResolvedGateIsStable(initial: GatheringState, events: seq<GatheringState>, more: seq<GatheringState>)
    requires RunGate(initial, events).resolved
    ensures RunGate(initial, events + more) == RunGate(initial, events)
    decreases |more|
  {
    if more != [] {
      var front := more[..|more| - 1];
      var all := events + more;
      assert all[..|all| - 1] == events + front;
      assert all[|all| - 1] == more[|more| - 1];
      ResolvedGateIsStable(initial, events, front);
      assert RunGate(initial, all) == OnGatheringChange(RunGate(initial, events + front), more[|more| - 1]);
    } else {
      assert events + more == events;
    }
  }

  /** A resolved gate removed every listener it registered, and called `resolve` once. */
  lemma GateCleansUp(initial: GatheringState, events: seq<GatheringState>)
    ensures RunGate(initial, events).resolved ==>
      RunGate(initial, events).removals == RunGate(initial, events).registrations &&
      RunGate(initial, events).resolutions == 1
  {
    var g := RunGate(initial, events);
    assert GateInvariant(g);
  }

  // ---------------------------------------------------------------------------
  // The calls of an attempt, stage by stage
  // ---------------------------------------------------------------------------

  /** The listener calls the gate has made: a registration, and its removal once resolved. */
  function GateCalls(g: Gate): (calls: seq<Call>)
    requires GateInvariant(g)
    ensures AddGatheringListener in calls <==> g.registrations == 1
    ensures RemoveGatheringListener in calls <==> g.removals == 1
  {
    if g.registrations == 0 then []
    else if g.removals == 0 then [AddGatheringListener]
    else [AddGatheringListener, RemoveGatheringListener]
  }

  /** The calls made up to and including the gate: the offer, the local description, then
      the gate's own listener calls. */
  function CallsThroughGate(g: Gate): seq<Call>
    requires GateInvariant(g)
  {
    [CreateOffer, SetLocalDescription] + GateCalls(g)
  }

  /** Once the gate is resolved, the calls so far, followed by the send and the answer
      listener, are in chain order, and every listener the gate registered is removed. */
  lemma ChainThroughResolvedGate(g: Gate)
    requires GateInvariant(g) && g.resolved
    ensures InChainOrder(CallsThroughGate(g) + [Send, AddAnswerListener])
    ensures AddGatheringListener in CallsThroughGate(g) ==> RemoveGatheringListener in CallsThroughGate(g)
  {
    var calls := CallsThroughGate(g) + [Send, AddAnswerListener];
    if g.registrations == 0 {
      assert calls == [CreateOffer, SetLocalDescription, Send, AddAnswerListener];
    } else {
      assert calls == [CreateOffer, SetLocalDescription, AddGatheringListener, RemoveGatheringListener, Send, AddAnswerListener];
    }
  }

  /** While the gate waits, the calls so far are in chain order. */
  lemma ChainThroughWaitingGate(g: Gate)
    requires GateInvariant(g) && g.listening
    ensures CallsThroughGate(g) == [CreateOffer, SetLocalDescription, AddGatheringListener]
  {
  }

  /** Skipping the send keeps the calls in chain order. */
  lemma SkipSendKeepsOrder(g: Gate)
    requires GateInvariant(g) && g.resolved
    ensures InChainOrder(CallsThroughGate(g) + [AddAnswerListener])
  {
    ChainThroughResolvedGate(g);
    var full := CallsThroughGate(g) + [Send, AddAnswerListener];
    var skipped := CallsThroughGate(g) + [AddAnswerListener];
    forall i, j | 0 <= i < j < |skipped| ensures Rank(skipped[i]) < Rank(skipped[j]) {
      var i' := if i < |skipped| - 1 then i else i + 1;
      var j' := if j < |skipped| - 1 then j else j + 1;
      assert skipped[i] == full[i'] && skipped[j] == full[j'];
    }
  }

  // ---------------------------------------------------------------------------
  // An attempt, stage by stage
  // ---------------------------------------------------------------------------

  /** Where the promise chain of an attempt stands. */
  datatype Stage =
    | Idle
    | CreatingOffer
    | SettingLocal(offer: SessionDescription)
    | AwaitingGathering
    | GatheringDone
    | AwaitingAnswer
    | Failed

  /** The calls an attempt at `stage` with `gate` may have made so far; none when the
      gate does not fit the stage (a waiting stage needs a listening gate, a later stage
      a resolved one). `skipSend` says whether the answer listener may be added without a
      send, as in the hook when there is no local description. */
  ghost function StageCalls(stage: Stage, gate: Option<Gate>, skipSend: bool): set<seq<Call>>
  {
    match stage
    case Idle => if gate.None? then {[]} else {}
    case CreatingOffer => if gate.None? then {[CreateOffer]} else {}
    case SettingLocal(_) => if gate.None? then {[CreateOffer, SetLocalDescription]} else {}
    case AwaitingGathering =>
      if gate.Some? && gate.value.listening && GateInvariant(gate.value) then {CallsThroughGate(gate.value)} else {}
    case GatheringDone =>
      if gate.Some? && gate.value.resolved && GateInvariant(gate.value) then {CallsThroughGate(gate.value)} else {}
    case AwaitingAnswer =>
      if gate.Some? && gate.value.resolved && GateInvariant(gate.value) then
        {CallsThroughGate(gate.value) + [Send, AddAnswerListener]} +
        (if skipSend then {CallsThroughGate(gate.value) + [AddAnswerListener]} else {})
      else {}
    case Failed =>
      if gate.None? then {[CreateOffer], [CreateOffer, SetLocalDescription]}
      else if gate.value.resolved && GateInvariant(gate.value)
      then {CallsThroughGate(gate.value), CallsThroughGate(gate.value) + [Send]}
      else {}
  }

  /** The calls of an attempt and its gate agree with the stage it has reached; the gate
      is the one armed in `armedIn` after the events `gateEvents`. */
  ghost predicate Consistent(stage: Stage, gate: Option<Gate>, calls: seq<Call>,
                             armedIn: GatheringState, gateEvents: seq<GatheringState>, skipSend: bool)
  {
    && InChainOrder(calls)
    && (gate.Some? ==> gate.value == RunGate(armedIn, gateEvents))
    && calls in StageCalls(stage, gate, skipSend)
  }

  /** Arming the gate once the local description is set leaves a consistent attempt: it
      waits on the listener unless gathering is already complete. */
  lemma ArmingConsistent(state: GatheringState, skipSend: bool)
    ensures var g := ArmGate(state);
      Consistent(if g.resolved then GatheringDone else AwaitingGathering, Some(g), CallsThroughGate(g), state, [], skipSend)
  {
    var g := ArmGate(state);
    if g.resolved {
      ChainThroughResolvedGate(g);
      assert CallsThroughGate(g) == (CallsThroughGate(g) + [Send, AddAnswerListener])[..2];
    }
  }

  /** A `complete` event while the attempt waits on the gate resolves it: the listener
      removes itself and the attempt moves on. */
  lemma GatheringCompleteConsistent(gate: Gate, calls: seq<Call>, armedIn: GatheringState,
                                    gateEvents: seq<GatheringState>, skipSend: bool)
    requires Consistent(AwaitingGathering, Some(gate), calls, armedIn, gateEvents, skipSend)
    ensures Consistent(GatheringDone, Some(OnGatheringChange(gate, Complete)),
                       calls + [RemoveGatheringListener], armedIn, gateEvents + [Complete], skipSend)
  {
    var g := OnGatheringChange(gate, Complete);
    var events := gateEvents + [Complete];
    assert events[..|gateEvents|] == gateEvents;
    assert RunGate(armedIn, events) == g;
    ChainThroughWaitingGate(gate);
    assert CallsThroughGate(g) == calls + [RemoveGatheringListener];
  }

  /** Any other gathering event leaves the gate and the attempt as they are. */
  lemma GatheringIgnoredConsistent(stage: Stage, gate: Gate, calls: seq<Call>, armedIn: GatheringState,
                                   gateEvents: seq<GatheringState>, state: GatheringState, skipSend: bool)
    requires Consistent(stage, Some(gate), calls, armedIn, gateEvents, skipSend)
    requires !(stage.AwaitingGathering? && state == Complete)
    ensures OnGatheringChange(gate, state) == gate
    ensures Consistent(stage, Some(gate), calls, armedIn, gateEvents + [state], skipSend)
  {
    var events := gateEvents + [state];
    assert events[..|gateEvents|] == gateEvents;
    assert RunGate(armedIn, events) == OnGatheringChange(gate, state);
  }

  /** What may follow a resolved gate: the send and then the answer listener, the send
      alone when it throws, or (with `skipSend`) the listener alone. */
  lemma AfterGateConsistent(gate: Gate, armedIn: GatheringState, gateEvents: seq<GatheringState>, skipSend: bool)
    requires GateInvariant(gate)
    requires Consistent(GatheringDone, Some(gate), CallsThroughGate(gate), armedIn, gateEvents, skipSend)
    ensures Consistent(Failed, Some(gate), CallsThroughGate(gate) + [Send], armedIn, gateEvents, skipSend)
    ensures Consistent(AwaitingAnswer, Some(gate), CallsThroughGate(gate) + [Send, AddAnswerListener],
                       armedIn, gateEvents, skipSend)
    ensures skipSend ==>
      Consistent(AwaitingAnswer, Some(gate), CallsThroughGate(gate) + [AddAnswerListener], armedIn, gateEvents, skipSend)
  {
    ChainThroughResolvedGate(gate);
    var full := CallsThroughGate(gate) + [Send, AddAnswerListener];
    assert CallsThroughGate(gate) + [Send] == full[..|full| - 1];
    if skipSend {
      SkipSendKeepsOrder(gate);
    }
  }

  /** Nothing is sent before the gate resolves: an attempt that has called `send` has a
      resolved gate, after the offer and the local description, with every gathering
      listener removed. */
  lemma SendFollowsGate(stage: Stage, gate: Option<Gate>, calls: seq<Call>,
                        armedIn: GatheringState, gateEvents: seq<GatheringState>, skipSend: bool)
    requires Consistent(stage, gate, calls, armedIn, gateEvents, skipSend)
    ensures Send in calls ==>
      && gate.Some? && gate.value.resolved
      && CreateOffer in calls && SetLocalDescription in calls
      && (AddGatheringListener in calls ==> RemoveGatheringListener in calls)
  {
    if Send in calls && gate.Some? {
      var through := CallsThroughGate(gate.value);
      assert through <= calls;
      assert through[0] == CreateOffer && through[1] == SetLocalDescription;
      assert calls[0] == through[0] && calls[1] == through[1];
      if AddGatheringListener in calls {
        assert gate.value.registrations == 1;
        assert RemoveGatheringListener in through;
      }
    }
  }

  /** While an attempt waits on the gate, gathering has not been complete since the gate
      was armed. */
  lemma WaitingMeansNotComplete(stage: Stage, gate: Option<Gate>, calls: seq<Call>,
                                armedIn: GatheringState, gateEvents: seq<GatheringState>, skipSend: bool)
    requires Consistent(stage, gate, calls, armedIn, gateEvents, skipSend) && stage.AwaitingGathering?
    ensures armedIn != Complete && Complete !in gateEvents
  {
    GateResolvesIffComplete(armedIn, gateEvents);
  }
}
