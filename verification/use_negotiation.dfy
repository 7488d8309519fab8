/**
  `negotiate()` of the React client's `useNegotiation` hook
  (client/src/hooks/useNegotiation.tsx) as a state machine driven by the settling
  of its promises and by platform events. It does nothing unless both the peer
  connection and the socket exist; then it runs

    createOffer → setLocalDescription → gathering gate → send (only when there is
    a local description) → answer listener (always),

  with a `catch` that logs any failure. No codec is filtered and no video
  transform is sent.
*/
module HookNegotiate {
  import opened Wrappers
  import opened Negotiation

  /** The offer as the hook sends it: `{sdp, type}`. */
  datatype OfferMessage = OfferMessage(sdp: string, sdpType: SdpType)

  class HookNegotiation {
    /** Whether the `pc` and `websocket` props are non-null. */
    const hasPeerConnection: bool
    const hasSocket: bool
    /** `pc.iceGatheringState`. */
    var gathering: GatheringState
    /** `pc.localDescription`. */
    var localDescription: Option<SessionDescription>
    /** `websocket.readyState`. */
    var socket: SocketState
    var stage: Stage
    /** The gathering gate of the current attempt, once created. */
    var gate: Option<Gate>
    /** The offers the socket transmitted. */
    var sent: seq<OfferMessage>
    /** The `message` listeners added to the socket. */
    var answerListeners: nat
    /** The descriptions passed to `pc.setRemoteDescription`, in order. */
    var remoteRequests: seq<SessionDescription>
    /** The failures the chain's `catch` logged. */
    var failures: nat
    /** The platform calls of the current attempt. */
    ghost var calls: seq<Call>
    /** The gathering state the gate was created in, and the events since. */
    ghost var armedIn: GatheringState
    ghost var gateEvents: seq<GatheringState>

    ghost predicate Valid()
      reads this
    {
      Consistent(stage, gate, calls, armedIn, gateEvents, true)
    }

    constructor(hasPeerConnection0: bool, hasSocket0: bool, gathering0: GatheringState, socket0: SocketState)
      ensures Valid()
      ensures hasPeerConnection == hasPeerConnection0 && hasSocket == hasSocket0
      ensures gathering == gathering0 && socket == socket0 && localDescription == None
      ensures stage == Idle && gate == None && sent == [] && answerListeners == 0
      ensures remoteRequests == [] && failures == 0
    {
      hasPeerConnection := hasPeerConnection0;
      hasSocket := hasSocket0;
      gathering := gathering0;
      localDescription := None;
      socket := socket0;
      stage := Idle;
      gate := None;
      sent := [];
      answerListeners := 0;
      remoteRequests := [];
      failures := 0;
      calls := [];
      armedIn := gathering0;
      gateEvents := [];
    }

    /** `negotiate()`: without both a peer connection and a socket it does nothing;
        otherwise it asks for an offer. A new attempt starts only once the previous chain
        has settled. */
    method Negotiate()
      requires Valid() && (stage.Idle? || stage.AwaitingAnswer? || stage.Failed?)
      modifies this
      ensures Valid()
      ensures !(hasPeerConnection && hasSocket) ==>
        stage == old(stage) && gate == old(gate) && calls == old(calls)
      ensures hasPeerConnection && hasSocket ==>
        stage == CreatingOffer && gate == None && calls == [CreateOffer]
      ensures gathering == old(gathering) && localDescription == old(localDescription) && socket == old(socket)
      ensures sent == old(sent) && answerListeners == old(answerListeners)
      ensures remoteRequests == old(remoteRequests) && failures == old(failures)
    {
      if hasPeerConnection && hasSocket {
        stage := CreatingOffer;
        gate := None;
        calls := [CreateOffer];
      }
    }

    /** `createOffer()` settles: with the offer, `setLocalDescription(offer)` is called;
        a rejection goes to the `catch`. */
    method OfferCreated(offer: Option<SessionDescription>)
      requires Valid() && stage.CreatingOffer?
      modifies this
      ensures Valid()
      ensures offer.None? ==> stage == Failed && failures == old(failures) + 1 && calls == old(calls)
      ensures offer.Some? ==>
        stage == SettingLocal(offer.value) && failures == old(failures) && calls == old(calls) + [SetLocalDescription]
      ensures gate == old(gate) && gathering == old(gathering) && localDescription == old(localDescription)
      ensures socket == old(socket) && sent == old(sent) && answerListeners == old(answerListeners)
      ensures remoteRequests == old(remoteRequests)
    {
      if offer.None? {
        stage := Failed;
        failures := failures + 1;
      } else {
        assert calls == [CreateOffer];
        stage := SettingLocal(offer.value);
        calls := [CreateOffer, SetLocalDescription];
      }
    }

    /** `setLocalDescription(offer)` settles. On success the offer is the local description
        and the gate is created: resolved at once when gathering is complete, otherwise
        waiting on a registered `checkState` listener. */
    method LocalDescriptionSettled(accepted: bool)
      requires Valid() && stage.SettingLocal?
      modifies this
      ensures Valid()
      ensures !accepted ==>
        stage == Failed && failures == old(failures) + 1 && gate == None &&
        localDescription == old(localDescription) && calls == old(calls)
      ensures accepted ==>
        && localDescription == Some(old(stage).offer)
        && gate == Some(ArmGate(gathering))
        && stage == (if gathering == Complete then GatheringDone else AwaitingGathering)
        && calls == old(calls) + (if gathering == Complete then [] else [AddGatheringListener])
        && failures == old(failures)
      ensures gathering == old(gathering) && socket == old(socket) && sent == old(sent)
      ensures answerListeners == old(answerListeners) && remoteRequests == old(remoteRequests)
    {
      if !accepted {
        stage := Failed;
        failures := failures + 1;
        return;
      }
      localDescription := Some(stage.offer);
      var g := ArmGate(gathering);
      ArmingConsistent(gathering, true);
      assert calls + GateCalls(g) == CallsThroughGate(g);
      gate := Some(g);
      armedIn := gathering;
      gateEvents := [];
      calls := CallsThroughGate(g);
      if g.resolved {
        stage := GatheringDone;
      } else {
        stage := AwaitingGathering;
      }
    }

    /** An `icegatheringstatechange` event: the gate's listener, if registered, reacts. */
    method GatheringChanged(state: GatheringState)
      requires Valid()
      modifies this
      ensures Valid()
      ensures gathering == state
      ensures gate == if old(gate).Some? then Some(OnGatheringChange(old(gate).value, state)) else None
      ensures stage == if old(stage).AwaitingGathering? && state == Complete then GatheringDone else old(stage)
      ensures calls == if old(stage).AwaitingGathering? && state == Complete then old(calls) + [RemoveGatheringListener] else old(calls)
      ensures localDescription == old(localDescription) && socket == old(socket) && sent == old(sent)
      ensures answerListeners == old(answerListeners) && remoteRequests == old(remoteRequests)
      ensures failures == old(failures)
    {
      gathering := state;
      if gate.None? {
        return;
      }
      var before := gate.value;
      if stage.AwaitingGathering? && state == Complete {
        // The listener removes itself and resolves the gate.
        GatheringCompleteConsistent(before, calls, armedIn, gateEvents, true);
        gate := Some(OnGatheringChange(before, state));
        calls := calls + [RemoveGatheringListener];
        stage := GatheringDone;
      } else {
        GatheringIgnoredConsistent(stage, before, calls, armedIn, gateEvents, state, true);
      }
      gateEvents := gateEvents + [state];
    }

    /** The step after the gate: send the local description's SDP and type when there is
        one, then listen for the answer in any case. A socket that is still connecting
        (`send` throws) sends the chain to its `catch`, before the listener is added. */
    method Continue()
      requires Valid() && stage.GatheringDone?
      modifies this
      ensures Valid()
      ensures localDescription.None? ==>
        && stage == AwaitingAnswer && failures == old(failures) && sent == old(sent)
        && answerListeners == old(answerListeners) + 1 && calls == old(calls) + [AddAnswerListener]
      ensures localDescription.Some? ==>
        SentAfterGate(OfferMessage(localDescription.value.sdp, localDescription.value.sdpType))
      ensures gate == old(gate) && gathering == old(gathering) && localDescription == old(localDescription)
      ensures socket == old(socket) && remoteRequests == old(remoteRequests)
    {
      var g := gate.value;
      AfterGateConsistent(g, armedIn, gateEvents, true);
      if localDescription.None? {
        answerListeners := answerListeners + 1;
        calls := CallsThroughGate(g) + [AddAnswerListener];
        stage := AwaitingAnswer;
        return;
      }
      var offer := localDescription.value;
      var outcome := SendOutcomeOf(socket);
      if outcome == Threw {
        calls := CallsThroughGate(g) + [Send];
        stage := Failed;
        failures := failures + 1;
        return;
      }
      if outcome == Transmitted {
        sent := sent + [OfferMessage(offer.sdp, offer.sdpType)];
      }
      answerListeners := answerListeners + 1;
      calls := CallsThroughGate(g) + [Send, AddAnswerListener];
      stage := AwaitingAnswer;
    }

    /** What `websocket.send(message)` and the listener registration after it leave
        behind, by the socket's state: a throw goes to the `catch`; otherwise the answer
        listener is added, and the message is on the wire only if the socket is open. */
    twostate predicate SentAfterGate(message: OfferMessage)
      reads this
    {
      match SendOutcomeOf(socket)
      case Threw =>
        stage == Failed && failures == old(failures) + 1 && sent == old(sent) &&
        answerListeners == old(answerListeners) && calls == old(calls) + [Send]
      case Transmitted =>
        stage == AwaitingAnswer && failures == old(failures) && sent == old(sent) + [message] &&
        answerListeners == old(answerListeners) + 1 && calls == old(calls) + [Send, AddAnswerListener]
      case Discarded =>
        stage == AwaitingAnswer && failures == old(failures) && sent == old(sent) &&
        answerListeners == old(answerListeners) + 1 && calls == old(calls) + [Send, AddAnswerListener]
    }

    /** A signalling message arrives: every answer listener parses it and passes it to
        `setRemoteDescription`, whose rejection is only logged. A message that does not
        parse makes each listener throw, outside the chain, and changes nothing. */
    method AnswerReceived(message: InboundMessage)
      requires Valid()
      modifies this
      ensures Valid()
      ensures message.Malformed? ==> remoteRequests == old(remoteRequests)
      ensures message.Parsed? ==>
        && |remoteRequests| == |old(remoteRequests)| + answerListeners
        && remoteRequests[..|old(remoteRequests)|] == old(remoteRequests)
        && forall i :: |old(remoteRequests)| <= i < |remoteRequests| ==> remoteRequests[i] == message.answer
      ensures stage == old(stage) && gate == old(gate) && calls == old(calls)
      ensures gathering == old(gathering) && localDescription == old(localDescription) && socket == old(socket)
      ensures sent == old(sent) && answerListeners == old(answerListeners) && failures == old(failures)
    {
      if message.Malformed? {
        return;
      }
      var requests := remoteRequests;
      for k := 0 to answerListeners
        invariant |requests| == |remoteRequests| + k
        invariant requests[..|remoteRequests|] == remoteRequests
        invariant forall i :: |remoteRequests| <= i < |requests| ==> requests[i] == message.answer
      {
        requests := requests + [message.answer];
      }
      remoteRequests := requests;
    }

    /** The socket's `readyState` changes. */
    method SocketChanged(state: SocketState)
      requires Valid()
      modifies this
      ensures Valid()
      ensures socket == state
      ensures stage == old(stage) && gate == old(gate) && calls == old(calls)
      ensures gathering == old(gathering) && localDescription == old(localDescription)
      ensures sent == old(sent) && answerListeners == old(answerListeners)
      ensures remoteRequests == old(remoteRequests) && failures == old(failures)
    {
      socket := state;
    }
  }
}
