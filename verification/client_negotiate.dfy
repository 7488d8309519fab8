/**
  `negotiate()` of the plain client (client.js:164-234) as a state machine driven
  by the settling of its promises and by platform events:

    createOffer → setLocalDescription → gathering gate → codec filters → send
    → answer listener,

  with a `catch` that logs and alerts any failure of the chain. The peer
  connection and the signalling socket are abstract state; the codec selections
  and the video transform, read from the page, are parameters.
*/
module ClientNegotiate {
  import opened Wrappers
  import opened Negotiation
  import SdpFilter
  import SdpFilterOrder

  /** The selection meaning "leave the codecs of this kind alone". */
  const DefaultCodec: string := "default"

  /** The offer as client.js sends it: `{sdp, type, video_transform}`. */
  datatype OfferMessage = OfferMessage(sdp: string, sdpType: SdpType, videoTransform: string)

  /** The SDP the client sends for a local description `sdp`: filtered to the audio
      codec when one is selected, then to the video codec when one is selected. */
  function OfferSdp(sdp: string, audioCodec: string, videoCodec: string): (r: string)
    ensures audioCodec == DefaultCodec && videoCodec == DefaultCodec ==> r == sdp
    ensures audioCodec != DefaultCodec && videoCodec == DefaultCodec ==>
      r == SdpFilter.FilterCodec(SdpFilter.Audio, audioCodec, sdp)
    ensures audioCodec == DefaultCodec && videoCodec != DefaultCodec ==>
      r == SdpFilter.FilterCodec(SdpFilter.Video, videoCodec, sdp)
  {
    var afterAudio := if audioCodec != DefaultCodec then SdpFilter.FilterCodec(SdpFilter.Audio, audioCodec, sdp) else sdp;
    if videoCodec != DefaultCodec then SdpFilter.FilterCodec(SdpFilter.Video, videoCodec, afterAudio) else afterAudio
  }

  /** With both codecs selected, the video filter runs on the output of the audio filter. */
  lemma OfferSdpFiltersAudioThenVideo(sdp: string, audioCodec: string, videoCodec: string)
    requires audioCodec != DefaultCodec && videoCodec != DefaultCodec
    ensures OfferSdp(sdp, audioCodec, videoCodec)
         == SdpFilter.FilterCodec(SdpFilter.Video, videoCodec, SdpFilter.FilterCodec(SdpFilter.Audio, audioCodec, sdp))
  {
  }

  /** The order of the two filters matters: on a body whose audio header carries an
      `a=rtpmap:` tag, the offer loses an audio line that the other order keeps. */
  lemma OfferSdpOrderMatters()
    ensures OfferSdp(SdpFilterOrder.MixedSdp, "o", "v") == "m=video x \n\n"
    ensures OfferSdp(SdpFilterOrder.MixedSdp, "o", "v")
         != SdpFilter.FilterCodec(SdpFilter.Audio, "o", SdpFilter.FilterCodec(SdpFilter.Video, "v", SdpFilterOrder.MixedSdp))
  {
    OfferSdpFiltersAudioThenVideo(SdpFilterOrder.MixedSdp, "o", "v");
    SdpFilterOrder.FiltersDoNotCommute();
  }

  /** Lines 203-211 of client.js: `offer.sdp` rewritten for each selected codec. */
  method FilterOffer(sdp: string, audioCodec: string, videoCodec: string) returns (r: string)
    ensures r == OfferSdp(sdp, audioCodec, videoCodec)
  {
    r := sdp;
    if audioCodec != DefaultCodec {
      r := SdpFilter.SdpFilterCodec(SdpFilter.Audio, audioCodec, r);
    }
    if videoCodec != DefaultCodec {
      r := SdpFilter.SdpFilterCodec(SdpFilter.Video, videoCodec, r);
    }
  }

  class ClientNegotiation {
    /** `pc.iceGatheringState`. */
    var gathering: GatheringState
    /** `pc.localDescription`. */
    var localDescription: Option<SessionDescription>
    /** `websocket.readyState`. */
    var socket: SocketState
    var stage: Stage
    /** The gathering gate of the current attempt, once created. */
    var gate: Option<Gate>
    /** The offers the socket transmitted. */
    var sent: seq<OfferMessage>
    /** The `message` listeners added to the socket. */
    var answerListeners: nat
    /** The descriptions passed to `pc.setRemoteDescription`, in order. */
    var remoteRequests: seq<SessionDescription>
    /** The failures the chain's `catch` logged and alerted. */
    var failures: nat
    /** The platform calls of the current attempt. */
    ghost var calls: seq<Call>
    /** The gathering state the gate was created in, and the events since. */
    ghost var armedIn: GatheringState
    ghost var gateEvents: seq<GatheringState>

    ghost predicate Valid()
      reads this
    {
      Consistent(stage, gate, calls, armedIn, gateEvents, false)
    }

    constructor(gathering0: GatheringState, socket0: SocketState)
      ensures Valid()
      ensures gathering == gathering0 && socket == socket0 && localDescription == None
      ensures stage == Idle && gate == None && sent == [] && answerListeners == 0
      ensures remoteRequests == [] && failures == 0
    {
      gathering := gathering0;
      localDescription := None;
      socket := socket0;
      stage := Idle;
      gate := None;
      sent := [];
      answerListeners := 0;
      remoteRequests := [];
      failures := 0;
      calls := [];
      armedIn := gathering0;
      gateEvents := [];
    }

    /** `negotiate()`: asks for an offer. A new attempt starts only once the previous
        chain has settled. */
    method Negotiate()
      requires Valid() && (stage.Idle? || stage.AwaitingAnswer? || stage.Failed?)
      modifies this
      ensures Valid()
      ensures stage == CreatingOffer && gate == None && calls == [CreateOffer]
      ensures gathering == old(gathering) && localDescription == old(localDescription) && socket == old(socket)
      ensures sent == old(sent) && answerListeners == old(answerListeners)
      ensures remoteRequests == old(remoteRequests) && failures == old(failures)
    {
      stage := CreatingOffer;
      gate := None;
      calls := [CreateOffer];
    }

    /** `createOffer()` settles: with the offer, `setLocalDescription(offer)` is called;
        a rejection goes to the `catch`. */
    method OfferCreated(offer: Option<SessionDescription>)
      requires Valid() && stage.CreatingOffer?
      modifies this
      ensures Valid()
      ensures offer.None? ==> stage == Failed && failures == old(failures) + 1 && calls == old(calls)
      ensures offer.Some? ==>
        stage == SettingLocal(offer.value) && failures == old(failures) && calls == old(calls) + [SetLocalDescription]
      ensures gate == old(gate) && gathering == old(gathering) && localDescription == old(localDescription)
      ensures socket == old(socket) && sent == old(sent) && answerListeners == old(answerListeners)
      ensures remoteRequests == old(remoteRequests)
    {
      if offer.None? {
        stage := Failed;
        failures := failures + 1;
      } else {
        assert calls == [CreateOffer];
        stage := SettingLocal(offer.value);
        calls := [CreateOffer, SetLocalDescription];
      }
    }

    /** `setLocalDescription(offer)` settles. On success the offer is the local description
        and the gate is created: resolved at once when gathering is complete, otherwise
        waiting on a registered `checkState` listener. */
    method LocalDescriptionSettled(accepted: bool)
      requires Valid() && stage.SettingLocal?
      modifies this
      ensures Valid()
      ensures !accepted ==>
        stage == Failed && failures == old(failures) + 1 && gate == None &&
        localDescription == old(localDescription) && calls == old(calls)
      ensures accepted ==>
        && localDescription == Some(old(stage).offer)
        && gate == Some(ArmGate(gathering))
        && stage == (if gathering == Complete then GatheringDone else AwaitingGathering)
        && calls == old(calls) + (if gathering == Complete then [] else [AddGatheringListener])
        && failures == old(failures)
      ensures gathering == old(gathering) && socket == old(socket) && sent == old(sent)
      ensures answerListeners == old(answerListeners) && remoteRequests == old(remoteRequests)
    {
      if !accepted {
        stage := Failed;
        failures := failures + 1;
        return;
      }
      localDescription := Some(stage.offer);
      var g := ArmGate(gathering);
      ArmingConsistent(gathering, false);
      assert calls + GateCalls(g) == CallsThroughGate(g);
      gate := Some(g);
      armedIn := gathering;
      gateEvents := [];
      calls := CallsThroughGate(g);
      if g.resolved {
        stage := GatheringDone;
      } else {
        stage := AwaitingGathering;
      }
    }

    /** An `icegatheringstatechange` event: the gate's listener, if registered, reacts. */
    method GatheringChanged(state: GatheringState)
      requires Valid()
      modifies this
      ensures Valid()
      ensures gathering == state
      ensures gate == if old(gate).Some? then Some(OnGatheringChange(old(gate).value, state)) else None
      ensures stage == if old(stage).AwaitingGathering? && state == Complete then GatheringDone else old(stage)
      ensures calls == if old(stage).AwaitingGathering? && state == Complete then old(calls) + [RemoveGatheringListener] else old(calls)
      ensures localDescription == old(localDescription) && socket == old(socket) && sent == old(sent)
      ensures answerListeners == old(answerListeners) && remoteRequests == old(remoteRequests)
      ensures failures == old(failures)
    {
      gathering := state;
      if gate.None? {
        return;
      }
      var before := gate.value;
      if stage.AwaitingGathering? && state == Complete {
        // The listener removes itself and resolves the gate.
        GatheringCompleteConsistent(before, calls, armedIn, gateEvents, false);
        gate := Some(OnGatheringChange(before, state));
        calls := calls + [RemoveGatheringListener];
        stage := GatheringDone;
      } else {
        GatheringIgnoredConsistent(stage, before, calls, armedIn, gateEvents, state, false);
      }
      gateEvents := gateEvents + [state];
    }

    /** The step after the gate: filter the local description's SDP to the selected
        codecs, send it with its type and the video transform, and listen for the answer.
        A null local description (a `TypeError`) or a socket that is still connecting
        (`send` throws) sends the chain to its `catch`. */
    method Continue(audioCodec: string, videoCodec: string, videoTransform: string)
      requires Valid() && stage.GatheringDone?
      modifies this
      ensures Valid()
      ensures old(localDescription).None? ==>
        stage == Failed && failures == old(failures) + 1 && sent == old(sent) &&
        answerListeners == old(answerListeners) && calls == old(calls)
      ensures old(localDescription).Some? ==>
        var offer := old(localDescription).value;
        SentAfterGate(OfferMessage(OfferSdp(offer.sdp, audioCodec, videoCodec), offer.sdpType, videoTransform))
      ensures gate == old(gate) && gathering == old(gathering) && localDescription == old(localDescription)
      ensures socket == old(socket) && remoteRequests == old(remoteRequests)
    {
      if localDescription.None? {
        stage := Failed;
        failures := failures + 1;
        return;
      }
      var offer := localDescription.value;
      var sdp := FilterOffer(offer.sdp, audioCodec, videoCodec);
      SendOffer(OfferMessage(sdp, offer.sdpType, videoTransform));
    }

    /** What `websocket.send(message)` and the listener registration after it leave
        behind, by the socket's state: a throw goes to the `catch`; otherwise the answer
        listener is added, and the message is on the wire only if the socket is open. */
    twostate predicate SentAfterGate(message: OfferMessage)
      reads this
    {
      match SendOutcomeOf(socket)
      case Threw =>
        stage == Failed && failures == old(failures) + 1 && sent == old(sent) &&
        answerListeners == old(answerListeners) && calls == old(calls) + [Send]
      case Transmitted =>
        stage == AwaitingAnswer && failures == old(failures) && sent == old(sent) + [message] &&
        answerListeners == old(answerListeners) + 1 && calls == old(calls) + [Send, AddAnswerListener]
      case Discarded =>
        stage == AwaitingAnswer && failures == old(failures) && sent == old(sent) &&
        answerListeners == old(answerListeners) + 1 && calls == old(calls) + [Send, AddAnswerListener]
    }

    method SendOffer(message: OfferMessage)
      requires Valid() && stage.GatheringDone?
      modifies this
      ensures Valid()
      ensures SentAfterGate(message)
      ensures gate == old(gate) && gathering == old(gathering) && localDescription == old(localDescription)
      ensures socket == old(socket) && remoteRequests == old(remoteRequests)
    {
      var g := gate.value;
      AfterGateConsistent(g, armedIn, gateEvents, false);
      var outcome := SendOutcomeOf(socket);
      if outcome == Threw {
        calls := CallsThroughGate(g) + [Send];
        stage := Failed;
        failures := failures + 1;
        return;
      }
      if outcome == Transmitted {
        sent := sent + [message];
      }
      answerListeners := answerListeners + 1;
      calls := CallsThroughGate(g) + [Send, AddAnswerListener];
      stage := AwaitingAnswer;
    }

    /** A signalling message arrives: every answer listener parses it and passes it to
        `setRemoteDescription`, whose rejection is only logged. A message that does not
        parse makes each listener throw, outside the chain, and changes nothing. */
    method AnswerReceived(message: InboundMessage)
      requires Valid()
      modifies this
      ensures Valid()
      ensures message.Malformed? ==> remoteRequests == old(remoteRequests)
      ensures message.Parsed? ==>
        && |remoteRequests| == |old(remoteRequests)| + answerListeners
        && remoteRequests[..|old(remoteRequests)|] == old(remoteRequests)
        && forall i :: |old(remoteRequests)| <= i < |remoteRequests| ==> remoteRequests[i] == message.answer
      ensures stage == old(stage) && gate == old(gate) && calls == old(calls)
      ensures gathering == old(gathering) && localDescription == old(localDescription) && socket == old(socket)
      ensures sent == old(sent) && answerListeners == old(answerListeners) && failures == old(failures)
    {
      if message.Malformed? {
        return;
      }
      var requests := remoteRequests;
      for k := 0 to answerListeners
        invariant |requests| == |remoteRequests| + k
        invariant requests[..|remoteRequests|] == remoteRequests
        invariant forall i :: |remoteRequests| <= i < |requests| ==> requests[i] == message.answer
      {
        requests := requests + [message.answer];
      }
      remoteRequests := requests;
    }

    /** The socket's `readyState` changes. */
    method SocketChanged(state: SocketState)
      requires Valid()
      modifies this
      ensures Valid()
      ensures socket == state
      ensures stage == old(stage) && gate == old(gate) && calls == old(calls)
      ensures gathering == old(gathering) && localDescription == old(localDescription)
      ensures sent == old(sent) && answerListeners == old(answerListeners)
      ensures remoteRequests == old(remoteRequests) && failures == old(failures)
    {
      socket := state;
    }
  }
}
