# webrtc-showcase, modelled in Dafny

This project models the logic at the centre of the webrtc-showcase client and server. Four parts are covered.

- **SDP codec filter.** `sdpFilterCodec` and `escapeRegExp` in client.js restrict the audio or video sections of an SDP offer (RFC 4566) to one codec. They also keep the retransmission formats whose `apt=` parameter points at that codec (RFC 4588, section 8). The filter splits the body on `'\n'` and makes two passes over the lines:
  - the collect pass builds the ordered list `allowed`;
  - the rewrite pass drops the `a=fmtp`, `a=rtcp-fb` and `a=rtpmap` lines of other payload types, and rewrites every header's payload list to `allowed`.

  Both passes are `for` loops in the source, and both are methods with loop invariants here. Each is proved equal to a function over the lines. The four regular expressions are modelled as leftmost-position searches, and each has a matcher that states what the pattern accepts at one position.
- **Negotiation.** There are two versions: `negotiate` in client.js and the `useNegotiation` hook. Each is a class driven by the settling of its promises and by platform events: offer, local description, ICE-gathering gate, send, then answer listener. The gate is shared by both. It is a promise that resolves at once when gathering is complete. Otherwise it registers a listener that removes itself on the first `complete`. The gate is modelled as pure functions plus a fold over gathering events, and each class keeps its gate equal to that fold. Both classes keep one invariant, `Consistent`. It ties the stage of an attempt to the calls made so far. The hook's invariant differs only in that it may add the answer listener without sending. The hook itself also does nothing unless `pc` and `websocket` are both non-null, and it sends the unfiltered `{sdp, type}` with no `video_transform`.
- **Ping/pong.** The server (server.py) answers a `ping...` text with `pong` plus the rest of the text. The client reads its stamp back with `parseInt`.
- **Store updaters.** Three map-to-map updates: `toggleParam` (paramSlice.ts), `appendText` (logsSlice.ts) and `setParam` (ParamContext.tsx).

Files:
- js_string.dfy: JavaScript string semantics (digits, `\s`, `split`, `join`, `String(n)`, `parseInt`).
- regexp_escape.dfy: `escapeRegExp`.
- sdp_filter.dfy: the filter.
- sdp_filter_props.dfy and sdp_allowed.dfy: its properties.
- sdp_filter_order.dfy: the audio and the video filter applied in both orders to one body.
- negotiation.dfy: the gate and the call order.
- client_negotiate.dfy and use_negotiation.dfy: the two negotiation classes.
- ping_pong.dfy, param_slice.dfy, logs_slice.dfy, param_context.dfy: the ping/pong rule and the three stores.

Three properties one might expect of this filter do not hold of the code:
- **Not idempotent.** Every piece of the split body is written back followed by `'\n'`, including the empty piece after a final newline. So the output is neither byte-identical to the input nor idempotent. `FilterNotIdempotent` and `NoTargetSectionAppendsNewline` state this.
- **A header's new list need not come from its own old list.** `allowed` is built from `a=rtpmap`/`a=fmtp` lines, and one list is shared by every section of the kind.
- **Filtering audio then video need not equal filtering video then audio.** In the rewrite pass the attribute test runs before the header test. So an `m=audio` header whose text holds `a=rtpmap:N`, with N not allowed, is dropped by the audio filter. The lines of that audio section then follow the video header and are read as video lines. Take the body `m=video x\nm=audio a=rtpmap:2\na=rtpmap:3 o`, audio codec `o` and video codec `v`:
  - audio then video, the order client.js uses, gives `"m=video x \n\n"`;
  - video then audio gives `"m=video x \na=rtpmap:3 o\n\n"`.

  `FiltersDoNotCommute` and `OfferSdpOrderMatters` state this.

## Model

| member | source | states |
|---|---|---|
| RegExpEscape.EscapeRegExp | client.js:500-502 | the escaped text is at least as long as the name |
| RegExpEscape.EscapedIsLiteral | client.js:424 | the escaped name, used as a pattern, matches exactly the name: every syntax character is escaped |
| RegExpEscape.LiteralIsEscaped | client.js:500-502 | a pattern built of ordinary characters and escaped syntax characters that reads as t is the escape of t, so exactly the characters of `.*+?^${}()\|[]\` are escaped |
| JsString.DigitRunLength | client.js:424 | `[0-9]+` is greedy: the run is all digits and the next character is not a digit |
| JsString.NatToString | client.js:298 | the decimal form of a number is non-empty digits, with no leading zero |
| JsString.DigitsValueOfNatToString | client.js:298 | reading the decimal form back gives the number |
| JsString.ParseIntOfNatToString | client.js:307 | `parseInt` of a decimal form followed by a non-digit gives the number |
| JsString.TrimStart | client.js:307 | `parseInt` skips exactly the leading white space |
| JsString.ParseInt | client.js:307 | `parseInt(s, 10)`: leading white space, an optional sign, then the longest digit run; none without a digit. Its meaning on printed numbers is `ParseIntOfNatToString` |
| JsString.SplitJoin | client.js:437 | splitting the join of newline-free pieces gives the pieces back |
| JsString.Split | client.js:437 | `split('\n')` gives at least one piece, no piece holds `'\n'`, and joining the pieces with `'\n'` gives the body back |
| JsString.JoinNumbers | client.js:482 | `allowed.join(' ')`: the decimal forms separated by single spaces. Its shape in a rewritten header is `HeaderRewrite` |
| SdpFilter.Leftmost | client.js:448 | an unanchored match is at the leftmost matching position; none means no position matches |
| SdpFilter.LazyCut | client.js:428 | `.*?` stops at the first cut after which the rest is a payload list plus white space, and never crosses a line terminator |
| SdpFilter.HeaderGroupEnd | client.js:428 | group 1 of a header match lies between the end of `m=<kind> ` and the end of the line |
| SdpFilter.CodecPayloadType | client.js:448-450 | the payload type `codecRegex` captures at its leftmost match, or none. Its meaning on rtpmap lines is `CodecOfRtpmapLine` |
| SdpFilter.RtxPayloadTypes | client.js:453-455 | the pair (payload type, `apt`) `rtxRegex` captures at its leftmost match, or none. Its meaning on fmtp lines is `RtxOfFmtpLine` |
| SdpFilter.AttributePayloadType | client.js:478-479 | the payload type `skipRegex` captures at its leftmost match, or none. Its meaning is `AttributeOfTaggedLine` and `NoAttributeWithoutEquals` |
| SdpFilter.IsPayloadListTail | client.js:428 | the strings `( ([0-9]+))*\s*$` accepts at the end of a line: space-prefixed numbers, then white space. `SpacedNumbersAreTail` and `TailCharacters` state it |
| SdpFilter.NextInKind | client.js:441-445 | the `isKind` update of one line: a header of the kind sets it, any other `m=` line clears it, other lines keep it |
| SdpFilter.InKind | client.js:441-445 | the `isKind` flag after a run of lines. Its meaning is `InKindIffInSection` |
| SdpFilter.CollectLine | client.js:447-456 | one in-scope step of the collect pass. Its meaning is `CollectLineAppends` |
| SdpFilter.Allowed | client.js:437-458 | `allowed` after the collect pass. Its meaning is `AllowedMembers`, in both directions |
| SdpFilter.EmitLine | client.js:467-488 | what the rewrite pass appends for one line. Its meaning is `PieceOfLine` and `HeaderRewrite` |
| SdpFilter.Rewritten | client.js:467-491 | the rewrite pass's output. Its meaning is `RewrittenIsConcatOfPieces` |
| SdpFilter.FilterCodec | client.js:417-492 | the value `sdpFilterCodec` returns, whose meaning is given by `AllowedMembers`, `PieceOfLine`, `HeaderRewrite` and `NoTargetSectionAppendsNewline` |
| SdpFilter.SdpFilterCodec | client.js:417-492 | the returned SDP is `FilterCodec` of the input: collect pass, then rewrite pass, over the split lines |
| SdpFilter.CollectAllowed | client.js:437-458 | after the first loop, `allowed` is `Allowed` of the lines, with the `isKind` flag as `InKind` |
| SdpFilter.CollectFromLine | client.js:447-456 | the body of the first loop for a line in scope appends exactly what `CollectLine` appends: the codec's payload type, then an RTX type whose `apt` is allowed by then |
| SdpFilter.RewriteLines | client.js:466-491 | after the second loop, the output is `Rewritten` of the lines |
| SdpFilterProperties.LastMediaLine | client.js:438-446 | finds the last `m=` line at or before a line, or reports that there is none |
| SdpFilterProperties.InKindIffInSection | client.js:438-446 | the `isKind` flag at a line is true exactly when the last `m=` line at or before it is a header of the kind |
| SdpFilterProperties.SessionLinesOutOfScope | client.js:438-446 | lines before the first `m=` line are never in scope |
| SdpFilterProperties.RewrittenIsConcatOfPieces | client.js:467-491 | the output is the per-line pieces concatenated in input order |
| SdpFilterProperties.PieceOfLine | client.js:477-488 | out of scope a line is copied with `'\n'`; in scope it is dropped iff its attribute's payload type is not allowed; a kept line matching the header pattern is cut after group 1 and given `allowed.join(' ')`, and every other kept line is copied with `'\n'` |
| SdpFilterProperties.NoTargetSectionAppendsNewline | client.js:482-487 | with no header of the kind, the output is the body plus one `'\n'` |
| SdpFilterProperties.UntouchedPrefix | client.js:486-487 | while none of the first n lines is a header of the kind, those lines are out of scope and are copied, each followed by `'\n'`, whatever comes after them |
| SdpFilterProperties.FilterNotIdempotent | client.js:482-487 | filtering `""` gives `"\n"`, and filtering that gives `"\n\n"` |
| SdpFilterOrder.FiltersDoNotCommute | client.js:466-487 | on `m=video x\nm=audio a=rtpmap:2\na=rtpmap:3 o`, audio `o` then video `v` gives `"m=video x \n\n"`, and video then audio gives `"m=video x \na=rtpmap:3 o\n\n"` |
| SdpFilterOrder.AudioFilterOfMixed | client.js:466-487 | the audio filter drops the audio header, whose first attribute tag is of a type not allowed, and keeps the rest |
| SdpFilterOrder.VideoFilterOfMixed | client.js:470-487 | the video filter empties the video header's list and copies the audio section |
| SdpFilterProperties.SpacedNumbersAreTail | client.js:428 | ` <pt> <pt> ...` plus white space is what `( ([0-9]+))*\s*` accepts |
| SdpFilterProperties.LazyCutAfterMid | client.js:428 | over `<mid><list>`, `.*?` stops right after mid when mid ends in a character the list cannot hold |
| SdpFilterProperties.TailCharacters | client.js:428 | only digits and white space occur in such a tail |
| SdpFilterProperties.HeaderGroupEndsBeforeList | client.js:428 | for `m=<kind> <mid><list>`, group 1 ends exactly after `<mid>` |
| SdpFilterProperties.NoAttributeWithoutEquals | client.js:466 | a line in which no `a` is directly followed by `=` is not an attribute line |
| SdpFilterProperties.HeaderRewrite | client.js:481-482 | an in-scope header `m=<kind> <mid> <pts>\r` becomes `m=<kind> <mid> ` + `allowed.join(' ')` + `'\n'`, so a bare trailing space when nothing is allowed |
| SdpAllowedProperties.CodecOfRtpmapLine | client.js:424 | `a=rtpmap:<pt> <codec>...` yields pt for the codec pattern |
| SdpAllowedProperties.RtxOfFmtpLine | client.js:421 | `a=fmtp:<n> apt=<m>\r` yields (n, m) for the retransmission pattern |
| SdpAllowedProperties.AttributeOfTaggedLine | client.js:466 | `a=fmtp:`, `a=rtcp-fb:` or `a=rtpmap:` followed by pt yields pt for the skip pattern |
| SdpAllowedProperties.CollectLineAppends | client.js:447-456 | a line only appends to `allowed`, at most two entries, exactly the types it admits: its codec payload type, and its RTX type when `apt` is already allowed or named on the same line |
| SdpAllowedProperties.AllowedStep | client.js:440-457 | the collect pass reads a line exactly when it is in a section of the kind |
| SdpAllowedProperties.AllowedGrows | client.js:447-456 | `allowed` only grows by appending: earlier contents stay, in order |
| SdpAllowedProperties.AllowedAfterLine | client.js:447-456 | after a line, a type is allowed iff it was before or the line admits it |
| SdpAllowedProperties.AllowedWasAdmitted | client.js:440-458 | every allowed type was admitted by some in-scope line |
| SdpAllowedProperties.AdmittedStaysAllowed | client.js:440-458 | a type an in-scope line admits is allowed at the end |
| SdpAllowedProperties.AllowedMembers | client.js:440-458 | both directions: a type is allowed iff some in-scope line admits it given the lines before it |
| SdpAllowedProperties.OutOfScopeAddsNothing | client.js:447 | lines outside the kind's sections add nothing |
| SdpAllowedProperties.ForwardReferenceIgnored | client.js:453-456 | an RTX line whose `apt` is not yet allowed adds nothing: a forward reference is not honoured |
| Negotiation.SendOutcomeOf | client.js:217 | `send` throws only while connecting, and transmits only when open |
| Negotiation.ArmGate | client.js:180-192 | the gate resolves at once iff gathering is complete, and otherwise registers one listener |
| Negotiation.OnGatheringChange | client.js:184-189 | only a registered listener reacts, only to `complete`; it removes itself and resolves; the gate invariant is kept |
| Negotiation.RunGate | client/src/hooks/useNegotiation.tsx:13-31 | the gate after any sequence of gathering events keeps one removal per registration and at most one resolution |
| Negotiation.GateResolvesIffComplete | client/src/hooks/useNegotiation.tsx:14-29 | the gate resolves iff gathering was complete at arming or became complete later |
| Negotiation.GateIgnoresOtherStates | client/src/hooks/useNegotiation.tsx:18 | states other than `complete` leave the gate unchanged |
| Negotiation.ResolvedGateIsStable | client/src/hooks/useNegotiation.tsx:19-23 | once resolved, later events (a second `complete` too) change nothing |
| Negotiation.GateCleansUp | client/src/hooks/useNegotiation.tsx:17-29 | a resolved gate removed every listener it registered and resolved once |
| Negotiation.ChainThroughResolvedGate | client.js:171-229 | createOffer, setLocalDescription, the gate's listener calls, send and the answer listener are in chain order |
| Negotiation.SkipSendKeepsOrder | client/src/hooks/useNegotiation.tsx:35-44 | adding the answer listener without a send keeps the calls in chain order |
| Negotiation.ArmingConsistent | client.js:172-192 | arming the gate after the local description gives a consistent attempt: waiting with one listener, or past the gate with none |
| Negotiation.GatheringCompleteConsistent | client.js:184-189 | `complete` while waiting resolves the gate, records the listener's removal, and moves the attempt past the gate |
| Negotiation.GatheringIgnoredConsistent | client.js:184-189 | any other gathering event leaves the gate and the attempt as they are |
| Negotiation.AfterGateConsistent | client.js:217-233 | after a resolved gate, these keep the attempt consistent and in chain order: the send then the answer listener; the send alone when it throws; and, in the hook, the listener alone when there is no local description |
| Negotiation.SendFollowsGate | client.js:180-221 | in both versions, once `send` is called the gate is resolved, the offer and local description came first, and every gathering listener was removed |
| Negotiation.WaitingMeansNotComplete | client.js:181-190 | while an attempt waits, gathering has not been complete since the gate was armed |
| ClientNegotiate.OfferSdp | client.js:203-211 | the sent SDP is unfiltered with both selections `default`, and filtered only for the kind whose selection is not `default` |
| ClientNegotiate.OfferSdpFiltersAudioThenVideo | client.js:203-211 | with both selected, the video filter runs on the audio filter's output |
| ClientNegotiate.OfferSdpOrderMatters | client.js:203-211 | the order is observable: on the example body the sent SDP is `"m=video x \n\n"`, which differs from filtering video first |
| ClientNegotiate.FilterOffer | client.js:200-211 | the filter calls produce `OfferSdp` |
| ClientNegotiate.ClientNegotiation.constructor | client.js:164 | nothing negotiated, sent or listened for yet |
| ClientNegotiate.ClientNegotiation.Negotiate | client.js:171 | a new attempt starts by calling `createOffer` |
| ClientNegotiate.ClientNegotiation.OfferCreated | client.js:171-172 | an offer leads to `setLocalDescription`; a rejection is caught and counted |
| ClientNegotiate.ClientNegotiation.LocalDescriptionSettled | client.js:172-192 | on success the offer is the local description and the gate is armed in the current gathering state |
| ClientNegotiate.ClientNegotiation.GatheringChanged | client.js:184-189 | the event updates gathering and steps the gate; a waiting attempt moves on exactly at `complete` |
| ClientNegotiate.ClientNegotiation.Continue | client.js:193-233 | a null description fails; otherwise `{sdp: OfferSdp, type, video_transform}` is sent according to the socket state, and the answer listener is added unless `send` threw |
| ClientNegotiate.ClientNegotiation.SendOffer | client.js:217-229 | send then listen, by socket state: throw → caught; open → transmitted; closing/closed → discarded |
| ClientNegotiate.ClientNegotiation.AnswerReceived | client.js:225-229 | each answer listener passes a parsed answer to `setRemoteDescription`; a malformed message changes nothing |
| ClientNegotiate.ClientNegotiation.SocketChanged | client.js:217 | only the socket state changes |
| HookNegotiate.HookNegotiation.constructor | client/src/hooks/useNegotiation.tsx:6 | the props given; nothing negotiated yet |
| HookNegotiate.HookNegotiation.Negotiate | client/src/hooks/useNegotiation.tsx:8-9 | does nothing unless both `pc` and `websocket` are non-null; otherwise calls `createOffer` |
| HookNegotiate.HookNegotiation.OfferCreated | client/src/hooks/useNegotiation.tsx:9-10 | an offer leads to `setLocalDescription`; a rejection is caught and logged |
| HookNegotiate.HookNegotiation.LocalDescriptionSettled | client/src/hooks/useNegotiation.tsx:10-31 | on success the gate is armed in the current gathering state |
| HookNegotiate.HookNegotiation.GatheringChanged | client/src/hooks/useNegotiation.tsx:17-29 | the event steps the gate; a waiting attempt moves on exactly at `complete` |
| HookNegotiate.HookNegotiation.Continue | client/src/hooks/useNegotiation.tsx:33-50 | sends `{sdp, type}` only with a local description, unfiltered; the answer listener is added even when the send was skipped, but not when `send` threw |
| HookNegotiate.HookNegotiation.AnswerReceived | client/src/hooks/useNegotiation.tsx:44-49 | each answer listener passes a parsed answer to `setRemoteDescription`; a malformed message changes nothing |
| HookNegotiate.HookNegotiation.SocketChanged | client/src/hooks/useNegotiation.tsx:36 | only the socket state changes |
| PingPong.ServerReply | server.py:159-162 | a reply is sent iff the message is text starting with `ping`; it starts with `pong`, has the same length, and keeps everything after the first four characters |
| PingPong.PingMessage | client.js:298 | `'ping ' + n` starts with `ping`, then a space, then n's decimal form |
| PingPong.ClientHandle | client.js:306-307 | an RTT is computed iff the text starts with `pong` |
| PingPong.SubstringFrom | client.js:307 | `substring(start)`: the text from start, empty when start is past the end |
| PingPong.SubstringTo | client.js:306 | `substring(0, end)`: a prefix of the text, of length end or the whole text |
| PingPong.PingPongRoundTrip | client.js:298-307 | the server answers the ping for n, the answer passes the `pong` check, and `parseInt(substring(5))` gives n back, so the RTT is now - n |
| PingPong.RepliesAreRecognised | server.py:162 | every server reply passes the client's `pong` check |
| PingPong.NoReplyToReply | server.py:161 | a reply would not itself be answered |
| ParamSlice.InitialParams | client/src/store/paramSlice.ts:18-25 | exactly six keys; only `use-video` and `show-ICE-state` are true |
| ParamSlice.ToggleParam | client/src/store/paramSlice.ts:26-32 | the keys become old keys ∪ {id}; id's value is negated (a missing key counts as off); every other key is unchanged |
| ParamSlice.IsOn | client/src/store/paramSlice.ts:30 | `state.params[id]` as `!` reads it: true only for a held key set to true |
| ParamSlice.ToggleTwiceRestores | client/src/store/paramSlice.ts:30 | toggling an existing key twice restores the map |
| ParamSlice.ToggleUnknownKey | client/src/store/paramSlice.ts:30 | a missing key becomes true, then false: the map does not come back |
| ParamSlice.TogglesCommute | client/src/store/paramSlice.ts:28-30 | toggles of different keys commute |
| LogsSlice.InitialLogs | client/src/store/logsSlice.ts:15-19 | exactly the three state keys, each `""` |
| LogsSlice.AppendText | client/src/store/logsSlice.ts:21-28 | the keys become old keys ∪ {id}; the new text is the old one, then `-->`, then the text; other keys are unchanged |
| LogsSlice.Entry | client/src/store/logsSlice.ts:25 | `state.logs[id]` as concatenation reads it: the held text, or `undefined` |
| LogsSlice.AppendGrows | client/src/store/logsSlice.ts:25 | the old text is a prefix of the new, which is longer by 3 + the length of the text |
| LogsSlice.AppendKeepsStateLogs | client/src/store/logsSlice.ts:24-25 | appends to the declared logs keep exactly the three keys |
| LogsSlice.AppendTwice | client/src/store/logsSlice.ts:25 | two appends add both pieces in order |
| LogsSlice.AppendsCommute | client/src/store/logsSlice.ts:24-25 | appends to different logs commute |
| LogsSlice.AppendToUndeclared | client/src/store/logsSlice.ts:25 | an undeclared log starts from the text `undefined` |
| ParamContext.InitialParams | client/src/providers/ParamContext.tsx:13 | no parameter is set at first |
| ParamContext.SetParam | client/src/providers/ParamContext.tsx:15-17 | the keys become old keys ∪ {key}; key maps to the value; other keys are unchanged |
| ParamContext.SetParamIdempotent | client/src/providers/ParamContext.tsx:16 | setting the same value twice is the same as once |
| ParamContext.LastWriteWins | client/src/providers/ParamContext.tsx:16 | of two writes to one key the last wins |
| ParamContext.WritesToDifferentKeysCommute | client/src/providers/ParamContext.tsx:16 | writes to different keys commute |
| ParamContext.SetCurrentValue | client/src/providers/ParamContext.tsx:16 | writing back a key's current value changes nothing |

## Left out

- DOM reads and writes: the codec and transform selections are parameters, and the `offer-sdp`/`answer-sdp` text, the `alert` and `console.log` are not modelled. A caught failure is counted in `failures`.
- Browser platform internals (`RTCPeerConnection`, `WebSocket`): gathering state, socket state and the results of `createOffer`/`setLocalDescription` are inputs. The browser adding gathered candidates to the local description is not modelled.
- `setRemoteDescription`: the model records each call and not its result. Its rejection is only logged in the source.
- JSON encoding and decoding: messages are records, and a message that does not parse is `Malformed`.
- Whether assigning `offer.sdp` takes effect, and whether it also changes `pc.localDescription`, depends on the browser. The model assumes `RTCSessionDescription.sdp` is writable, as it is in Chromium and Firefox: it sends the filtered SDP and leaves the local description unchanged. Where the attribute is read-only, as in WebKit, the assignment at client.js:205 and client.js:210 is ignored outside strict mode and the unfiltered SDP is sent; that case is not modelled.
- Timers and clocks: `setInterval`, `current_stamp` and `Date`. Stamps are abstract naturals passed in.
- The data channel's open and close handlers and its log text; the server's other handlers, media, recorder, relay and serving.
- RegExpEscape.LiteralIsEscaped: holds for patterns built of ordinary characters and escaped syntax characters only; identity escapes that JavaScript without the `u` flag also reads literally (`\-`, `\/`, `\a`) are outside that grammar, so a pattern such as `a\-b` matches "a-b" without being its escape.
- JsString.ParseIntOfNatToString: `parseInt` is exact on naturals; the loss of precision beyond 2^53 is not modelled.
- SdpFilter.CodecPayloadType: payload types are exact naturals; `parseInt`'s rounding above 2^53 is not modelled, so two large types that JavaScript reads as equal stay distinct here.
- SdpFilter.RtxPayloadTypes: same as `CodecPayloadType`: both numbers of an `apt=` line are read exactly, so `allowed.includes(apt)` can differ from JavaScript's above 2^53.
- SdpFilter.AttributePayloadType: same as `CodecPayloadType`: the payload type of a skipped attribute line is read exactly.
- JsString.NatToString: prints plain decimal digits for every natural; `String`'s exponent form from 1e21 up (`1e+21`) is not modelled.
- JsString.JoinNumbers: built on `NatToString`, so a type of 1e21 or more is joined as its digits and not in exponent form.
- PingPong.ClientHandle: strings are sequences of Unicode code points, not UTF-16 code units, so `substring(5)` after a character outside the Basic Multilingual Plane is not modelled as splitting a surrogate pair.
- ParamSlice.ToggleParam: every key the map does not hold reads as `undefined`; names inherited from `Object.prototype` (`constructor`, `toString`, ...) read as functions in JavaScript, so their toggle stores false there and true here.
- LogsSlice.AppendText: every key the map does not hold reads as `undefined`; an inherited name such as `toString` starts from the function's source text in JavaScript and from "undefined" here.
- LogsSlice.AppendToUndeclared: states the "undefined" start only for names not inherited from `Object.prototype`, for the same reason.
- ClientNegotiate.ClientNegotiation.Negotiate: a second call while an earlier chain is still pending is not modelled; a new attempt requires the previous one to have settled.
- HookNegotiate.HookNegotiation.Negotiate: same restriction as for the client.
- Store wiring (zustand composition, React context plumbing) and all view components.
