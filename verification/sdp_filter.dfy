/**
  `sdpFilterCodec(kind, codec, realSdp)` (client.js): restricts the media sections
  of one kind in an SDP body (RFC 4566) to one codec and to the retransmission
  formats (RFC 4588, `apt=`) that point at it.

  The body is split on `'\n'`. A collect pass, scoped to the sections of the
  requested kind, gathers the allowed payload types: those of `a=rtpmap` lines
  naming the codec, then those of `a=fmtp:N apt=M` lines whose M is already
  allowed. A rewrite pass drops the `a=fmtp`, `a=rtcp-fb` and `a=rtpmap` lines
  of payload types that are not allowed, rewrites the payload list of every
  header of that kind to the allowed list, and copies all other lines. Every
  piece is emitted followed by `'\n'`.

  The four regular expressions of the source are modelled as searches for the
  leftmost position at which a line matches (`Leftmost`), each with a matcher
  that states what the pattern accepts at one position.
*/
module SdpFilter {
  import opened Wrappers
  import opened JsString
  import RegExpEscape

  datatype MediaKind = Audio | Video

  function KindName(kind: MediaKind): string
  {
    match kind
    case Audio => "audio"
    case Video => "video"
  }

  /** `'m=' + kind + ' '`: how a header line of a section of this kind starts. */
  function SectionPrefix(kind: MediaKind): string
  {
    "m=" + KindName(kind) + " "
  }

  const MediaLinePrefix: string := "m="
  const RtpmapTag: string := "a=rtpmap:"
  const FmtpTag: string := "a=fmtp:"
  const RtcpFbTag: string := "a=rtcp-fb:"
  const AptTag: string := " apt="

  // ---------------------------------------------------------------------------
  // Unanchored search
  // ---------------------------------------------------------------------------

  /** The first position in [from, to] at which `at` matches, with what it yields. */
  function Leftmost<T>(at: nat -> Option<T>, from: nat, to: nat): (r: Option<(nat, T)>)
    decreases to + 1 - from
    ensures r.Some? ==> from <= r.value.0 <= to && at(r.value.0) == Some(r.value.1)
    ensures r.Some? ==> forall q :: from <= q < r.value.0 ==> at(q).None?
    ensures r.None? ==> forall q :: from <= q <= to ==> at(q).None?
  {
    if from > to then None
    else
      match at(from)
      case Some(x) => Some((from, x))
      case None => Leftmost(at, from + 1, to)
  }

  // ---------------------------------------------------------------------------
  // The codec pattern `a=rtpmap:([0-9]+) <escaped codec>`
  // ---------------------------------------------------------------------------

  /** The codec pattern matched at position p of line; yields `parseInt` of the group. */
  function CodecAt(line: string, codec: string, p: nat): Option<nat>
  {
    if p <= |line| && RtpmapTag <= line[p..] then
      var rest := line[p + |RtpmapTag|..];
      var n := DigitRunLength(rest);
      if n > 0 && [' '] + codec <= rest[n..] then Some(DigitsValue(rest[..n])) else None
    else None
  }

  /** The payload type `line.match(codecRegex)` captures, if the line matches. */
  function CodecPayloadType(line: string, codec: string): Option<nat>
  {
    match Leftmost(q => CodecAt(line, codec, q), 0, |line|)
    case Some((_, pt)) => Some(pt)
    case None => None
  }

  // ---------------------------------------------------------------------------
  // The retransmission pattern `a=fmtp:(\d+) apt=(\d+)\r$`
  // ---------------------------------------------------------------------------

  /** The retransmission pattern matched at position p: the text from p to the end
      of line is `a=fmtp:N apt=M` followed by a carriage return. Yields (N, M). */
  function RtxAt(line: string, p: nat): Option<(nat, nat)>
  {
    if p <= |line| && FmtpTag <= line[p..] then
      var r1 := line[p + |FmtpTag|..];
      var n1 := DigitRunLength(r1);
      if n1 > 0 && AptTag <= r1[n1..] then
        var r2 := r1[n1 + |AptTag|..];
        var n2 := DigitRunLength(r2);
        if n2 > 0 && r2[n2..] == "\r" then Some((DigitsValue(r1[..n1]), DigitsValue(r2[..n2])))
        else None
      else None
    else None
  }

  /** The pair (payload type, referenced payload type) of a retransmission line. */
  function RtxPayloadTypes(line: string): Option<(nat, nat)>
  {
    match Leftmost(q => RtxAt(line, q), 0, |line|)
    case Some((_, pts)) => Some(pts)
    case None => None
  }

  // ---------------------------------------------------------------------------
  // The attribute pattern `a=(fmtp|rtcp-fb|rtpmap):([0-9]+)`
  // ---------------------------------------------------------------------------

  /** Length of the attribute tag s starts with, 0 when it starts with none of them. */
  function AttributeTagLength(s: string): nat
  {
    if FmtpTag <= s then |FmtpTag|
    else if RtcpFbTag <= s then |RtcpFbTag|
    else if RtpmapTag <= s then |RtpmapTag|
    else 0
  }

  function AttributeAt(line: string, p: nat): Option<nat>
  {
    if p <= |line| then
      var s := line[p..];
      var tag := AttributeTagLength(s);
      if tag > 0 && tag <= |s| then
        var n := DigitRunLength(s[tag..]);
        if n > 0 then Some(DigitsValue(s[tag..][..n])) else None
      else None
    else None
  }

  /** The payload type an `a=fmtp`, `a=rtcp-fb` or `a=rtpmap` line refers to. */
  function AttributePayloadType(line: string): Option<nat>
  {
    match Leftmost(q => AttributeAt(line, q), 0, |line|)
    case Some((_, pt)) => Some(pt)
    case None => None
  }

  // ---------------------------------------------------------------------------
  // The header pattern `(m=<kind> .*?)( ([0-9]+))*\s*$`
  // ---------------------------------------------------------------------------

  /** The strings `( ([0-9]+))*\s*` matches: space-prefixed numbers, then white space. */
  predicate IsPayloadListTail(s: string)
    decreases |s|
  {
    || AllWhiteSpace(s)
    || (|s| >= 2 && s[0] == ' ' && IsDigit(s[1]) && IsPayloadListTail(s[1 + DigitRunLength(s[1..])..]))
  }

  /**
    Where the lazy `.*?` stops when it starts at `from` in `rest`: the first cut
    after which the rest of the line is a payload-list tail, provided no line
    terminator lies before the cut (`.` does not match one).
  */
  function LazyCut(rest: string, from: nat): (r: Option<nat>)
    requires from <= |rest|
    decreases |rest| - from
    ensures r.Some? ==> from <= r.value <= |rest| && IsPayloadListTail(rest[r.value..])
    ensures r.Some? ==> forall k :: from <= k < r.value ==> !IsLineTerminator(rest[k]) && !IsPayloadListTail(rest[k..])
    ensures r.None? ==> exists k :: from <= k < |rest| && IsLineTerminator(rest[k]) &&
                          forall j :: from <= j <= k ==> !IsPayloadListTail(rest[j..])
  {
    if IsPayloadListTail(rest[from..]) then Some(from)
    else if IsLineTerminator(rest[from]) then None
    else LazyCut(rest, from + 1)
  }

  /** The header pattern matched at position p; yields where group 1 ends in line. */
  function HeaderAt(line: string, kind: MediaKind, p: nat): (r: Option<nat>)
    ensures r.Some? ==> p + |SectionPrefix(kind)| <= r.value <= |line|
  {
    var prefix := SectionPrefix(kind);
    if p <= |line| && prefix <= line[p..] then
      match LazyCut(line[p + |prefix|..], 0)
      case Some(c) => Some(p + |prefix| + c)
      case None => None
    else None
  }

  /** End of group 1 of the leftmost match of the header pattern, if the line matches. */
  function HeaderGroupEnd(line: string, kind: MediaKind): (r: Option<nat>)
    ensures r.Some? ==> |SectionPrefix(kind)| <= r.value <= |line|
  {
    match Leftmost(q => HeaderAt(line, kind, q), 0, |line|)
    case Some((p, e)) =>
      assert HeaderAt(line, kind, p) == Some(e);
      Some(e)
    case None => None
  }

  // ---------------------------------------------------------------------------
  // The two passes, as functions of the lines read so far
  // ---------------------------------------------------------------------------

  /** The `isKind` flag after reading line: set by a header of the kind, cleared by any
      other `m=` line, kept otherwise. */
  function NextInKind(inKind: bool, line: string, kind: MediaKind): bool
  {
    if SectionPrefix(kind) <= line then true
    else if MediaLinePrefix <= line then false
    else inKind
  }

  /** The flag while the last of `lines` is processed (both passes compute the same flag). */
  function InKind(lines: seq<string>, kind: MediaKind): bool
    decreases |lines|
  {
    if lines == [] then false
    else NextInKind(InKind(lines[..|lines| - 1], kind), lines[|lines| - 1], kind)
  }

  /** What one line of a target section adds to `allowed` in the collect pass. */
  function CollectLine(allowed: seq<nat>, line: string, codec: string): seq<nat>
  {
    var codecMatch := CodecPayloadType(line, codec);
    var afterCodec := if codecMatch.Some? then allowed + [codecMatch.value] else allowed;
    var rtxMatch := RtxPayloadTypes(line);
    if rtxMatch.Some? && rtxMatch.value.1 in afterCodec then afterCodec + [rtxMatch.value.0] else afterCodec
  }

  /** `allowed` after the collect pass has read `lines`. */
  function Allowed(lines: seq<string>, kind: MediaKind, codec: string): seq<nat>
    decreases |lines|
  {
    if lines == [] then []
    else
      var prev := Allowed(lines[..|lines| - 1], kind, codec);
      if InKind(lines, kind) then CollectLine(prev, lines[|lines| - 1], codec) else prev
  }

  /** What the rewrite pass appends to the output for one line. */
  function EmitLine(inKind: bool, line: string, kind: MediaKind, allowed: seq<nat>): string
  {
    if !inKind then line + "\n"
    else if AttributePayloadType(line).Some? && AttributePayloadType(line).value !in allowed then ""
    else
      match HeaderGroupEnd(line, kind)
      case Some(e) => line[..e] + " " + JoinNumbers(allowed) + "\n"
      case None => line + "\n"
  }

  /** The output of the rewrite pass after it has read `lines`. */
  function Rewritten(lines: seq<string>, kind: MediaKind, allowed: seq<nat>): string
    decreases |lines|
  {
    if lines == [] then []
    else Rewritten(lines[..|lines| - 1], kind, allowed)
         + EmitLine(InKind(lines, kind), lines[|lines| - 1], kind, allowed)
  }

  /** The value `sdpFilterCodec(kind, codec, sdp)` returns. */
  function FilterCodec(kind: MediaKind, codec: string, sdp: string): string
  {
    var lines := Split(sdp, '\n');
    Rewritten(lines, kind, Allowed(lines, kind, codec))
  }

  // ---------------------------------------------------------------------------
  // The procedure
  // ---------------------------------------------------------------------------

  /** `sdpFilterCodec`: split the body on `'\n'`, collect the allowed payload types, rewrite. */
  method SdpFilterCodec(kind: MediaKind, codec: string, realSdp: string) returns (sdp: string)
    ensures sdp == FilterCodec(kind, codec, realSdp)
  {
    // The codec pattern embeds the escaped name, which matches the name literally.
    var pattern := RegExpEscape.EscapeRegExp(codec);
    RegExpEscape.EscapedIsLiteral(codec);
    var literal := RegExpEscape.LiteralText(pattern).value;

    var lines := Split(realSdp, '\n');
    var allowed := CollectAllowed(lines, kind, literal);
    sdp := RewriteLines(lines, kind, allowed);
  }

  /** Reading line i of the collect pass: the flag and `allowed` after it. */
  lemma CollectStep(lines: seq<string>, kind: MediaKind, codec: string, i: nat)
    requires i < |lines|
    ensures InKind(lines[..i + 1], kind) == NextInKind(InKind(lines[..i], kind), lines[i], kind)
    ensures Allowed(lines[..i + 1], kind, codec)
         == if InKind(lines[..i + 1], kind) then CollectLine(Allowed(lines[..i], kind, codec), lines[i], codec)
            else Allowed(lines[..i], kind, codec)
  {
    assert lines[..i + 1][..i] == lines[..i] && lines[..i + 1][i] == lines[i];
  }

  /** Reading line i of the rewrite pass: the flag and the output after it. */
  lemma RewriteStep(lines: seq<string>, kind: MediaKind, allowed: seq<nat>, i: nat)
    requires i < |lines|
    ensures InKind(lines[..i + 1], kind) == NextInKind(InKind(lines[..i], kind), lines[i], kind)
    ensures Rewritten(lines[..i + 1], kind, allowed)
         == Rewritten(lines[..i], kind, allowed) + EmitLine(InKind(lines[..i + 1], kind), lines[i], kind, allowed)
  {
    assert lines[..i + 1][..i] == lines[..i] && lines[..i + 1][i] == lines[i];
  }

  /** The first loop of `sdpFilterCodec`: grows `allowed` in scan order. */
  method CollectAllowed(lines: seq<string>, kind: MediaKind, codec: string) returns (allowed: seq<nat>)
    ensures allowed == Allowed(lines, kind, codec)
  {
    allowed := [];
    var isKind := false;
    for i := 0 to |lines|
      invariant isKind == InKind(lines[..i], kind)
      invariant allowed == Allowed(lines[..i], kind, codec)
    {
      CollectStep(lines, kind, codec, i);
      if SectionPrefix(kind) <= lines[i] {
        isKind := true;
      } else if MediaLinePrefix <= lines[i] {
        isKind := false;
      }
      assert isKind == InKind(lines[..i + 1], kind);
      if isKind {
        allowed := CollectFromLine(allowed, lines[i], codec);
      }
    }
    assert lines[..|lines|] == lines;
  }

  /** The body of the first loop for a line in a section of the kind: the codec's
      payload type, then a retransmission type whose `apt` is allowed by now. */
  method CollectFromLine(allowed: seq<nat>, line: string, codec: string) returns (next: seq<nat>)
    ensures next == CollectLine(allowed, line, codec)
  {
    next := allowed;
    var codecMatch := CodecPayloadType(line, codec);
    if codecMatch.Some? {
      next := next + [codecMatch.value];
    }
    var rtxMatch := RtxPayloadTypes(line);
    if rtxMatch.Some? && rtxMatch.value.1 in next {
      next := next + [rtxMatch.value.0];
    }
  }

  /** The second loop of `sdpFilterCodec`: drops, rewrites or copies each line. */
  method RewriteLines(lines: seq<string>, kind: MediaKind, allowed: seq<nat>) returns (sdp: string)
    ensures sdp == Rewritten(lines, kind, allowed)
  {
    sdp := "";
    var isKind := false;
    for i := 0 to |lines|
      invariant isKind == InKind(lines[..i], kind)
      invariant sdp == Rewritten(lines[..i], kind, allowed)
    {
      RewriteStep(lines, kind, allowed, i);
      if SectionPrefix(kind) <= lines[i] {
        isKind := true;
      } else if MediaLinePrefix <= lines[i] {
        isKind := false;
      }
      if isKind {
        var skipMatch := AttributePayloadType(lines[i]);
        if skipMatch.Some? && skipMatch.value !in allowed {
          assert Rewritten(lines[..i + 1], kind, allowed) == sdp;
          continue;
        } else {
          var header := HeaderGroupEnd(lines[i], kind);
          if header.Some? {
            sdp := sdp + (lines[i][..header.value] + " " + JoinNumbers(allowed) + "\n");
          } else {
            sdp := sdp + (lines[i] + "\n");
          }
        }
      } else {
        sdp := sdp + (lines[i] + "\n");
      }
    }
    assert lines[..|lines|] == lines;
  }
}
