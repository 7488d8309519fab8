/**
  The audio filter and the video filter of `sdpFilterCodec` do not commute. The
  audio filter drops an `m=audio` header whose text holds `a=rtpmap:N` with N not
  allowed, since the skip test runs before the header test; the lines of that
  section then read as part of the previous section, here a video one, where the
  video filter drops the attribute lines whose types it does not allow. In the
  other order the video filter sees them outside its sections and keeps them.

  The example body has three lines: a video header, an audio header that carries
  `a=rtpmap:2`, and `a=rtpmap:3 o`. The audio codec is `o`, the video codec `v`.

  Each pass is computed by a lemma over any lines with the per-line facts the
  example has, so that the verifier never unfolds a pass on literal text.
*/
module SdpFilterOrder {
  import opened Wrappers
  import opened JsString
  import opened SdpFilter
  import opened SdpFilterProperties
  import opened SdpAllowedProperties

  const VideoHeader: string := "m=video x"
  const AudioHeader: string := "m=audio a=rtpmap:2"
  const AudioRtpmap: string := "a=rtpmap:3 o"

  /** The example body, `m=video x\nm=audio a=rtpmap:2\na=rtpmap:3 o`. */
  const MixedSdp: string := VideoHeader + "\n" + AudioHeader + "\n" + AudioRtpmap

  /** Its lines. */
  const MixedLines: seq<string> := [VideoHeader, AudioHeader, AudioRtpmap]

  /** The lines of the audio filter's output. */
  const AudioFilteredLines: seq<string> := [VideoHeader, AudioRtpmap, ""]

  /** The lines of the video filter's output. */
  const VideoFilteredLines: seq<string> := [VideoHeader + " ", AudioHeader, AudioRtpmap, ""]

  // ---------------------------------------------------------------------------
  // What the patterns find in each line
  // ---------------------------------------------------------------------------

  lemma AudioHeaderAttribute()
    ensures AttributePayloadType(AudioHeader) == Some(2)
  {
    var line := AudioHeader;
    assert NatToString(2) == "2";
    AttributeAtTaggedLine(RtpmapTag, 2, "");
    assert line[8..] == RtpmapTag + NatToString(2) + "";
    assert line[8..][0..] == line[8..];
    forall q | 0 <= q < 8 ensures AttributeAt(line, q).None? {
      AudioHeaderNoTagBefore(q);
    }
    LeftmostAt(q => AttributeAt(line, q), 0, 8, |line|);
  }

  lemma AudioHeaderNoTagBefore(q: nat)
    requires q < 8
    ensures AttributeAt(AudioHeader, q).None?
  {
    var line := AudioHeader;
    assert line[..9] == "m=audio a";
    assert line[q] == line[..9][q] && line[q + 1] == line[..9][q + 1];
    NoTagAt(line, q);
  }

  /** No attribute starts where no `a=` does. */
  lemma NoTagAt(line: string, q: nat)
    requires q + 1 < |line| && !(line[q] == 'a' && line[q + 1] == '=')
    ensures AttributeAt(line, q).None?
  {
    AttributeTagStartsWithAEquals(line[q..]);
    assert line[q..][0] == line[q] && line[q..][1] == line[q + 1];
  }

  lemma AudioRtpmapAttribute()
    ensures AttributePayloadType(AudioRtpmap) == Some(3)
  {
    assert NatToString(3) == "3";
    AttributeOfTaggedLine(RtpmapTag, 3, " o");
    assert RtpmapTag + NatToString(3) + " o" == AudioRtpmap;
  }

  lemma AudioRtpmapCodec()
    ensures CodecPayloadType(AudioRtpmap, "o") == Some(3)
    ensures CodecPayloadType(AudioRtpmap, "v") == None
  {
    assert NatToString(3) == "3";
    CodecOfRtpmapLine(3, "o", "");
    assert RtpmapTag + NatToString(3) + " " + "o" + "" == AudioRtpmap;
    var line := AudioRtpmap;
    assert line[0..] == line;
    assert line[9..] == "3 o";
    assert DigitRunLength("3 o") == 1;
    assert line[9..][1..] == " o";
    assert ([' '] + "v")[1] == 'v' && " o"[1] == 'o';
    assert CodecAt(line, "v", 0).None?;
  }

  lemma AudioHeaderNotCodec()
    ensures CodecPayloadType(AudioHeader, "o") == None
  {
  }

  lemma AudioHeaderNotRtx()
    ensures RtxPayloadTypes(AudioHeader) == None
  {
  }

  lemma VideoHeaderNotCodec()
    ensures CodecPayloadType(VideoHeader, "v") == None
  {
  }

  lemma VideoHeaderNotRtx()
    ensures RtxPayloadTypes(VideoHeader) == None
  {
  }

  lemma AudioRtpmapNotRtx()
    ensures RtxPayloadTypes(AudioRtpmap) == None
  {
  }

  lemma EmptyLineMatchesNothing()
    ensures CodecPayloadType("", "o") == None && CodecPayloadType("", "v") == None
    ensures RtxPayloadTypes("") == None && AttributePayloadType("") == None
  {
  }

  lemma VideoHeaderNotAttribute()
    ensures AttributePayloadType(VideoHeader) == None
  {
    NoAttributeWithoutEquals(VideoHeader);
  }

  lemma WidenedHeaderNotCodec(line: string)
    requires line == VideoHeader + " "
    ensures CodecPayloadType(line, "o") == None && RtxPayloadTypes(line) == None
  {
    assert line == "m=video x ";
  }

  lemma NoMediaTag(line: string, kind: MediaKind)
    requires line == AudioRtpmap || line == ""
    ensures HeaderGroupEnd(line, kind).None?
  {
    assert forall p :: 0 <= p < |line| - 1 ==> !(line[p] == 'm' && line[p + 1] == '=');
    NoHeaderWithoutMediaTag(line, kind);
  }

  // ---------------------------------------------------------------------------
  // One line of each pass
  // ---------------------------------------------------------------------------

  lemma CollectNothing(line: string, codec: string)
    requires CodecPayloadType(line, codec) == None && RtxPayloadTypes(line) == None
    ensures CollectLine([], line, codec) == []
  {
  }

  lemma CollectAudioRtpmap(line: string)
    requires line == AudioRtpmap
    ensures CollectLine([], line, "o") == [3]
  {
    AudioRtpmapCodec();
    AudioRtpmapNotRtx();
  }

  lemma EmitDropped(line: string, kind: MediaKind, allowed: seq<nat>)
    requires AttributePayloadType(line).Some? && AttributePayloadType(line).value !in allowed
    ensures EmitLine(true, line, kind, allowed) == ""
  {
  }

  lemma EmitCopied(line: string, kind: MediaKind, allowed: seq<nat>)
    requires AttributePayloadType(line).None? || AttributePayloadType(line).value in allowed
    requires HeaderGroupEnd(line, kind).None?
    ensures EmitLine(true, line, kind, allowed) == line + "\n"
  {
  }

  /** A header without payload types is rewritten to itself, a space and the list. */
  lemma BareHeaderRewrite(kind: MediaKind, mid: string, allowed: seq<nat>)
    requires mid != [] && !IsDigit(mid[|mid| - 1]) && !IsWhiteSpace(mid[|mid| - 1])
    requires forall k :: 0 <= k < |mid| ==> !IsLineTerminator(mid[k]) && mid[k] != '='
    ensures EmitLine(true, SectionPrefix(kind) + mid, kind, allowed)
         == SectionPrefix(kind) + mid + " " + JoinNumbers(allowed) + "\n"
  {
    HeaderRewrite(kind, mid, [], "", allowed);
    assert SectionPrefix(kind) + mid + SpacedNumbers([]) + "" == SectionPrefix(kind) + mid;
  }

  /** The video header is rewritten to itself, a space and the (empty) list. */
  lemma VideoHeaderRewrite(line: string)
    requires line == VideoHeader
    ensures EmitLine(true, line, Video, []) == line + " " + "\n"
  {
    assert line == SectionPrefix(Video) + "x";
    BareHeaderRewrite(Video, "x", []);
    assert JoinNumbers([]) == [];
  }

  // ---------------------------------------------------------------------------
  // The two passes over three and four lines
  // ---------------------------------------------------------------------------

  /** The rewrite pass over three lines, one piece per line. */
  lemma RewrittenOfThree(lines: seq<string>, kind: MediaKind, allowed: seq<nat>)
    requires |lines| == 3
    ensures Rewritten(lines, kind, allowed)
         == EmitLine(InKind(lines[..1], kind), lines[0], kind, allowed)
          + EmitLine(InKind(lines[..2], kind), lines[1], kind, allowed)
          + EmitLine(InKind(lines, kind), lines[2], kind, allowed)
  {
    assert lines[..2][..1] == lines[..1] && lines[..1][..0] == [];
    assert Rewritten(lines[..1], kind, allowed) == EmitLine(InKind(lines[..1], kind), lines[0], kind, allowed);
    assert Rewritten(lines[..2], kind, allowed) == Rewritten(lines[..1], kind, allowed)
         + EmitLine(InKind(lines[..2], kind), lines[1], kind, allowed);
  }

  /** The rewrite pass over four lines, one piece per line. */
  lemma RewrittenOfFour(lines: seq<string>, kind: MediaKind, allowed: seq<nat>)
    requires |lines| == 4
    ensures Rewritten(lines, kind, allowed)
         == EmitLine(InKind(lines[..1], kind), lines[0], kind, allowed)
          + EmitLine(InKind(lines[..2], kind), lines[1], kind, allowed)
          + EmitLine(InKind(lines[..3], kind), lines[2], kind, allowed)
          + EmitLine(InKind(lines, kind), lines[3], kind, allowed)
  {
    RewrittenOfThree(lines[..3], kind, allowed);
    assert lines[..3][..1] == lines[..1] && lines[..3][..2] == lines[..2];
  }

  /** The collect pass over three lines, one step per line. */
  lemma AllowedOfThree(lines: seq<string>, kind: MediaKind, codec: string)
    requires |lines| == 3
    ensures var a1 := if InKind(lines[..1], kind) then CollectLine([], lines[0], codec) else [];
      var a2 := if InKind(lines[..2], kind) then CollectLine(a1, lines[1], codec) else a1;
      Allowed(lines, kind, codec) == if InKind(lines, kind) then CollectLine(a2, lines[2], codec) else a2
  {
    assert lines[..2][..1] == lines[..1] && lines[..1][..0] == [];
    var a1 := if InKind(lines[..1], kind) then CollectLine([], lines[0], codec) else [];
    assert Allowed(lines[..1], kind, codec) == a1;
    assert Allowed(lines[..2], kind, codec) == if InKind(lines[..2], kind) then CollectLine(a1, lines[1], codec) else a1;
  }

  /** The collect pass over four lines, one step per line. */
  lemma AllowedOfFour(lines: seq<string>, kind: MediaKind, codec: string)
    requires |lines| == 4
    ensures var a1 := if InKind(lines[..1], kind) then CollectLine([], lines[0], codec) else [];
      var a2 := if InKind(lines[..2], kind) then CollectLine(a1, lines[1], codec) else a1;
      var a3 := if InKind(lines[..3], kind) then CollectLine(a2, lines[2], codec) else a2;
      Allowed(lines, kind, codec) == if InKind(lines, kind) then CollectLine(a3, lines[3], codec) else a3
  {
    AllowedOfThree(lines[..3], kind, codec);
    assert lines[..3][..1] == lines[..1] && lines[..3][..2] == lines[..2];
  }

  /** Three lines joined by newlines split back into them. */
  lemma SplitOfThree(sdp: string, a: string, b: string, c: string)
    requires '\n' !in a && '\n' !in b && '\n' !in c
    requires sdp == a + "\n" + b + "\n" + c
    ensures Split(sdp, '\n') == [a, b, c]
  {
    var rest := b + "\n" + c;
    assert Split(rest, '\n') == [b, c] by {
      SplitOfSeparatorFree(c, '\n');
      SplitAfterPiece(b, c, '\n');
    }
    assert sdp == a + "\n" + rest;
    SplitAfterPiece(a, rest, '\n');
    assert [a] + [b, c] == [a, b, c];
  }

  /** Lines each ended by a newline split into them and a last empty piece. */
  lemma SplitOfTerminated(sdp: string, lines: seq<string>)
    requires forall i :: 0 <= i < |lines| ==> '\n' !in lines[i]
    requires sdp == Join(lines + [""], "\n")
    ensures Split(sdp, '\n') == lines + [""]
  {
    SplitJoin(lines + [""], '\n');
  }

  /** The join of three terminated lines. */
  lemma JoinOfTwoTerminated(a: string, b: string)
    ensures Join([a, b, ""], "\n") == (a + "\n") + (b + "\n")
  {
    assert [a, b, ""][1..] == [b, ""] && [b, ""][1..] == [""];
    assert Join([b, ""], "\n") == b + "\n" + "";
    assert b + "\n" + "" == b + "\n";
  }

  lemma JoinOfThreeTerminated(a: string, b: string, c: string)
    ensures Join([a, b, c, ""], "\n") == (a + "\n") + (b + "\n") + (c + "\n")
  {
    JoinOfTwoTerminated(b, c);
    assert [a, b, c, ""][1..] == [b, c, ""];
    assert Join([a, b, c, ""], "\n") == a + "\n" + ((b + "\n") + (c + "\n"));
  }

  /** The filter over a body whose lines are known. */
  lemma FilterOfLines(kind: MediaKind, codec: string, sdp: string, lines: seq<string>)
    requires Split(sdp, '\n') == lines
    ensures FilterCodec(kind, codec, sdp) == Rewritten(lines, kind, Allowed(lines, kind, codec))
  {
  }

  // ---------------------------------------------------------------------------
  // The audio filter first
  // ---------------------------------------------------------------------------

  lemma MixedSplit()
    ensures Split(MixedSdp, '\n') == MixedLines
  {
    SplitOfThree(MixedSdp, VideoHeader, AudioHeader, AudioRtpmap);
  }

  lemma AudioScopeOfMixed(lines: seq<string>)
    requires lines == MixedLines
    ensures !InKind(lines[..1], Audio) && InKind(lines[..2], Audio) && InKind(lines, Audio)
  {
    assert lines[..2][..1] == lines[..1] && lines[..1][..0] == [];
    assert "m=audio "[2] == 'a' && lines[0][2] == 'v';
    assert lines[0][..2] == MediaLinePrefix;
    assert lines[1][..8] == "m=audio ";
    assert lines[2][0] == 'a';
  }

  /** The audio collect pass over a video header, an audio header that names no codec
      and an `a=rtpmap:3 o` line: only 3 is allowed. */
  lemma AudioAllowedOfMixed(lines: seq<string>)
    requires |lines| == 3
    requires !InKind(lines[..1], Audio) && InKind(lines[..2], Audio) && InKind(lines, Audio)
    requires CodecPayloadType(lines[1], "o") == None && RtxPayloadTypes(lines[1]) == None
    requires CollectLine([], lines[2], "o") == [3]
    ensures Allowed(lines, Audio, "o") == [3]
  {
    AllowedOfThree(lines, Audio, "o");
    CollectNothing(lines[1], "o");
  }

  /** The audio rewrite pass with 3 allowed: the audio header, whose first tag is of
      type 2, is dropped. */
  lemma AudioRewrittenOfMixed(lines: seq<string>)
    requires |lines| == 3
    requires !InKind(lines[..1], Audio) && InKind(lines[..2], Audio) && InKind(lines, Audio)
    requires AttributePayloadType(lines[1]) == Some(2)
    requires AttributePayloadType(lines[2]) == Some(3) && HeaderGroupEnd(lines[2], Audio).None?
    ensures Rewritten(lines, Audio, [3]) == (lines[0] + "\n") + (lines[2] + "\n")
  {
    RewrittenOfThree(lines, Audio, [3]);
    var e0 := EmitLine(false, lines[0], Audio, [3]);
    var e1 := EmitLine(true, lines[1], Audio, [3]);
    var e2 := EmitLine(true, lines[2], Audio, [3]);
    assert e0 == lines[0] + "\n";
    assert e1 == "" by { EmitDropped(lines[1], Audio, [3]); }
    assert e2 == lines[2] + "\n" by { EmitCopied(lines[2], Audio, [3]); }
    assert e0 + e1 == e0;
  }

  lemma AudioFilterOfMixed(sdp: string)
    requires sdp == MixedSdp
    ensures FilterCodec(Audio, "o", sdp) == (VideoHeader + "\n") + (AudioRtpmap + "\n")
  {
    MixedSplit();
    var lines := MixedLines;
    AudioScopeOfMixed(lines);
    AudioHeaderNotCodec();
    AudioHeaderNotRtx();
    AudioHeaderAttribute();
    AudioRtpmapCodec();
    AudioRtpmapNotRtx();
    AudioRtpmapAttribute();
    NoMediaTag(lines[2], Audio);
    CollectAudioRtpmap(lines[2]);
    AudioAllowedOfMixed(lines);
    AudioRewrittenOfMixed(lines);
    FilterOfLines(Audio, "o", sdp, lines);
  }

  // ---------------------------------------------------------------------------
  // Then the video filter
  // ---------------------------------------------------------------------------

  /** The flag after one more line. */
  lemma InKindStep(lines: seq<string>, kind: MediaKind, k: nat)
    requires k < |lines|
    ensures InKind(lines[..k + 1], kind) == NextInKind(InKind(lines[..k], kind), lines[k], kind)
  {
    assert lines[..k + 1][..k] == lines[..k];
  }

  lemma AudioFilteredSplit(sdp: string)
    requires sdp == (VideoHeader + "\n") + (AudioRtpmap + "\n")
    ensures Split(sdp, '\n') == AudioFilteredLines
  {
    JoinOfTwoTerminated(VideoHeader, AudioRtpmap);
    assert AudioFilteredLines == [VideoHeader, AudioRtpmap] + [""];
    SplitOfTerminated(sdp, [VideoHeader, AudioRtpmap]);
  }

  lemma VideoScopeAfterAudio(lines: seq<string>)
    requires lines == AudioFilteredLines
    ensures InKind(lines[..1], Video) && InKind(lines[..2], Video) && InKind(lines, Video)
  {
    InKindStep(lines, Video, 0);
    InKindStep(lines, Video, 1);
    InKindStep(lines, Video, 2);
    assert lines[..3] == lines;
    assert lines[0][..8] == "m=video ";
    assert lines[1][0] == 'a';
  }

  /** The video collect pass over lines that name no video codec: nothing is allowed. */
  lemma VideoAllowedAfterAudio(lines: seq<string>)
    requires |lines| == 3
    requires CollectLine([], lines[0], "v") == []
    requires CollectLine([], lines[1], "v") == []
    requires CollectLine([], lines[2], "v") == []
    ensures Allowed(lines, Video, "v") == []
  {
    AllowedOfThree(lines, Video, "v");
  }

  /** The video rewrite pass with nothing allowed over a video header, a tag of type 3
      and an empty line: the header loses its payload types, the tag is dropped. */
  lemma VideoRewrittenAfterAudio(lines: seq<string>)
    requires |lines| == 3
    requires InKind(lines[..1], Video) && InKind(lines[..2], Video) && InKind(lines, Video)
    requires EmitLine(true, lines[0], Video, []) == lines[0] + " " + "\n"
    requires AttributePayloadType(lines[1]) == Some(3)
    requires AttributePayloadType(lines[2]).None? && HeaderGroupEnd(lines[2], Video).None?
    ensures Rewritten(lines, Video, []) == (lines[0] + " " + "\n") + (lines[2] + "\n")
  {
    RewrittenOfThree(lines, Video, []);
    var e1 := EmitLine(true, lines[1], Video, []);
    var e2 := EmitLine(true, lines[2], Video, []);
    assert e1 == "" by { EmitDropped(lines[1], Video, []); }
    assert e2 == lines[2] + "\n" by { EmitCopied(lines[2], Video, []); }
    assert (lines[0] + " " + "\n") + e1 == lines[0] + " " + "\n";
  }

  lemma VideoFilterAfterAudio(sdp: string)
    requires sdp == (VideoHeader + "\n") + (AudioRtpmap + "\n")
    ensures FilterCodec(Video, "v", sdp) == (VideoHeader + " " + "\n") + ("" + "\n")
  {
    AudioFilteredSplit(sdp);
    var lines := AudioFilteredLines;
    VideoScopeAfterAudio(lines);
    VideoHeaderNotCodec();
    VideoHeaderNotRtx();
    CollectNothing(lines[0], "v");
    AudioRtpmapCodec();
    AudioRtpmapNotRtx();
    CollectNothing(lines[1], "v");
    EmptyLineMatchesNothing();
    CollectNothing(lines[2], "v");
    VideoAllowedAfterAudio(lines);
    VideoHeaderNotAttribute();
    VideoHeaderRewrite(lines[0]);
    AudioRtpmapAttribute();
    NoMediaTag(lines[2], Video);
    VideoRewrittenAfterAudio(lines);
    FilterOfLines(Video, "v", sdp, lines);
  }

  // ---------------------------------------------------------------------------
  // The video filter first
  // ---------------------------------------------------------------------------

  lemma VideoScopeOfMixed(lines: seq<string>)
    requires lines == MixedLines
    ensures InKind(lines[..1], Video) && !InKind(lines[..2], Video) && !InKind(lines, Video)
  {
    InKindStep(lines, Video, 0);
    InKindStep(lines, Video, 1);
    InKindStep(lines, Video, 2);
    assert lines[..3] == lines;
    assert lines[0][..8] == "m=video ";
    assert "m=video "[2] == 'v' && lines[1][2] == 'a';
    assert lines[1][..2] == MediaLinePrefix;
    assert lines[2][0] == 'a';
  }

  /** The video collect pass over a video header that names no video codec: nothing is
      allowed. */
  lemma VideoAllowedOfMixed(lines: seq<string>)
    requires |lines| == 3
    requires InKind(lines[..1], Video) && !InKind(lines[..2], Video) && !InKind(lines, Video)
    requires CollectLine([], lines[0], "v") == []
    ensures Allowed(lines, Video, "v") == []
  {
    AllowedOfThree(lines, Video, "v");
  }

  /** The video rewrite pass over a video header followed by an audio section: the header
      loses its payload types, the audio section is copied. */
  lemma VideoRewrittenOfMixed(lines: seq<string>)
    requires |lines| == 3
    requires InKind(lines[..1], Video) && !InKind(lines[..2], Video) && !InKind(lines, Video)
    requires EmitLine(true, lines[0], Video, []) == lines[0] + " " + "\n"
    ensures Rewritten(lines, Video, []) == (lines[0] + " " + "\n") + (lines[1] + "\n") + (lines[2] + "\n")
  {
    RewrittenOfThree(lines, Video, []);
  }

  lemma VideoFilterOfMixed(sdp: string)
    requires sdp == MixedSdp
    ensures FilterCodec(Video, "v", sdp) == (VideoHeader + " " + "\n") + (AudioHeader + "\n") + (AudioRtpmap + "\n")
  {
    MixedSplit();
    var lines := MixedLines;
    VideoScopeOfMixed(lines);
    VideoHeaderNotCodec();
    VideoHeaderNotRtx();
    CollectNothing(lines[0], "v");
    VideoAllowedOfMixed(lines);
    VideoHeaderNotAttribute();
    VideoHeaderRewrite(lines[0]);
    VideoRewrittenOfMixed(lines);
    FilterOfLines(Video, "v", sdp, lines);
  }

  // ---------------------------------------------------------------------------
  // Then the audio filter
  // ---------------------------------------------------------------------------

  lemma VideoFilteredSplit(sdp: string)
    requires sdp == (VideoHeader + " " + "\n") + (AudioHeader + "\n") + (AudioRtpmap + "\n")
    ensures Split(sdp, '\n') == VideoFilteredLines
  {
    JoinOfThreeTerminated(VideoHeader + " ", AudioHeader, AudioRtpmap);
    assert VideoFilteredLines == [VideoHeader + " ", AudioHeader, AudioRtpmap] + [""];
    SplitOfTerminated(sdp, [VideoHeader + " ", AudioHeader, AudioRtpmap]);
  }

  lemma AudioScopeAfterVideo(lines: seq<string>)
    requires lines == VideoFilteredLines
    ensures !InKind(lines[..1], Audio) && InKind(lines[..2], Audio)
    ensures InKind(lines[..3], Audio) && InKind(lines, Audio)
  {
    InKindStep(lines, Audio, 0);
    InKindStep(lines, Audio, 1);
    InKindStep(lines, Audio, 2);
    InKindStep(lines, Audio, 3);
    assert lines[..4] == lines;
    assert "m=audio "[2] == 'a' && lines[0][2] == 'v';
    assert lines[0][..2] == MediaLinePrefix;
    assert lines[1][..8] == "m=audio ";
    assert lines[2][0] == 'a';
  }

  /** The audio collect pass after the video filter: only 3 is allowed. */
  lemma AudioAllowedAfterVideo(lines: seq<string>)
    requires |lines| == 4
    requires !InKind(lines[..1], Audio) && InKind(lines[..2], Audio)
    requires InKind(lines[..3], Audio) && InKind(lines, Audio)
    requires CollectLine([], lines[1], "o") == []
    requires CollectLine([], lines[2], "o") == [3]
    requires CodecPayloadType(lines[3], "o") == None && RtxPayloadTypes(lines[3]) == None
    ensures Allowed(lines, Audio, "o") == [3]
  {
    AllowedOfFour(lines, Audio, "o");
  }

  /** The audio rewrite pass after the video filter: the audio header is dropped, the
      rest is copied. */
  lemma AudioRewrittenAfterVideo(lines: seq<string>)
    requires |lines| == 4
    requires !InKind(lines[..1], Audio) && InKind(lines[..2], Audio)
    requires InKind(lines[..3], Audio) && InKind(lines, Audio)
    requires AttributePayloadType(lines[1]) == Some(2)
    requires AttributePayloadType(lines[2]) == Some(3) && HeaderGroupEnd(lines[2], Audio).None?
    requires AttributePayloadType(lines[3]).None? && HeaderGroupEnd(lines[3], Audio).None?
    ensures Rewritten(lines, Audio, [3]) == (lines[0] + "\n") + (lines[2] + "\n") + (lines[3] + "\n")
  {
    RewrittenOfFour(lines, Audio, [3]);
    var e0 := EmitLine(false, lines[0], Audio, [3]);
    var e1 := EmitLine(true, lines[1], Audio, [3]);
    var e2 := EmitLine(true, lines[2], Audio, [3]);
    var e3 := EmitLine(true, lines[3], Audio, [3]);
    assert e0 == lines[0] + "\n";
    assert e1 == "" by { EmitDropped(lines[1], Audio, [3]); }
    assert e2 == lines[2] + "\n" by { EmitCopied(lines[2], Audio, [3]); }
    assert e3 == lines[3] + "\n" by { EmitCopied(lines[3], Audio, [3]); }
    assert e0 + e1 == e0;
  }

  lemma AudioFilterAfterVideo(sdp: string)
    requires sdp == (VideoHeader + " " + "\n") + (AudioHeader + "\n") + (AudioRtpmap + "\n")
    ensures FilterCodec(Audio, "o", sdp) == (VideoHeader + " " + "\n") + (AudioRtpmap + "\n") + ("" + "\n")
  {
    VideoFilteredSplit(sdp);
    var lines := VideoFilteredLines;
    AudioScopeAfterVideo(lines);
    AudioHeaderNotCodec();
    AudioHeaderNotRtx();
    CollectNothing(lines[1], "o");
    CollectAudioRtpmap(lines[2]);
    EmptyLineMatchesNothing();
    AudioAllowedAfterVideo(lines);
    AudioHeaderAttribute();
    AudioRtpmapAttribute();
    NoMediaTag(lines[2], Audio);
    NoMediaTag(lines[3], Audio);
    AudioRewrittenAfterVideo(lines);
    FilterOfLines(Audio, "o", sdp, lines);
  }

  // ---------------------------------------------------------------------------
  // The two orders
  // ---------------------------------------------------------------------------

  lemma AudioThenVideo(sdp: string)
    requires sdp == MixedSdp
    ensures FilterCodec(Video, "v", FilterCodec(Audio, "o", sdp)) == (VideoHeader + " " + "\n") + ("" + "\n")
  {
    AudioFilterOfMixed(sdp);
    VideoFilterAfterAudio(FilterCodec(Audio, "o", sdp));
  }

  lemma VideoThenAudio(sdp: string)
    requires sdp == MixedSdp
    ensures FilterCodec(Audio, "o", FilterCodec(Video, "v", sdp))
         == (VideoHeader + " " + "\n") + (AudioRtpmap + "\n") + ("" + "\n")
  {
    VideoFilterOfMixed(sdp);
    AudioFilterAfterVideo(FilterCodec(Video, "v", sdp));
  }

  /** Filtering audio then video need not equal filtering video then audio: on the
      example body the first order drops the `a=rtpmap:3 o` line, the second keeps it. */
  lemma FiltersDoNotCommute()
    ensures FilterCodec(Video, "v", FilterCodec(Audio, "o", MixedSdp)) == "m=video x \n\n"
    ensures FilterCodec(Audio, "o", FilterCodec(Video, "v", MixedSdp)) == "m=video x \na=rtpmap:3 o\n\n"
  {
    AudioThenVideo(MixedSdp);
    VideoThenAudio(MixedSdp);
    OrderResults();
  }

  /** The two results written out. */
  lemma OrderResults()
    ensures (VideoHeader + " " + "\n") + ("" + "\n") == "m=video x \n\n"
    ensures (VideoHeader + " " + "\n") + (AudioRtpmap + "\n") + ("" + "\n") == "m=video x \na=rtpmap:3 o\n\n"
  {
  }
}
