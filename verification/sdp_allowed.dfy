/**
  The collect pass of `sdpFilterCodec`: which payload types end up allowed, and in
  what order. A payload type is allowed when an `a=rtpmap` line of a section of
  the kind names the codec with it, or when an `a=fmtp:N apt=M` line of such a
  section points (M) at a payload type allowed by an EARLIER line or by the same
  line; a retransmission line that comes before its codec line is not honoured.
*/
module SdpAllowedProperties {
  import opened Wrappers
  import opened JsString
  import opened SdpFilter
  import opened SdpFilterProperties

  // ---------------------------------------------------------------------------
  // Canonical lines
  // ---------------------------------------------------------------------------

  /** `a=rtpmap:<pt> <codec>...` names the codec with payload type pt. */
  lemma CodecOfRtpmapLine(pt: nat, codec: string, rest: string)
    ensures CodecPayloadType(RtpmapTag + NatToString(pt) + " " + codec + rest, codec) == Some(pt)
  {
    var line := RtpmapTag + NatToString(pt) + " " + codec + rest;
    CodecAtRtpmapLine(pt, codec, rest);
    LeftmostAtStart(q => CodecAt(line, codec, q), |line|);
  }

  lemma CodecAtRtpmapLine(pt: nat, codec: string, rest: string)
    ensures CodecAt(RtpmapTag + NatToString(pt) + " " + codec + rest, codec, 0) == Some(pt)
  {
    var d := NatToString(pt);
    assert RtpmapTag + d + " " + codec + rest == RtpmapTag + (d + ([' '] + (codec + rest)));
    CodecAtDigits(d, codec, rest);
    DigitsValueOfNatToString(pt);
  }

  lemma CodecAtDigits(d: string, codec: string, rest: string)
    requires d != [] && AllDigits(d)
    ensures CodecAt(RtpmapTag + (d + ([' '] + (codec + rest))), codec, 0) == Some(DigitsValue(d))
  {
    var after := [' '] + (codec + rest);
    var r := d + after;
    var line := RtpmapTag + r;
    assert line[0..] == line;
    assert line[..|RtpmapTag|] == RtpmapTag;
    assert line[|RtpmapTag|..] == r;
    DigitRunOfDigits(d, after);
    assert r[..|d|] == d && r[|d|..] == after;
    assert after[..1 + |codec|] == [' '] + codec;
  }

  /** `a=fmtp:<n> apt=<m>` followed by `\r` is a retransmission line for (n, m). */
  lemma RtxOfFmtpLine(n: nat, m: nat)
    ensures RtxPayloadTypes(FmtpTag + NatToString(n) + AptTag + NatToString(m) + "\r") == Some((n, m))
  {
    var line := FmtpTag + NatToString(n) + AptTag + NatToString(m) + "\r";
    RtxAtFmtpLine(n, m);
    LeftmostAtStart(q => RtxAt(line, q), |line|);
  }

  lemma RtxAtFmtpLine(n: nat, m: nat)
    ensures RtxAt(FmtpTag + NatToString(n) + AptTag + NatToString(m) + "\r", 0) == Some((n, m))
  {
    var dn := NatToString(n);
    var dm := NatToString(m);
    assert FmtpTag + dn + AptTag + dm + "\r" == FmtpTag + (dn + (AptTag + (dm + "\r")));
    RtxAtDigits(dn, dm);
    DigitsValueOfNatToString(n);
    DigitsValueOfNatToString(m);
  }

  lemma RtxAtDigits(dn: string, dm: string)
    requires dn != [] && AllDigits(dn) && dm != [] && AllDigits(dm)
    ensures RtxAt(FmtpTag + (dn + (AptTag + (dm + "\r"))), 0) == Some((DigitsValue(dn), DigitsValue(dm)))
  {
    var r2 := dm + "\r";
    var r1 := dn + (AptTag + r2);
    var line := FmtpTag + r1;
    assert line[0..] == line;
    assert line[..|FmtpTag|] == FmtpTag;
    assert line[|FmtpTag|..] == r1;
    DigitRunOfDigits(dn, AptTag + r2);
    assert r1[..|dn|] == dn && r1[|dn|..] == AptTag + r2;
    assert r1[|dn| + |AptTag|..] == r2;
    DigitRunOfDigits(dm, "\r");
    assert r2[..|dm|] == dm && r2[|dm|..] == "\r";
  }

  /** A line `<tag><pt>...` with tag `a=fmtp:`, `a=rtcp-fb:` or `a=rtpmap:` refers to pt. */
  lemma AttributeOfTaggedLine(tag: string, pt: nat, rest: string)
    requires tag == FmtpTag || tag == RtcpFbTag || tag == RtpmapTag
    requires rest == [] || !IsDigit(rest[0])
    ensures AttributePayloadType(tag + NatToString(pt) + rest) == Some(pt)
  {
    var line := tag + NatToString(pt) + rest;
    AttributeAtTaggedLine(tag, pt, rest);
    LeftmostAtStart(q => AttributeAt(line, q), |line|);
  }

  lemma AttributeAtTaggedLine(tag: string, pt: nat, rest: string)
    requires tag == FmtpTag || tag == RtcpFbTag || tag == RtpmapTag
    requires rest == [] || !IsDigit(rest[0])
    ensures AttributeAt(tag + NatToString(pt) + rest, 0) == Some(pt)
  {
    var d := NatToString(pt);
    var r := d + rest;
    var line := tag + NatToString(pt) + rest;
    assert line == tag + r;
    assert line[0..] == line;
    assert line[..|tag|] == tag;
    TagLengthOf(tag, line);
    assert line[|tag|..] == r;
    DigitRunOfDigits(d, rest);
    assert r[..|d|] == d;
    DigitsValueOfNatToString(pt);
  }

  /** The three tags are told apart by their third or fifth character. */
  lemma TagLengthOf(tag: string, s: string)
    requires tag == FmtpTag || tag == RtcpFbTag || tag == RtpmapTag
    requires tag <= s
    ensures AttributeTagLength(s) == |tag|
  {
    PrefixCharacter(tag, s, 2);
    PrefixCharacter(FmtpTag, s, 2);
    PrefixCharacter(tag, s, 4);
    PrefixCharacter(RtcpFbTag, s, 4);
  }

  // ---------------------------------------------------------------------------
  // One line of the collect pass
  // ---------------------------------------------------------------------------

  /** x is admitted by `line` when `allowed` holds the types admitted before it: the line
      names the codec with x, or it is a retransmission line for x whose referenced type
      is already allowed or is named with the codec on this same line. */
  predicate AdmittedBy(allowed: seq<nat>, line: string, codec: string, x: nat)
  {
    || CodecPayloadType(line, codec) == Some(x)
    || (RtxPayloadTypes(line).Some? && RtxPayloadTypes(line).value.0 == x &&
        (RtxPayloadTypes(line).value.1 in allowed ||
         CodecPayloadType(line, codec) == Some(RtxPayloadTypes(line).value.1)))
  }

  /** A line only appends to `allowed`, and what it appends is what it admits (at most two). */
  lemma CollectLineAppends(allowed: seq<nat>, line: string, codec: string)
    ensures var next := CollectLine(allowed, line, codec);
      && allowed <= next && |next| <= |allowed| + 2
      && forall x :: x in next[|allowed|..] <==> AdmittedBy(allowed, line, codec, x)
  {
    var next := CollectLine(allowed, line, codec);
    var cm := CodecPayloadType(line, codec);
    var first: seq<nat> := if cm.Some? then [cm.value] else [];
    var after := allowed + first;
    var rm := RtxPayloadTypes(line);
    var second: seq<nat> := if rm.Some? && rm.value.1 in after then [rm.value.0] else [];
    assert next == allowed + (first + second);
    assert next[|allowed|..] == first + second;
    assert rm.Some? ==> (rm.value.1 in after <==> rm.value.1 in allowed || cm == Some(rm.value.1));
  }

  // ---------------------------------------------------------------------------
  // The whole pass
  // ---------------------------------------------------------------------------

  /** The collect pass reads line i exactly when it lies in a section of the kind. */
  lemma AllowedStep(lines: seq<string>, kind: MediaKind, codec: string, i: nat)
    requires i < |lines|
    ensures Allowed(lines[..i + 1], kind, codec)
         == if InTargetSection(lines, kind, i)
            then CollectLine(Allowed(lines[..i], kind, codec), lines[i], codec)
            else Allowed(lines[..i], kind, codec)
  {
    InKindIffInSection(lines, kind, i);
    assert lines[..i + 1][..i] == lines[..i] && lines[..i + 1][i] == lines[i];
  }

  /** `allowed` only grows: what an earlier prefix allowed stays allowed, in the same order. */
  lemma {:induction false} AllowedGrows(lines: seq<string>, kind: MediaKind, codec: string, i: nat, j: nat)
    requires i <= j <= |lines|
    ensures Allowed(lines[..i], kind, codec) <= Allowed(lines[..j], kind, codec)
    decreases j - i
  {
    if i < j {
      AllowedGrows(lines, kind, codec, i, j - 1);
      AllowedStep(lines, kind, codec, j - 1);
      CollectLineAppends(Allowed(lines[..j - 1], kind, codec), lines[j - 1], codec);
    }
  }

  /** x is admitted by line i of the body: the line lies in a section of the kind and
      admits x given what the lines before it allowed. */
  predicate AdmittedAt(lines: seq<string>, kind: MediaKind, codec: string, i: nat, x: nat)
    requires i < |lines|
  {
    InTargetSection(lines, kind, i) && AdmittedBy(Allowed(lines[..i], kind, codec), lines[i], codec, x)
  }

  /** An element of an extension is in the original or in the part appended to it. */
  lemma ExtensionMembers(before: seq<nat>, after: seq<nat>, x: nat)
    requires before <= after
    ensures x in after <==> x in before || x in after[|before|..]
  {
    assert after == before + after[|before|..];
  }

  /** Line i adds to what the lines before it allowed exactly what it admits. */
  lemma AllowedAfterLine(lines: seq<string>, kind: MediaKind, codec: string, i: nat, x: nat)
    requires i < |lines|
    ensures x in Allowed(lines[..i + 1], kind, codec)
        <==> x in Allowed(lines[..i], kind, codec) || AdmittedAt(lines, kind, codec, i, x)
  {
    var before := Allowed(lines[..i], kind, codec);
    var after := Allowed(lines[..i + 1], kind, codec);
    AllowedStep(lines, kind, codec, i);
    if InTargetSection(lines, kind, i) {
      CollectLineAppends(before, lines[i], codec);
      assert after == CollectLine(before, lines[i], codec);
      ExtensionMembers(before, after, x);
    }
  }

  /** Everything allowed after the first n lines was admitted by one of them. */
  lemma {:induction false} AllowedWasAdmitted(lines: seq<string>, kind: MediaKind, codec: string, n: nat, x: nat)
    requires n <= |lines|
    ensures x in Allowed(lines[..n], kind, codec) ==> exists i :: 0 <= i < n && AdmittedAt(lines, kind, codec, i, x)
    decreases n
  {
    if n == 0 {
      assert lines[..0] == [];
    } else if x in Allowed(lines[..n], kind, codec) {
      AllowedAfterLine(lines, kind, codec, n - 1, x);
      if !AdmittedAt(lines, kind, codec, n - 1, x) {
        AllowedWasAdmitted(lines, kind, codec, n - 1, x);
      }
    }
  }

  /** What a line admits stays allowed for the rest of the pass. */
  lemma AdmittedStaysAllowed(lines: seq<string>, kind: MediaKind, codec: string, i: nat, n: nat, x: nat)
    requires i < n <= |lines|
    ensures AdmittedAt(lines, kind, codec, i, x) ==> x in Allowed(lines[..n], kind, codec)
  {
    if AdmittedAt(lines, kind, codec, i, x) {
      var after := Allowed(lines[..i + 1], kind, codec);
      var last := Allowed(lines[..n], kind, codec);
      AllowedAfterLine(lines, kind, codec, i, x);
      assert x in after;
      AllowedGrows(lines, kind, codec, i + 1, n);
      ExtensionMembers(after, last, x);
    }
  }

  /** Both directions: the allowed list of the body holds exactly the payload types some
      line admits. */
  lemma AllowedMembers(lines: seq<string>, kind: MediaKind, codec: string, x: nat)
    ensures x in Allowed(lines, kind, codec) <==> exists i :: 0 <= i < |lines| && AdmittedAt(lines, kind, codec, i, x)
  {
    assert lines[..|lines|] == lines;
    AllowedWasAdmitted(lines, kind, codec, |lines|, x);
    if exists i :: 0 <= i < |lines| && AdmittedAt(lines, kind, codec, i, x) {
      var i :| 0 <= i < |lines| && AdmittedAt(lines, kind, codec, i, x);
      AdmittedStaysAllowed(lines, kind, codec, i, |lines|, x);
    }
  }

  /** Lines outside every section of the kind never add to `allowed`. */
  lemma OutOfScopeAddsNothing(lines: seq<string>, kind: MediaKind, codec: string, i: nat)
    requires i < |lines| && !InTargetSection(lines, kind, i)
    ensures Allowed(lines[..i + 1], kind, codec) == Allowed(lines[..i], kind, codec)
  {
    AllowedStep(lines, kind, codec, i);
  }

  /** A retransmission line is honoured only when its referenced type was allowed by an
      earlier line (or the same line): if the reference comes later, the line adds nothing. */
  lemma ForwardReferenceIgnored(lines: seq<string>, kind: MediaKind, codec: string, i: nat)
    requires i < |lines|
    requires RtxPayloadTypes(lines[i]).Some?
    requires RtxPayloadTypes(lines[i]).value.1 !in Allowed(lines[..i], kind, codec)
    requires CodecPayloadType(lines[i], codec).None?
    ensures Allowed(lines[..i + 1], kind, codec) == Allowed(lines[..i], kind, codec)
  {
    AllowedStep(lines, kind, codec, i);
  }
}
