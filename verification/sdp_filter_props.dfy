/**
  What `sdpFilterCodec` guarantees, stated over the lines of the split body:
  which lines are in scope, what each line turns into, how a header is
  rewritten, and in what order payload types are allowed.
*/
module SdpFilterProperties {
  import opened Wrappers
  import opened JsString
  import opened SdpFilter

  /** The index of the last `m=` line at or before line i, if there is one. */
  function LastMediaLine(lines: seq<string>, i: nat): (r: Option<nat>)
    requires i < |lines|
    ensures r.Some? ==> r.value <= i && MediaLinePrefix <= lines[r.value]
    ensures r.Some? ==> forall k :: r.value < k <= i ==> !(MediaLinePrefix <= lines[k])
    ensures r.None? ==> forall k :: 0 <= k <= i ==> !(MediaLinePrefix <= lines[k])
  {
    if MediaLinePrefix <= lines[i] then Some(i)
    else if i == 0 then None
    else LastMediaLine(lines, i - 1)
  }

  /** Line i lies in a section of the kind: the last `m=` line at or before it is a
      header of that kind. */
  predicate InTargetSection(lines: seq<string>, kind: MediaKind, i: nat)
    requires i < |lines|
  {
    var last := LastMediaLine(lines, i);
    last.Some? && SectionPrefix(kind) <= lines[last.value]
  }

  lemma SectionPrefixIsMediaLine(kind: MediaKind, line: string)
    ensures SectionPrefix(kind) <= line ==> MediaLinePrefix <= line
  {
    assert SectionPrefix(kind)[..2] == MediaLinePrefix;
  }

  // ---------------------------------------------------------------------------
  // Scope of the passes
  // ---------------------------------------------------------------------------

  /** The `isKind` flag at line i is exactly "line i lies in a section of the kind":
      it starts false, a header of the kind sets it, any other `m=` line clears it. */
  lemma {:induction false} InKindIffInSection(lines: seq<string>, kind: MediaKind, i: nat)
    requires i < |lines|
    ensures InKind(lines[..i + 1], kind) <==> InTargetSection(lines, kind, i)
  {
    var line := lines[i];
    assert lines[..i + 1][..i] == lines[..i] && lines[..i + 1][i] == line;
    SectionPrefixIsMediaLine(kind, line);
    if !(MediaLinePrefix <= line) && i > 0 {
      InKindIffInSection(lines, kind, i - 1);
      assert lines[..i] == lines[..(i - 1) + 1];
    }
  }

  /** Session-level lines, which come before the first `m=` line, are never in scope. */
  lemma SessionLinesOutOfScope(lines: seq<string>, kind: MediaKind, i: nat)
    requires i < |lines|
    requires forall j :: 0 <= j <= i ==> !(MediaLinePrefix <= lines[j])
    ensures !InKind(lines[..i + 1], kind)
  {
    InKindIffInSection(lines, kind, i);
  }

  // ---------------------------------------------------------------------------
  // The output, piece by piece
  // ---------------------------------------------------------------------------

  /** What the rewrite pass emits for each line, in order. */
  ghost function Pieces(lines: seq<string>, kind: MediaKind, allowed: seq<nat>): (ps: seq<string>)
    ensures |ps| == |lines|
  {
    seq(|lines|, i requires 0 <= i < |lines| => EmitLine(InKind(lines[..i + 1], kind), lines[i], kind, allowed))
  }

  /** The pieces of all lines but the last are the pieces of the shorter body. */
  lemma PiecesOfFront(lines: seq<string>, kind: MediaKind, allowed: seq<nat>)
    requires lines != []
    ensures Pieces(lines, kind, allowed)[..|lines| - 1] == Pieces(lines[..|lines| - 1], kind, allowed)
  {
    var n := |lines|;
    var front := lines[..n - 1];
    var ps := Pieces(lines, kind, allowed);
    forall i | 0 <= i < n - 1
      ensures ps[..n - 1][i] == Pieces(front, kind, allowed)[i]
    {
      assert front[..i + 1] == lines[..i + 1];
    }
  }

  /** The output is the pieces one after the other, in the order of the input lines. */
  lemma {:induction false} RewrittenIsConcatOfPieces(lines: seq<string>, kind: MediaKind, allowed: seq<nat>)
    ensures Rewritten(lines, kind, allowed) == Concat(Pieces(lines, kind, allowed))
    decreases |lines|
  {
    if lines != [] {
      var n := |lines|;
      var front := lines[..n - 1];
      var ps := Pieces(lines, kind, allowed);
      RewrittenIsConcatOfPieces(front, kind, allowed);
      PiecesOfFront(lines, kind, allowed);
      assert lines[..n] == lines;
      assert ps[n - 1] == EmitLine(InKind(lines, kind), lines[n - 1], kind, allowed);
      assert Concat(ps) == Concat(ps[..n - 1]) + ps[n - 1];
    }
  }

  /** Each line's piece: outside a section of the kind the line is copied with `'\n'`;
      inside one it vanishes exactly when it is an `a=fmtp`, `a=rtcp-fb` or
      `a=rtpmap` line of a payload type that is not allowed; a kept line that
      matches the header pattern is cut after the header prefix and given the
      allowed list, and every other kept line is copied with `'\n'`. */
  lemma PieceOfLine(lines: seq<string>, kind: MediaKind, allowed: seq<nat>, i: nat)
    requires i < |lines|
    ensures var piece := Pieces(lines, kind, allowed)[i];
      var inScope := InTargetSection(lines, kind, i);
      var dropped := AttributePayloadType(lines[i]).Some? && AttributePayloadType(lines[i]).value !in allowed;
      && (!inScope ==> piece == lines[i] + "\n")
      && (inScope ==> (piece == "" <==> dropped))
      && (inScope && !dropped && HeaderGroupEnd(lines[i], kind).Some? ==>
            piece == lines[i][..HeaderGroupEnd(lines[i], kind).value] + " " + JoinNumbers(allowed) + "\n")
      && (inScope && !dropped && HeaderGroupEnd(lines[i], kind).None? ==> piece == lines[i] + "\n")
  {
    InKindIffInSection(lines, kind, i);
  }

  /** Lines of other kinds and session lines come out unchanged: with no header of the
      kind, the output is the body followed by one extra `'\n'` (so not byte-identical). */
  lemma NoTargetSectionAppendsNewline(kind: MediaKind, codec: string, sdp: string)
    requires forall line <- Split(sdp, '\n') :: !(SectionPrefix(kind) <= line)
    ensures FilterCodec(kind, codec, sdp) == sdp + "\n"
  {
    var lines := Split(sdp, '\n');
    var allowed := Allowed(lines, kind, codec);
    forall j | 0 <= j < |lines| ensures !(SectionPrefix(kind) <= lines[j]) {
      assert lines[j] in lines;
    }
    UntouchedPrefix(lines, kind, allowed, |lines|);
    assert lines[..|lines|] == lines;
  }

  lemma {:induction false} UntouchedPrefix(lines: seq<string>, kind: MediaKind, allowed: seq<nat>, n: nat)
    requires 1 <= n <= |lines|
    requires forall j :: 0 <= j < n ==> !(SectionPrefix(kind) <= lines[j])
    ensures !InKind(lines[..n], kind)
    ensures Rewritten(lines[..n], kind, allowed) == Join(lines[..n], "\n") + "\n"
  {
    var front := lines[..n][..n - 1];
    assert front == lines[..n - 1];
    assert lines[..n][n - 1] == lines[n - 1];
    if n == 1 {
      assert front == [];
      assert InKind(lines[..1], kind) == NextInKind(false, lines[0], kind);
      assert Join(lines[..1], "\n") == lines[0];
    } else {
      UntouchedPrefix(lines, kind, allowed, n - 1);
      assert !InKind(lines[..n], kind);
      assert Rewritten(lines[..n], kind, allowed) == Join(lines[..n - 1], "\n") + "\n" + (lines[n - 1] + "\n");
      JoinSnoc(lines[..n - 1], lines[n - 1], "\n");
      assert lines[..n - 1] + [lines[n - 1]] == lines[..n];
    }
  }

  lemma {:induction false} JoinSnoc(xs: seq<string>, x: string, sep: string)
    requires xs != []
    ensures Join(xs + [x], sep) == Join(xs, sep) + sep + x
    decreases |xs|
  {
    if |xs| == 1 {
      assert (xs + [x])[1..] == [x];
    } else {
      assert (xs + [x])[1..] == xs[1..] + [x];
      JoinSnoc(xs[1..], x, sep);
    }
  }

  /** Filtering is not idempotent: every pass appends one more `'\n'`. */
  lemma FilterNotIdempotent(kind: MediaKind, codec: string)
    ensures FilterCodec(kind, codec, "") == "\n"
    ensures FilterCodec(kind, codec, FilterCodec(kind, codec, "")) == "\n\n"
  {
    assert Split("", '\n') == [""];
    NoTargetSectionAppendsNewline(kind, codec, "");
    var once := FilterCodec(kind, codec, "");
    var lines := Split(once, '\n');
    forall line <- lines ensures !(SectionPrefix(kind) <= line) {
      assert '\n' !in line;
      assert |line| <= 1;
    }
    NoTargetSectionAppendsNewline(kind, codec, once);
  }

  // ---------------------------------------------------------------------------
  // The header rewrite
  // ---------------------------------------------------------------------------

  /** Space-prefixed decimal payload types: the trailing list of a header. */
  function SpacedNumbers(pts: seq<nat>): string
  {
    if pts == [] then [] else " " + NatToString(pts[0]) + SpacedNumbers(pts[1..])
  }

  /** Only digits and white space occur in a payload-list tail. */
  lemma {:induction false} TailCharacters(s: string)
    ensures IsPayloadListTail(s) ==> forall j :: 0 <= j < |s| ==> IsDigit(s[j]) || IsWhiteSpace(s[j])
    decreases |s|
  {
    if IsPayloadListTail(s) && !AllWhiteSpace(s) {
      var n := DigitRunLength(s[1..]);
      TailCharacters(s[1 + n..]);
      forall j | 0 <= j < |s| ensures IsDigit(s[j]) || IsWhiteSpace(s[j]) {
        if 1 <= j < 1 + n {
          assert s[j] == s[1..][..n][j - 1];
        } else if j >= 1 + n {
          assert s[j] == s[1 + n..][j - 1 - n];
        }
      }
    }
  }

  /** A list of payload types followed by white space (such as the final `\r`) is what
      `( ([0-9]+))*\s*` matches. */
  lemma {:induction false} SpacedNumbersAreTail(pts: seq<nat>, ws: string)
    requires AllWhiteSpace(ws)
    ensures IsPayloadListTail(SpacedNumbers(pts) + ws)
    decreases |pts|
  {
    if pts == [] {
      assert SpacedNumbers(pts) + ws == ws;
    } else {
      var d := NatToString(pts[0]);
      var after := SpacedNumbers(pts[1..]) + ws;
      assert SpacedNumbers(pts) + ws == [' '] + d + after;
      SpacedNumbersAreTail(pts[1..], ws);
      SpacedNumbersStart(pts[1..], ws);
      TailCons(d, after);
    }
  }

  lemma SpacedNumbersStart(pts: seq<nat>, ws: string)
    requires AllWhiteSpace(ws)
    ensures var s := SpacedNumbers(pts) + ws; s == [] || !IsDigit(s[0])
  {
    if pts == [] {
      assert SpacedNumbers(pts) + ws == ws;
    }
  }

  /** One more ` <digits>` group in front of a tail gives a tail. */
  lemma TailCons(d: string, after: string)
    requires d != [] && AllDigits(d)
    requires after == [] || !IsDigit(after[0])
    requires IsPayloadListTail(after)
    ensures IsPayloadListTail([' '] + d + after)
  {
    var s := [' '] + d + after;
    assert s[1..] == d + after;
    DigitRunOfDigits(d, after);
    assert s[1 + |d|..] == after;
    assert s[1] == d[0];
  }

  /** A search that matches at the start of the line stops there. */
  lemma LeftmostAtStart<T>(at: nat -> Option<T>, to: nat)
    requires at(0).Some?
    ensures Leftmost(at, 0, to) == Some((0, at(0).value))
  {
  }

  /** A search stops at the first position that matches. */
  lemma {:induction false} LeftmostAt<T>(at: nat -> Option<T>, from: nat, p: nat, to: nat)
    requires from <= p <= to
    requires forall q :: from <= q < p ==> at(q).None?
    requires at(p).Some?
    ensures Leftmost(at, from, to) == Some((p, at(p).value))
    decreases p - from
  {
    if from < p {
      LeftmostAt(at, from + 1, p, to);
    }
  }

  /** The lazy `.*?` run over `<mid><list>` stops right after mid, when mid holds no line
      terminator and ends in a character that can not begin or belong to the list. */
  lemma LazyCutAfterMid(mid: string, tail: string)
    requires mid != [] && !IsDigit(mid[|mid| - 1]) && !IsWhiteSpace(mid[|mid| - 1])
    requires forall k :: 0 <= k < |mid| ==> !IsLineTerminator(mid[k])
    requires IsPayloadListTail(tail)
    ensures LazyCut(mid + tail, 0) == Some(|mid|)
  {
    var rest := mid + tail;
    assert rest[|mid|..] == tail;
    forall k | 0 <= k < |mid| ensures !IsPayloadListTail(rest[k..]) && !IsLineTerminator(rest[k]) {
      TailCharacters(rest[k..]);
      assert rest[k..][|mid| - 1 - k] == mid[|mid| - 1];
      assert rest[k] == mid[k];
    }
  }

  /** For a header `m=<kind> <mid><list><white space>` whose mid ends in a character that
      can not belong to the list, group 1 of the header pattern is exactly `m=<kind> <mid>`. */
  lemma HeaderGroupEndsBeforeList(kind: MediaKind, mid: string, tail: string)
    requires mid != [] && !IsDigit(mid[|mid| - 1]) && !IsWhiteSpace(mid[|mid| - 1])
    requires forall k :: 0 <= k < |mid| ==> !IsLineTerminator(mid[k])
    requires IsPayloadListTail(tail)
    ensures HeaderGroupEnd(SectionPrefix(kind) + mid + tail, kind) == Some(|SectionPrefix(kind)| + |mid|)
  {
    var prefix := SectionPrefix(kind);
    var line := prefix + mid + tail;
    HeaderAtStart(prefix, kind, mid + tail);
    assert line == prefix + (mid + tail);
    LazyCutAfterMid(mid, tail);
    LeftmostAtStart(q => HeaderAt(line, kind, q), |line|);
  }

  /** The header pattern tried at the start of `m=<kind> <rest>` runs `.*?` over rest. */
  lemma HeaderAtStart(prefix: string, kind: MediaKind, rest: string)
    requires prefix == SectionPrefix(kind)
    ensures HeaderAt(prefix + rest, kind, 0)
         == if LazyCut(rest, 0).Some? then Some(|prefix| + LazyCut(rest, 0).value) else None
  {
    var line := prefix + rest;
    assert line[0..] == line;
    assert line[..|prefix|] == prefix;
    assert line[|prefix|..] == rest;
  }

  lemma AttributeTagStartsWithAEquals(s: string)
    ensures AttributeTagLength(s) > 0 ==> |s| >= 2 && s[0] == 'a' && s[1] == '='
  {
  }

  /** The pattern `a=(fmtp|rtcp-fb|rtpmap):[0-9]+` needs an `=` right after an `a`. */
  lemma NoAttributeWithoutEquals(line: string)
    requires forall p :: 0 <= p < |line| - 1 ==> !(line[p] == 'a' && line[p + 1] == '=')
    ensures AttributePayloadType(line).None?
  {
    forall q | 0 <= q ensures AttributeAt(line, q).None? {
      if q <= |line| {
        AttributeTagStartsWithAEquals(line[q..]);
        if q + 1 < |line| {
          assert line[q..][0] == line[q] && line[q..][1] == line[q + 1];
        }
      }
    }
  }

  /** A character of a prefix is the character of the text at the same index. */
  lemma PrefixCharacter(a: string, b: string, k: nat)
    ensures a <= b && k < |a| ==> a[k] == b[k]
  {
    if a <= b && k < |a| {
      assert b[..|a|][k] == b[k];
    }
  }

  /** A line in which no `m` is directly followed by `=` does not match the header pattern. */
  lemma NoHeaderWithoutMediaTag(line: string, kind: MediaKind)
    requires forall p :: 0 <= p < |line| - 1 ==> !(line[p] == 'm' && line[p + 1] == '=')
    ensures HeaderGroupEnd(line, kind).None?
  {
    forall q | 0 <= q <= |line| ensures HeaderAt(line, kind, q).None? {
      PrefixCharacter(SectionPrefix(kind), line[q..], 0);
      PrefixCharacter(SectionPrefix(kind), line[q..], 1);
      if q + 1 < |line| {
        assert line[q..][0] == line[q] && line[q..][1] == line[q + 1];
      }
    }
  }

  /** A header `m=<kind> <mid> <payload types><white space>` in scope is rewritten to
      `m=<kind> <mid> <allowed, space-separated>` followed by `'\n'`: the prefix is kept,
      the whole trailing list (and the `\r`) is replaced by the allowed list, which
      leaves a bare trailing space when nothing is allowed. */
  lemma HeaderRewrite(kind: MediaKind, mid: string, pts: seq<nat>, ws: string, allowed: seq<nat>)
    requires mid != [] && !IsDigit(mid[|mid| - 1]) && !IsWhiteSpace(mid[|mid| - 1])
    requires forall k :: 0 <= k < |mid| ==> !IsLineTerminator(mid[k]) && mid[k] != '='
    requires AllWhiteSpace(ws)
    ensures EmitLine(true, SectionPrefix(kind) + mid + SpacedNumbers(pts) + ws, kind, allowed)
         == SectionPrefix(kind) + mid + " " + JoinNumbers(allowed) + "\n"
  {
    var prefix := SectionPrefix(kind);
    var tail := SpacedNumbers(pts) + ws;
    var line := prefix + mid + tail;
    assert line == prefix + mid + SpacedNumbers(pts) + ws;
    SpacedNumbersAreTail(pts, ws);
    HeaderGroupEndsBeforeList(kind, mid, tail);
    NoEqualsInHeader(kind, mid, tail);
    NoAttributeWithoutEquals(line);
    assert line[..|prefix| + |mid|] == prefix + mid;
  }

  lemma NoEqualsInHeader(kind: MediaKind, mid: string, tail: string)
    requires forall k :: 0 <= k < |mid| ==> mid[k] != '='
    requires IsPayloadListTail(tail)
    ensures var line := SectionPrefix(kind) + mid + tail;
      line[0] == 'm' && forall p :: 2 <= p < |line| ==> line[p] != '='
  {
    var prefix := SectionPrefix(kind);
    var line := prefix + mid + tail;
    TailCharacters(tail);
    forall p | 2 <= p < |line| ensures line[p] != '=' {
      if p < |prefix| {
        assert line[p] == prefix[p];
      } else if p < |prefix| + |mid| {
        assert line[p] == mid[p - |prefix|];
      } else {
        assert line[p] == tail[p - |prefix| - |mid|];
      }
    }
  }
}
