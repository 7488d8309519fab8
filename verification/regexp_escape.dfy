/**
  `escapeRegExp` (client.js): backslash-escapes every character that has a
  meaning of its own in a regular expression, so that a codec name such as
  `opus/48000/2` or `H264` can be spliced into a pattern and matched literally.
*/
module RegExpEscape {
  import opened Wrappers

  /** The characters of the class `[.*+?^${}()|[\]\\]`. */
  const SyntaxCharacters: string := ".*+?^${}()|[]\\"

  predicate IsSyntaxCharacter(c: char) { c in SyntaxCharacters }

  /** `string.replace(/[.*+?^${}()|[\]\\]/g, '\\$&')`. */
  function EscapeRegExp(s: string): (r: string)
    ensures |r| >= |s|
  {
    if s == [] then []
    else (if IsSyntaxCharacter(s[0]) then ['\\', s[0]] else [s[0]]) + EscapeRegExp(s[1..])
  }

  /**
    The text a pattern matches when it is built only of ordinary characters and of
    escaped syntax characters (`\.`, `\(`, ...); `None` when the pattern holds an
    unescaped syntax character or any other escape. This grammar rejects every other
    escape, although JavaScript without the `u` flag reads some of them (`\-`, `\/`,
    `\a`) as literal characters too.
  */
  function LiteralText(p: string): Option<string>
    decreases |p|
  {
    if p == [] then Some([])
    else if p[0] == '\\' then
      if |p| >= 2 && IsSyntaxCharacter(p[1]) then
        match LiteralText(p[2..])
        case Some(t) => Some([p[1]] + t)
        case None => None
      else None
    else if IsSyntaxCharacter(p[0]) then None
    else
      match LiteralText(p[1..])
      case Some(t) => Some([p[0]] + t)
      case None => None
  }

  /** The escaped name is a literal pattern for exactly the name. */
  lemma {:induction false} EscapedIsLiteral(s: string)
    ensures LiteralText(EscapeRegExp(s)) == Some(s)
  {
    if s != [] {
      var e := EscapeRegExp(s);
      EscapedIsLiteral(s[1..]);
      if IsSyntaxCharacter(s[0]) {
        assert e[2..] == EscapeRegExp(s[1..]);
      } else {
        assert e[1..] == EscapeRegExp(s[1..]);
      }
      assert [s[0]] + s[1..] == s;
    }
  }

  /** Escaping is the only way to write a name as a literal pattern: every literal
      pattern for t is EscapeRegExp(t). */
  lemma {:induction false} LiteralIsEscaped(p: string, t: string)
    requires LiteralText(p) == Some(t)
    ensures p == EscapeRegExp(t)
    decreases |p|
  {
    if p != [] {
      if p[0] == '\\' {
        var t' := LiteralText(p[2..]).value;
        LiteralIsEscaped(p[2..], t');
        assert t == [p[1]] + t' && t[1..] == t';
        assert p == [p[0], p[1]] + p[2..];
      } else {
        var t' := LiteralText(p[1..]).value;
        LiteralIsEscaped(p[1..], t');
        assert t == [p[0]] + t' && t[1..] == t';
        assert p == [p[0]] + p[1..];
      }
    }
  }
}
