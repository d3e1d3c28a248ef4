/** Escaping text for a JavaScript single-quoted string literal in
    generated test code: `esc` (generator/ai-tests.js) and the templates'
    `escapeTest` (generator/page-tests.js and its siblings), together with
    the decoder that a JavaScript parser applies to the literal's body. */
module JsEscape {
  import opened Wrappers
  import opened Text
  import opened Json

  /** `esc(s)` on a string: backslashes first, then single quotes, then
      line feeds. */
  function Esc(s: string): string {
    ReplaceChar(ReplaceChar(ReplaceChar(s, '\\', "\\\\"), '\'', "\\'"), '\n', "\\n")
  }

  /** `esc(v)`: `String(v || '')` escaped, so a missing or falsy value
      gives the empty literal. */
  function EscValue(v: Option<Json>): (r: string)
    ensures !Present(v) ==> r == ""
    ensures v.Some? && v.value.JStr? ==> r == Esc(v.value.s)
  {
    Esc(StringOrEmpty(v))
  }

  /** What one character becomes in `Esc`. */
  function EscChar(c: char): string {
    if c == '\\' then "\\\\" else if c == '\'' then "\\'" else if c == '\n' then "\\n" else [c]
  }

  /** Character by character escaping: the reference definition. */
  function EscEach(s: string): string
    decreases |s|
  {
    if |s| == 0 then "" else EscChar(s[0]) + EscEach(s[1..])
  }

  /** The three passes of `esc` escape each character independently: no
      pass rewrites what an earlier pass produced. */
  lemma {:induction false} EscIsCharwise(s: string)
    ensures Esc(s) == EscEach(s)
    decreases |s|
  {
    if |s| > 0 {
      var x, rest := s[0], s[1..];
      assert s == [x] + rest;
      EscIsCharwise(rest);
      var p1 := ReplaceChar([x], '\\', "\\\\");
      ReplaceAppend([x], rest, '\\', "\\\\");
      var p2 := ReplaceChar(p1, '\'', "\\'");
      ReplaceAppend(p1, ReplaceChar(rest, '\\', "\\\\"), '\'', "\\'");
      ReplaceAppend(p2, ReplaceChar(ReplaceChar(rest, '\\', "\\\\"), '\'', "\\'"), '\n', "\\n");
      assert ReplaceChar(p2, '\n', "\\n") == EscChar(x) by {
        if x == '\\' {
          assert p1 == "\\\\";
          assert p1 == ['\\'] + ['\\'];
          ReplaceAppend(['\\'], ['\\'], '\'', "\\'");
          assert p2 == "\\\\";
          ReplaceAppend(['\\'], ['\\'], '\n', "\\n");
        } else if x == '\'' {
          assert p1 == [x];
          assert p2 == ['\\'] + ['\''];
          ReplaceAppend(['\\'], ['\''], '\n', "\\n");
        } else if x == '\n' {
          assert p1 == [x] && p2 == [x];
        } else {
          assert p1 == [x] && p2 == [x];
        }
      }
    }
  }

  /** A raw line feed or carriage return cannot appear inside a string
      literal. */
  predicate IsLiteralBreak(c: char) {
    c == '\n' || c == '\r'
  }

  /** The character a single-character escape `\c` stands for. */
  function EscapedChar(c: char): char {
    match c
    case 'n' => '\n'
    case 'r' => '\r'
    case 't' => '\t'
    case 'b' => '\U{8}'
    case 'f' => '\U{C}'
    case 'v' => '\U{B}'
    case _ => c
  }

  /** Escapes whose meaning depends on following characters (hex, unicode
      and octal escapes, line continuations); the decoder leaves them
      undecoded. */
  predicate IsMultiCharEscape(c: char) {
    c == 'x' || c == 'u' || ('0' <= c <= '9') || IsLiteralBreak(c)
  }

  /** The value of a single-quoted literal whose body is `t`: None when a
      raw quote or line break would end or break the literal, when a
      backslash is left dangling, or when the body uses an escape this
      decoder does not interpret. */
  function Unescape(t: string): Option<string>
    decreases |t|
  {
    if |t| == 0 then Some("")
    else if t[0] == '\'' || IsLiteralBreak(t[0]) then None
    else if t[0] == '\\' then
      if |t| == 1 || IsMultiCharEscape(t[1]) then None
      else match Unescape(t[2..])
           case None => None
           case Some(r) => Some([EscapedChar(t[1])] + r)
    else match Unescape(t[1..])
         case None => None
         case Some(r) => Some([t[0]] + r)
  }

  lemma UnescapeChar(x: char, rest: string)
    requires x != '\r'
    ensures Unescape(EscChar(x) + rest) ==
              match Unescape(rest) case None => None case Some(r) => Some([x] + r)
  {
    var e := EscChar(x) + rest;
    if x == '\\' || x == '\'' || x == '\n' {
      assert e[0] == '\\' && e[2..] == rest;
    } else {
      assert e[0] == x && e[1..] == rest;
    }
  }

  /** Decoding the literal `'` + esc(s) + `'` gives back `s`, for text
      without carriage returns. */
  lemma {:induction false} EscRoundTrip(s: string)
    requires '\r' !in s
    ensures Unescape(Esc(s)) == Some(s)
    decreases |s|
  {
    EscIsCharwise(s);
    if |s| > 0 {
      EscIsCharwise(s[1..]);
      EscRoundTrip(s[1..]);
      UnescapeChar(s[0], EscEach(s[1..]));
      assert s == [s[0]] + s[1..];
    }
  }

  /** `esc` output never holds a raw line feed. */
  lemma {:induction false} EscNoLineFeed(s: string)
    ensures '\n' !in Esc(s)
    decreases |s|
  {
    EscIsCharwise(s);
    if |s| > 0 {
      EscIsCharwise(s[1..]);
      EscNoLineFeed(s[1..]);
      assert EscEach(s) == EscChar(s[0]) + EscEach(s[1..]);
    }
  }

  /** `esc` leaves a carriage return raw, which ends the literal. */
  lemma EscCarriageReturn()
    ensures Esc("\r") == "\r" && Unescape(Esc("\r")) == None
  {
    assert ReplaceChar("\r", '\\', "\\\\") == "\r";
  }

  /** The templates' `escapeTest` as written: quotes first, then
      backslashes, so the backslash added before a quote is doubled. */
  function EscapeTest(s: string): string {
    ReplaceChar(ReplaceChar(s, '\'', "\\'"), '\\', "\\\\")
  }

  /** A single quote comes out as backslash, backslash, quote: the literal
      ends at that quote. */
  lemma EscapeTestBreaksQuote()
    ensures EscapeTest("'") == "\\\\'"
    ensures Unescape(EscapeTest("'")) == None
  {
    var p := ReplaceChar("'", '\'', "\\'");
    assert p == "\\'";
    assert p == ['\\'] + ['\''];
    ReplaceAppend(['\\'], ['\''], '\\', "\\\\");
    assert EscapeTest("'") == "\\\\" + "'";
    var t := EscapeTest("'");
    assert t[2..] == "'";
  }

  /** `escapeTest` with its two passes in the evident order. */
  function EscapeTestFixed(s: string): string {
    ReplaceChar(ReplaceChar(s, '\\', "\\\\"), '\'', "\\'")
  }

  /** Without line breaks, the corrected `escapeTest` is `esc`, so its
      literal decodes to the input. */
  lemma EscapeTestFixedRoundTrip(s: string)
    requires '\n' !in s && '\r' !in s
    ensures EscapeTestFixed(s) == Esc(s)
    ensures Unescape(EscapeTestFixed(s)) == Some(s)
  {
    NoLineFeedAfterPasses(s);
    EscRoundTrip(s);
  }

  lemma {:induction false} NoLineFeedAfterPasses(s: string)
    requires '\n' !in s
    ensures '\n' !in ReplaceChar(ReplaceChar(s, '\\', "\\\\"), '\'', "\\'")
    decreases |s|
  {
    if |s| > 0 {
      var x, rest := s[0], s[1..];
      assert s == [x] + rest;
      NoLineFeedAfterPasses(rest);
      ReplaceAppend([x], rest, '\\', "\\\\");
      var p1 := ReplaceChar([x], '\\', "\\\\");
      ReplaceAppend(p1, ReplaceChar(rest, '\\', "\\\\"), '\'', "\\'");
      assert '\n' !in ReplaceChar(p1, '\'', "\\'") by {
        if x == '\\' {
          assert p1 == ['\\'] + ['\\'];
          ReplaceAppend(['\\'], ['\\'], '\'', "\\'");
        }
      }
    }
  }
}
