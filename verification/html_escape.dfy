/** Escaping text for HTML: `escapeHtml` (helpers/report-generator.js) and
    the server's `esc` (server.js) run the same four global replacements,
    ampersands first, then `<`, `>` and `"`. */
module HtmlEscape {
  import opened Wrappers
  import opened Text
  import opened Json

  /** The four passes, in the order the source applies them. */
  function EscapeHtml(s: string): (r: string)
    ensures '<' !in r && '>' !in r && '"' !in r
  {
    var r := ReplaceChar(ReplaceChar(ReplaceChar(ReplaceChar(s, '&', "&amp;"), '<', "&lt;"), '>', "&gt;"), '"', "&quot;");
    EscapeIsCharwise(s);
    NoSpecialsEach(s);
    r
  }

  /** What one character becomes. */
  function EscapeChar(c: char): string {
    if c == '&' then "&amp;"
    else if c == '<' then "&lt;"
    else if c == '>' then "&gt;"
    else if c == '"' then "&quot;"
    else [c]
  }

  /** Character by character escaping: the reference definition. */
  function EscapeEach(s: string): string
    decreases |s|
  {
    if |s| == 0 then "" else EscapeChar(s[0]) + EscapeEach(s[1..])
  }

  /** The passes never rewrite an entity an earlier pass produced, because
      `&amp;` holds none of `<`, `>`, `"` and so on: the four passes escape
      each character independently. */
  lemma {:induction false} EscapeIsCharwise(s: string)
    ensures ReplaceChar(ReplaceChar(ReplaceChar(ReplaceChar(s, '&', "&amp;"), '<', "&lt;"), '>', "&gt;"), '"', "&quot;")
            == EscapeEach(s)
    decreases |s|
  {
    if |s| > 0 {
      var x, rest := s[0], s[1..];
      assert s == [x] + rest;
      EscapeIsCharwise(rest);
      ReplaceAppend([x], rest, '&', "&amp;");
      var r1 := ReplaceChar(rest, '&', "&amp;");
      var p1 := ReplaceChar([x], '&', "&amp;");
      ReplaceAppend(p1, r1, '<', "&lt;");
      var r2 := ReplaceChar(r1, '<', "&lt;");
      var p2 := ReplaceChar(p1, '<', "&lt;");
      ReplaceAppend(p2, r2, '>', "&gt;");
      var r3 := ReplaceChar(r2, '>', "&gt;");
      var p3 := ReplaceChar(p2, '>', "&gt;");
      ReplaceAppend(p3, r3, '"', "&quot;");
      EscapeOne(x);
    }
  }

  /** One character through the four passes. */
  lemma EscapeOne(x: char)
    ensures ReplaceChar(ReplaceChar(ReplaceChar(ReplaceChar([x], '&', "&amp;"), '<', "&lt;"), '>', "&gt;"), '"', "&quot;")
            == EscapeChar(x)
  {
    ReplaceSingle(x, '&', "&amp;");
    if x == '&' {
      assert '<' !in "&amp;" && '>' !in "&amp;" && '"' !in "&amp;";
    } else {
      ReplaceSingle(x, '<', "&lt;");
      if x == '<' {
        assert '>' !in "&lt;" && '"' !in "&lt;";
      } else {
        ReplaceSingle(x, '>', "&gt;");
        if x == '>' {
          assert '"' !in "&gt;";
        } else {
          ReplaceSingle(x, '"', "&quot;");
        }
      }
    }
  }

  lemma {:induction false} NoSpecialsEach(s: string)
    ensures '<' !in EscapeEach(s) && '>' !in EscapeEach(s) && '"' !in EscapeEach(s)
    decreases |s|
  {
    if |s| > 0 {
      NoSpecialsEach(s[1..]);
    }
  }

  /** `escapeHtml(str)`: `String(str)` escaped; an undefined argument
      prints as "undefined". */
  function EscapeHtmlValue(v: Option<Json>): (r: string)
    ensures v.Some? && v.value.JStr? ==> r == EscapeHtml(v.value.s)
  {
    EscapeHtml(TemplateText(v))
  }

  /** The server's `esc(s)`: falsy values give "", anything else is
      `String(s)` escaped. */
  function Esc(v: Option<Json>): (r: string)
    ensures !Present(v) ==> r == ""
    ensures v.Some? && v.value.JStr? ==> r == EscapeHtml(v.value.s)
  {
    if !Present(v) then "" else EscapeHtml(ToJsString(v.value))
  }

  // ---------------------------------------------------------------------
  // The decoder a browser applies
  // ---------------------------------------------------------------------

  /** Replaces each of the four entities by its character; an ampersand
      that starts none of them is not something the escaper produces. */
  function Unescape(t: string): (r: Option<string>)
    decreases |t|
  {
    if |t| == 0 then Some("")
    else if t[0] != '&' then
      match Unescape(t[1..]) case Some(rest) => Some([t[0]] + rest) case None => None
    else if StartsWith(t, "&amp;") then
      match Unescape(t[5..]) case Some(rest) => Some("&" + rest) case None => None
    else if StartsWith(t, "&lt;") then
      match Unescape(t[4..]) case Some(rest) => Some("<" + rest) case None => None
    else if StartsWith(t, "&gt;") then
      match Unescape(t[4..]) case Some(rest) => Some(">" + rest) case None => None
    else if StartsWith(t, "&quot;") then
      match Unescape(t[6..]) case Some(rest) => Some("\"" + rest) case None => None
    else None
  }

  /** Decoding one escaped character and what follows. */
  lemma UnescapeChar(x: char, rest: string)
    ensures Unescape(EscapeChar(x) + rest) ==
            match Unescape(rest) case Some(r) => Some([x] + r) case None => None
  {
    var t := EscapeChar(x) + rest;
    if x == '&' {
      assert t[5..] == rest;
    } else if x == '<' {
      assert t[4..] == rest;
      assert t[1] == 'l';
      assert !StartsWith(t, "&amp;") by { if |t| >= 5 { assert t[..5][1] == 'l'; } }
    } else if x == '>' {
      assert t[4..] == rest;
      assert !StartsWith(t, "&amp;") by { if |t| >= 5 { assert t[..5][1] == 'g'; } }
      assert !StartsWith(t, "&lt;") by { assert t[..4][1] == 'g'; }
    } else if x == '"' {
      assert t[6..] == rest;
      assert !StartsWith(t, "&amp;") by { assert t[..5][1] == 'q'; }
      assert !StartsWith(t, "&lt;") by { assert t[..4][1] == 'q'; }
      assert !StartsWith(t, "&gt;") by { assert t[..4][1] == 'q'; }
    } else {
      assert t[1..] == rest;
    }
  }

  /** The browser shows exactly the text that was escaped. */
  lemma {:induction false} EscapeRoundTrip(s: string)
    ensures Unescape(EscapeHtml(s)) == Some(s)
    decreases |s|
  {
    EscapeIsCharwise(s);
    EachRoundTrip(s);
  }

  lemma {:induction false} EachRoundTrip(s: string)
    ensures Unescape(EscapeEach(s)) == Some(s)
    decreases |s|
  {
    if |s| > 0 {
      EachRoundTrip(s[1..]);
      UnescapeChar(s[0], EscapeEach(s[1..]));
      assert [s[0]] + s[1..] == s;
    }
  }
}
