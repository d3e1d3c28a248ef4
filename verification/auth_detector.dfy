/** Heuristic login-page detection (engine/auth-detector.js): five DOM and
    text signals scored 3/2/1/1/1, a page is an auth page at 4 or more. */
module AuthDetector {
  import opened Wrappers
  import opened Text

  /** An `<input>` element: its `type` and `name` attributes ("" when
      absent). `inputType` is taken lower-cased: in an HTML document the
      selector `[type="password"]` matches the `type` attribute without
      regard to ASCII case, so the exact comparisons below agree with it. */
  datatype InputEl = InputEl(inputType: string, name: string)

  /** What the in-page script reads: body markup, title, location and the
      inputs in the document. */
  datatype AuthView = AuthView(bodyHtml: string, title: string, href: string, inputs: seq<InputEl>)

  /** The five indicators. */
  datatype Indicators = Indicators(
    hasPasswordField: bool,
    hasLoginText: bool,
    hasLoginUrl: bool,
    hasLoginTitle: bool,
    hasUsernameField: bool)

  /** `a`, then at most one white-space character, then `b`, somewhere in
      `s` (the regex `a\s?b`). */
  predicate OptSpaceJoined(s: string, a: string, b: string) {
    exists k: nat | k <= |s| :: OccursAt(s, a, k)
                     && (OccursAt(s, b, k + |a|)
                         || (k + |a| < |s| && IsJsSpace(s[k + |a|]) && OccursAt(s, b, k + |a| + 1)))
  }

  /** /log\s?in|sign\s?in|authenticate/i on the lower-cased markup. */
  predicate LoginText(html: string) {
    var l := Lower(html);
    OptSpaceJoined(l, "log", "in") || OptSpaceJoined(l, "sign", "in") || Contains(l, "authenticate")
  }

  /** /login|signin|auth/i on the lower-cased location. */
  predicate LoginUrl(href: string) {
    ContainsCI(href, "login") || ContainsCI(href, "signin") || ContainsCI(href, "auth")
  }

  /** /login|sign in|log in/i on the lower-cased title. */
  predicate LoginTitle(title: string) {
    ContainsCI(title, "login") || ContainsCI(title, "sign in") || ContainsCI(title, "log in")
  }

  /** `input[type="password"]` exists. */
  predicate HasPassword(inputs: seq<InputEl>) {
    exists i :: 0 <= i < |inputs| && inputs[i].inputType == "password"
  }

  /** `input[name*="user"], input[name*="email"], input[type="email"]` exists. */
  predicate HasUsername(inputs: seq<InputEl>) {
    exists i :: 0 <= i < |inputs| && (Contains(inputs[i].name, "user") || Contains(inputs[i].name, "email")
                                      || inputs[i].inputType == "email")
  }

  function IndicatorsOf(v: AuthView): Indicators {
    Indicators(HasPassword(v.inputs), LoginText(v.bodyHtml), LoginUrl(v.href), LoginTitle(v.title),
               HasUsername(v.inputs))
  }

  function Score(ind: Indicators): (n: nat)
    ensures n <= 8
    ensures ind.hasPasswordField ==> n >= 3
  {
    (if ind.hasPasswordField then 3 else 0)
    + (if ind.hasUsernameField then 2 else 0)
    + (if ind.hasLoginText then 1 else 0)
    + (if ind.hasLoginUrl then 1 else 0)
    + (if ind.hasLoginTitle then 1 else 0)
  }

  /** `detectAuthPage`: `view` is None when the in-page script fails, and
      the page is then not an auth page. */
  function DetectAuthPage(view: Option<AuthView>): (r: bool)
    ensures view.None? ==> !r
    ensures view.Some? ==> (r <==> Score(IndicatorsOf(view.value)) >= 4)
  {
    match view
    case None => false
    case Some(v) => Score(IndicatorsOf(v)) >= 4
  }

  /** How many of the three text signals hold. */
  function TextSignals(ind: Indicators): nat {
    (if ind.hasLoginText then 1 else 0) + (if ind.hasLoginUrl then 1 else 0) + (if ind.hasLoginTitle then 1 else 0)
  }

  /** The threshold in words: a password field plus any other signal, or,
      without one, a username field plus two of the three text signals. */
  lemma ScoreThresholdIff(ind: Indicators)
    ensures Score(ind) >= 4 <==>
              (ind.hasPasswordField && (ind.hasUsernameField || TextSignals(ind) >= 1))
              || (ind.hasUsernameField && TextSignals(ind) >= 2)
  {
  }

  /** A page with no password field can still be classified as a login
      page, even though the source's comment names the password field as
      required. */
  lemma AuthWithoutPassword()
    ensures var ind := Indicators(false, true, true, false, true);
            !ind.hasPasswordField && Score(ind) >= 4
  {
  }

  /** The login-text signal is insensitive to ASCII letter case. */
  lemma LoginTextCaseInsensitive(html: string)
    ensures LoginText(html) <==> LoginText(Lower(html))
  {
    LowerIdempotent(html);
  }

  lemma LowerIdempotent(s: string)
    ensures Lower(Lower(s)) == Lower(s)
  {
  }

  /** "Log In" with its single space is login text. */
  lemma LogInWithSpace()
    ensures LoginText("Log In")
  {
    var l := Lower("Log In");
    assert l == "log in";
    assert OccursAt(l, "log", 0);
    assert IsJsSpace(l[3]) && OccursAt(l, "in", 4);
  }
}
