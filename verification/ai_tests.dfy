/** AI-planned tests (generator/ai-tests.js): the context sent to the
    language model, the cleaning and validation of the JSON plan it
    returns, and `planToPlaywright`, which turns each planned test into a
    Playwright test whose steps are wrapped so that interaction failures
    are logged and assertion failures fail the test. The model service,
    `JSON.parse` and `JSON.stringify` are parameters. */
module AiTests {
  import opened Wrappers
  import opened Text
  import opened Seqs
  import opened Json
  import opened Records
  import opened JsEscape

  // ------------------------------------------------------------- the plan

  /** One step: its `action` and all its properties (action included). */
  datatype PlanStep = PlanStep(action: string, props: map<string, Json>)

  /** One planned test: its `name` (any value, or missing) and steps. */
  datatype TestPlan = TestPlan(name: Option<Json>, steps: seq<PlanStep>)

  function Prop(s: PlanStep, k: string): Option<Json> {
    if k in s.props then Some(s.props[k]) else None
  }

  /** A step the translator can read: an object whose action is a string;
      a fill step's field, when truthy, must be a string as well (it is
      lower-cased). Anything else throws a TypeError in the source. */
  function DecodeStep(v: Json): (r: Result<PlanStep>)
    ensures r.Ok? ==> v.JObj? && "action" in v.fields && v.fields["action"] == JStr(r.value.action)
    ensures r.Ok? ==> r.value.props == v.fields
  {
    match v
    case JObj(m) =>
      if "action" in m && m["action"].JStr? then
        var step := PlanStep(m["action"].s, m);
        if step.action == "fill" && Present(Prop(step, "field")) && !Prop(step, "field").value.JStr? then
          Err("TypeError")
        else Ok(step)
      else Err("TypeError")
    case _ => Err("TypeError")
  }

  function DecodeSteps(vs: seq<Json>): (r: Result<seq<PlanStep>>)
    ensures r.Ok? <==> forall i :: 0 <= i < |vs| ==> DecodeStep(vs[i]).Ok?
    ensures r.Ok? ==> |r.value| == |vs| && forall i :: 0 <= i < |vs| ==> r.value[i] == DecodeStep(vs[i]).value
  {
    if |vs| == 0 then Ok([])
    else
      match DecodeStep(vs[0])
      case Err(m) => Err(m)
      case Ok(s) =>
        match DecodeSteps(vs[1..])
        case Err(m) => Err(m)
        case Ok(rest) => Ok([s] + rest)
  }

  /** A test is an object whose `steps` is an array of readable steps. */
  function DecodeTest(v: Json): (r: Result<TestPlan>)
    ensures r.Ok? <==> v.JObj? && "steps" in v.fields && v.fields["steps"].JArr?
                       && DecodeSteps(v.fields["steps"].items).Ok?
  {
    match v
    case JObj(m) =>
      if "steps" in m && m["steps"].JArr? then
        match DecodeSteps(m["steps"].items)
        case Err(e) => Err(e)
        case Ok(steps) => Ok(TestPlan(if "name" in m then Some(m["name"]) else None, steps))
      else Err("TypeError")
    case _ => Err("TypeError")
  }

  function DecodeTests(vs: seq<Json>): (r: Result<seq<TestPlan>>)
    ensures r.Ok? <==> forall i :: 0 <= i < |vs| ==> DecodeTest(vs[i]).Ok?
    ensures r.Ok? ==> |r.value| == |vs|
  {
    if |vs| == 0 then Ok([])
    else
      match DecodeTest(vs[0])
      case Err(m) => Err(m)
      case Ok(t) =>
        match DecodeTests(vs[1..])
        case Err(m) => Err(m)
        case Ok(rest) => Ok([t] + rest)
  }

  // ---------------------------------------------------------- code lines

  /** A line of emitted code. The lines that the structure of a test
      hinges on have constructors of their own; every other line is plain
      text at an indentation. */
  datatype CodeLine =
    | Plain(indent: nat, text: string)
    | TestOpen(title: string, fixture: string)
    | DeclarePreviousUrl
    | RecordUrl
    | Rethrow

  /** Plain code at an indentation. */
  datatype Code = Code(indent: nat, text: string)

  /** The code of one action: plain lines, with the `previousUrl` update
      between `before` and `after` when `records` holds. */
  datatype ActionCode = ActionCode(before: seq<Code>, records: bool, after: seq<Code>)

  function Only(lines: seq<Code>): ActionCode {
    ActionCode(lines, false, [])
  }

  function Lift(xs: seq<Code>): (r: seq<CodeLine>)
    ensures |r| == |xs|
    ensures forall i :: 0 <= i < |r| ==> r[i] == Plain(xs[i].indent, xs[i].text)
  {
    seq(|xs|, i requires 0 <= i < |xs| => Plain(xs[i].indent, xs[i].text))
  }

  /** The lines of an action: the update appears exactly when `records`
      holds, and every other line is plain. */
  function ActionLinesOf(a: ActionCode): (r: seq<CodeLine>)
    ensures RecordUrl in r <==> a.records
    ensures forall i :: 0 <= i < |r| ==> r[i].Plain? || r[i] == RecordUrl
  {
    Lift(a.before) + (if a.records then [RecordUrl] else []) + Lift(a.after)
  }

  function Indent(l: CodeLine): nat {
    match l
    case Plain(n, _) => n
    case TestOpen(_, _) => 2
    case DeclarePreviousUrl => 4
    case RecordUrl => 6
    case Rethrow => 6
  }

  function LineText(l: CodeLine): string {
    match l
    case Plain(_, t) => t
    case TestOpen(title, fixture) => "test('" + title + "', async ({ " + fixture + " }) => {"
    case DeclarePreviousUrl => "let previousUrl = '';"
    case RecordUrl => "previousUrl = page.url();"
    case Rethrow => "throw e;"
  }

  function Spaces(n: nat): (r: string)
    ensures |r| == n && forall i :: 0 <= i < n ==> r[i] == ' '
  {
    if n == 0 then "" else " " + Spaces(n - 1)
  }

  function RenderLine(l: CodeLine): string {
    Spaces(Indent(l)) + LineText(l)
  }

  /** `lines.join('\n')`. */
  function Render(lines: seq<CodeLine>): string {
    Join(seq(|lines|, i requires 0 <= i < |lines| => RenderLine(lines[i])), "\n")
  }

  // ------------------------------------------------------------ one step

  /** The type guessed from the lower-cased field name, in this
      precedence: email, password, phone or tel, search, url or website. */
  function TypeGuess(field: string): (r: string)
    ensures Contains(field, "email") ==> r == "email"
    ensures !Contains(field, "email") && Contains(field, "password") ==> r == "password"
    ensures (!Contains(field, "email") && !Contains(field, "password")
             && (Contains(field, "phone") || Contains(field, "tel"))) ==> r == "tel"
    ensures (!Contains(field, "email") && !Contains(field, "password") && !Contains(field, "phone")
             && !Contains(field, "tel") && Contains(field, "search")) ==> r == "search"
    ensures (!Contains(field, "email") && !Contains(field, "password") && !Contains(field, "phone")
             && !Contains(field, "tel") && !Contains(field, "search")
             && (Contains(field, "url") || Contains(field, "website"))) ==> r == "url"
    ensures r == "text" <==>
              !Contains(field, "email") && !Contains(field, "password") && !Contains(field, "phone")
              && !Contains(field, "tel") && !Contains(field, "search") && !Contains(field, "url")
              && !Contains(field, "website")
  {
    if Contains(field, "email") then "email"
    else if Contains(field, "password") then "password"
    else if Contains(field, "phone") || Contains(field, "tel") then "tel"
    else if Contains(field, "search") then "search"
    else if Contains(field, "url") || Contains(field, "website") then "url"
    else "text"
  }

  /** `${(step.seconds || 2) * 1000}`: two seconds by default, otherwise
      the value coerced to a number, times a thousand, as a template
      literal prints it. */
  function WaitMillis(seconds: Option<Json>): (r: string)
    ensures !Present(seconds) ==> r == "2000"
    ensures Present(seconds) ==> r == Millis(ToNumber(seconds.value))
  {
    if !Present(seconds) then "2000" else Millis(ToNumber(seconds.value))
  }

  /** A number of seconds times a thousand, printed: an integer as its
      decimal text, an infinity with its sign, NaN as "NaN". */
  function Millis(x: JsNumber): (r: string)
    ensures x.Finite? ==> r == IntToString(x.n * 1000)
    ensures x.NaN? ==> r == "NaN"
    ensures x.Infinite? ==> r == (if x.negative then "-Infinity" else "Infinity")
  {
    match x
    case Finite(n) => IntToString(n * 1000)
    case Infinite(negative) => if negative then "-Infinity" else "Infinity"
    case NaN => "NaN"
  }

  /** A non-zero number of seconds gives the same wait whether written as
      a number or as its decimal string. */
  lemma WaitMillisDecimal(n: int)
    requires n != 0
    ensures WaitMillis(Some(JStr(IntToString(n)))) == WaitMillis(Some(JNum(n)))
  {
    DecimalText(n);
    SameNumberSameWait(JStr(IntToString(n)), JNum(n));
  }

  /** Two truthy values that coerce to the same number give the same
      wait. */
  lemma SameNumberSameWait(x: Json, y: Json)
    requires Truthy(x) && Truthy(y) && ToNumber(x) == ToNumber(y)
    ensures WaitMillis(Some(x)) == WaitMillis(Some(y))
  {
  }

  /** A one-element array of a truthy number or string waits as long as
      its element: the array coerces through its only element's text. */
  lemma WaitMillisSingleton(x: Json)
    requires (x.JNum? || x.JStr?) && Truthy(x)
    ensures WaitMillis(Some(JArr([x]))) == WaitMillis(Some(x))
  {
    var a := JArr([x]);
    assert ToJsString(a) == ToJsString(x) by {
      assert ElementString([x], 0, a) == ToJsString(x);
    }
    if x.JNum? {
      NumberRoundTrip(x.n);
    }
    SameNumberSameWait(a, x);
  }

  /** `${step.min || 1}`. */
  function MinCount(min: Option<Json>): (r: string)
    ensures !Present(min) ==> r == "1"
    ensures Present(min) ==> r == ToJsString(min.value)
  {
    if Present(min) then ToJsString(min.value) else "1"
  }

  /** `baseUrl.replace(/\/$/, '')`. */
  function WithoutTrailingSlash(s: string): string {
    if EndsWith(s, "/") then s[..|s| - 1] else s
  }

  /** The `, { headers: … }` argument: present only when there is an
      Authorization header. */
  function HeadersJson(auth: Option<string>): Json {
    match auth
    case None => JObj(map[])
    case Some(v) => JObj(map["Authorization" := JStr(v)])
  }

  function StatusLines(step: PlanStep): seq<Code> {
    if Present(Prop(step, "assert_status")) then
      [Code(6, "expect(resp.status()).toBe(" + ToJsString(Prop(step, "assert_status").value) + ");")]
    else []
  }

  function GotoLines(step: PlanStep, baseUrl: string): seq<Code> {
    [Code(6, "await page.goto('" + WithoutTrailingSlash(baseUrl) + StringOrEmpty(Prop(step, "path"))
                 + "', { waitUntil: 'networkidle', timeout: 30000 });"),
     Code(6, "await page.waitForTimeout(1500);")]
  }

  function ClickLinkLines(t: string): seq<Code> {
    [Code(6, "await page.getByRole('link', { name: '" + t + "' }).first().waitFor({ state: 'visible', timeout: 15000 });"),
     Code(6, "await page.getByRole('link', { name: '" + t + "' }).first().click();"),
     Code(6, "await page.waitForLoadState('networkidle', { timeout: 15000 }).catch(() => {});"),
     Code(6, "await page.waitForTimeout(1000);")]
  }

  function FillLines(step: PlanStep): seq<Code> {
    var f := EscValue(Prop(step, "field"));
    var v := EscValue(Prop(step, "value"));
    var g := TypeGuess(Lower(StringOrEmpty(Prop(step, "field"))));
    [Code(6, "{"),
     Code(8, "let filled = false;"),
     Code(8, "// Strategy 1: placeholder"),
     Code(8, "const byPlaceholder = page.getByPlaceholder('" + f + "').first();"),
     Code(8, "if (await byPlaceholder.isVisible().catch(() => false)) { await byPlaceholder.fill('" + v + "'); filled = true; }"),
     Code(8, "// Strategy 2: label"),
     Code(8, "if (!filled) { const byLabel = page.getByLabel('" + f + "').first(); if (await byLabel.isVisible().catch(() => false)) { await byLabel.fill('" + v + "'); filled = true; } }"),
     Code(8, "// Strategy 3: name attribute"),
     Code(8, "if (!filled) { const byName = page.locator('input[name=\"" + f + "\" i], textarea[name=\"" + f + "\" i]').first(); if (await byName.isVisible().catch(() => false)) { await byName.fill('" + v + "'); filled = true; } }"),
     Code(8, "// Strategy 4: partial placeholder"),
     Code(8, "if (!filled) { const partial = page.locator('input[placeholder*=\"" + f + "\" i], textarea[placeholder*=\"" + f + "\" i]').first(); if (await partial.isVisible().catch(() => false)) { await partial.fill('" + v + "'); filled = true; } }"),
     Code(8, "// Strategy 5: input type (" + g + ")"),
     Code(8, "if (!filled) { const byType = page.locator('input[type=\"" + g + "\"]').first(); if (await byType.isVisible().catch(() => false)) { await byType.fill('" + v + "'); filled = true; } }"),
     Code(8, "// Strategy 6: any visible text/email/password input"),
     Code(8, "if (!filled) { const any = page.locator('input:visible').first(); await any.waitFor({ state: 'visible', timeout: 10000 }); await any.fill('" + v + "'); filled = true; }"),
     Code(8, "if (!filled) throw new Error('Could not find field: " + f + "');"),
     Code(6, "}")]
  }

  function SelectLines(step: PlanStep): seq<Code> {
    var f := EscValue(Prop(step, "field"));
    var v := EscValue(Prop(step, "value"));
    [Code(6, "{"),
     Code(8, "const sel = page.getByLabel('" + f + "').first();"),
     Code(8, "if (await sel.isVisible().catch(() => false)) {"),
     Code(10, "await sel.selectOption({ label: '" + v + "' });"),
     Code(8, "} else {"),
     Code(10, "await page.locator('select[name=\"" + f + "\" i]').first().selectOption({ label: '" + v + "' });"),
     Code(8, "}"),
     Code(6, "}")]
  }

  const DefaultPattern := "confirm|success|welcome|created|thank"

  /** `step.pattern || '…'` as text. */
  function PatternText(pattern: Option<Json>): string {
    if Present(pattern) then ToJsString(pattern.value) else DefaultPattern
  }

  function UrlContainsLines(t: string): seq<Code> {
    [Code(6, "const currentUrl = page.url();"),
     Code(6, "const target = '" + t + "'.toLowerCase();"),
     Code(6, "expect(currentUrl.toLowerCase()).toContain(target);")]
  }

  function PageHasTextLines(step: PlanStep): seq<Code> {
    [Code(6, "{"),
     Code(8, "const body = await page.locator('body').innerText();"),
     Code(8, "const pattern = new RegExp('" + Esc(PatternText(Prop(step, "pattern"))) + "', 'i');"),
     Code(8, "expect(body).toMatch(pattern);"),
     Code(6, "}")]
  }

  function ElementCountLines(step: PlanStep): seq<Code> {
    [Code(6, "const count = await page.locator('" + EscValue(Prop(step, "selector")) + "').count();"),
     Code(6, "expect(count).toBeGreaterThanOrEqual(" + MinCount(Prop(step, "min")) + ");")]
  }

  /** The GET request carries the Authorization header when there is one. */
  function ApiGetLines(step: PlanStep, baseUrl: string, auth: Option<string>, stringify: Json -> string): seq<Code> {
    var h := if auth.Some? then ", { headers: " + stringify(HeadersJson(auth)) + " }" else "";
    var first := [Code(6, "const resp = await request.get('" + baseUrl + TemplateText(Prop(step, "path")) + "'" + h + ");")];
    first + StatusLines(step)
  }

  /** The POST request sends `body` (an empty object when missing). */
  function ApiPostLines(step: PlanStep, baseUrl: string, auth: Option<string>, stringify: Json -> string): seq<Code> {
    var h := if auth.Some? then ", headers: " + stringify(HeadersJson(auth)) else "";
    var body := if Present(Prop(step, "body")) then Prop(step, "body").value else JObj(map[]);
    var first := [Code(6, "const resp = await request.post('" + baseUrl + TemplateText(Prop(step, "path")) + "', { data: "
                              + stringify(body) + h + " });")];
    first + StatusLines(step)
  }

  /** The actions the translator knows; any other name is `Unknown`. */
  datatype Action =
    | Goto | ClickLink | ClickButton | Fill | Select | Wait
    | AssertUrlContains | AssertUrlNotChanged | AssertUrlChanged | AssertVisible | AssertNotVisible
    | AssertPageHasText | AssertElementExists | AssertElementCount
    | ApiGet | ApiPost | Unknown

  /** The name a known action is written with in the plan. */
  function ActionName(a: Action): string {
    match a
    case Goto => "goto"
    case ClickLink => "click_link"
    case ClickButton => "click_button"
    case Fill => "fill"
    case Select => "select"
    case Wait => "wait"
    case AssertUrlContains => "assert_url_contains"
    case AssertUrlNotChanged => "assert_url_not_changed"
    case AssertUrlChanged => "assert_url_changed"
    case AssertVisible => "assert_visible"
    case AssertNotVisible => "assert_not_visible"
    case AssertPageHasText => "assert_page_has_text"
    case AssertElementExists => "assert_element_exists"
    case AssertElementCount => "assert_element_count"
    case ApiGet => "api_get"
    case ApiPost => "api_post"
    case Unknown => ""
  }

  /** The `switch (step.action)` of the translator. */
  function ParseAction(s: string): (r: Action)
    ensures r != Unknown ==> ActionName(r) == s
  {
    match s
    case "goto" => Goto
    case "click_link" => ClickLink
    case "click_button" => ClickButton
    case "fill" => Fill
    case "select" => Select
    case "wait" => Wait
    case "assert_url_contains" => AssertUrlContains
    case "assert_url_not_changed" => AssertUrlNotChanged
    case "assert_url_changed" => AssertUrlChanged
    case "assert_visible" => AssertVisible
    case "assert_not_visible" => AssertNotVisible
    case "assert_page_has_text" => AssertPageHasText
    case "assert_element_exists" => AssertElementExists
    case "assert_element_count" => AssertElementCount
    case "api_get" => ApiGet
    case "api_post" => ApiPost
    case _ => Unknown
  }

  /** Every known action is recognised by its name. */
  lemma ParseActionName(a: Action)
    requires a != Unknown
    ensures ParseAction(ActionName(a)) == a
  {
  }

  predicate UpdatesPreviousUrl(a: Action) {
    a == Goto || a == ClickButton
  }

  /** The code for one action, inside the step's `try`: the current URL
      is recorded exactly for goto (after the navigation) and click_button
      (once the button is visible, before the click). */
  function ActionLines(step: PlanStep, baseUrl: string, auth: Option<string>, stringify: Json -> string): ActionCode {
    var a := ParseAction(step.action);
    ActionCode(Before(a, step, baseUrl, auth, stringify), UpdatesPreviousUrl(a), After(a, step))
  }

  /** An action the translator does not know becomes a comment. */
  lemma UnknownActionComment(step: PlanStep, baseUrl: string, auth: Option<string>, stringify: Json -> string)
    requires step.action !in {"goto", "click_link", "click_button", "fill", "select", "wait", "assert_url_contains",
                              "assert_url_not_changed", "assert_url_changed", "assert_visible", "assert_not_visible",
                              "assert_page_has_text", "assert_element_exists", "assert_element_count", "api_get", "api_post"}
    ensures ActionLinesOf(ActionLines(step, baseUrl, auth, stringify)) == [Plain(6, "// Unknown action: " + step.action)]
  {
    assert ParseAction(step.action) == Unknown;
  }

  /** The action's code before the `previousUrl` update (all of it when
      there is none). */
  function Before(a: Action, step: PlanStep, baseUrl: string, auth: Option<string>, stringify: Json -> string): seq<Code> {
    var t := EscValue(Prop(step, "text"));
    match a
    case Goto => GotoLines(step, baseUrl)
    case ClickLink => ClickLinkLines(t)
    case ClickButton =>
      [Code(6, "await page.getByRole('button', { name: '" + t + "' }).first().waitFor({ state: 'visible', timeout: 15000 });")]
    case Fill => FillLines(step)
    case Select => SelectLines(step)
    case Wait => [Code(6, "await page.waitForTimeout(" + WaitMillis(Prop(step, "seconds")) + ");")]
    case AssertUrlContains => UrlContainsLines(t)
    case AssertUrlNotChanged => [Code(6, "expect(page.url()).toBe(previousUrl);")]
    case AssertUrlChanged => [Code(6, "expect(page.url()).not.toBe(previousUrl);")]
    case AssertVisible =>
      [Code(6, "await expect(page.getByText('" + t + "').first()).toBeVisible({ timeout: 10000 });")]
    case AssertNotVisible =>
      [Code(6, "await expect(page.getByText('" + t + "').first()).not.toBeVisible({ timeout: 5000 });")]
    case AssertPageHasText => PageHasTextLines(step)
    case AssertElementExists =>
      [Code(6, "await expect(page.locator('" + EscValue(Prop(step, "selector")) + "').first()).toBeVisible({ timeout: 10000 });")]
    case AssertElementCount => ElementCountLines(step)
    case ApiGet => ApiGetLines(step, baseUrl, auth, stringify)
    case ApiPost => ApiPostLines(step, baseUrl, auth, stringify)
    case Unknown => [Code(6, "// Unknown action: " + step.action)]
  }

  /** The action's code after the `previousUrl` update: the click itself
      for click_button. */
  function After(a: Action, step: PlanStep): seq<Code> {
    if a == ClickButton then
      var t := EscValue(Prop(step, "text"));
      [Code(6, "await page.getByRole('button', { name: '" + t + "' }).first().click();"),
       Code(6, "await page.waitForLoadState('networkidle', { timeout: 15000 }).catch(() => {});"),
       Code(6, "await page.waitForTimeout(1500);")]
    else []
  }

  /** A failed step fails the test when its action name starts with
      `assert_`, known or not. */
  predicate Rethrows(action: string) {
    StartsWith(action, "assert_")
  }

  /** A step: a comment naming it, then its code in `try`, with a `catch`
      that logs the failure and rethrows it for assertions only. */
  function StepBlock(step: PlanStep, code: ActionCode, stringify: Json -> string): (r: seq<CodeLine>)
    ensures Rethrow in r <==> Rethrows(step.action)
    ensures RecordUrl in r <==> code.records
    ensures forall i :: 0 <= i < |r| ==> !r[i].TestOpen? && r[i] != DeclarePreviousUrl
  {
    [Plain(4, "// " + step.action + ": " + Take(stringify(JObj(step.props)), 80)),
     Plain(4, "try {")]
    + ActionLinesOf(code)
    + [Plain(4, "} catch (e) {"),
       Plain(6, "console.log('[Step failed] " + step.action + ": ' + e.message.substring(0, 200));")]
    + (if Rethrows(step.action) then [Rethrow] else [])
    + [Plain(4, "}"), Plain(0, "")]
  }

  /** The translation of each step, for the given base URL, headers and
      `JSON.stringify`. */
  function Translate(baseUrl: string, auth: Option<string>, stringify: Json -> string): PlanStep -> ActionCode {
    step => ActionLines(step, baseUrl, auth, stringify)
  }

  /** A step records the current URL exactly when it is goto or
      click_button, and fails its test exactly when it is an assertion. */
  function StepFor(step: PlanStep, baseUrl: string, auth: Option<string>, stringify: Json -> string): (r: seq<CodeLine>)
    ensures Rethrow in r <==> Rethrows(step.action)
    ensures RecordUrl in r <==> ParseAction(step.action) in {Goto, ClickButton}
  {
    StepBlock(step, Translate(baseUrl, auth, stringify)(step), stringify)
  }

  function StepBlocks(steps: seq<PlanStep>, code: PlanStep -> ActionCode, stringify: Json -> string): (r: seq<CodeLine>)
    ensures forall i :: 0 <= i < |r| ==> !r[i].TestOpen? && r[i] != DeclarePreviousUrl
  {
    if |steps| == 0 then []
    else StepBlock(steps[0], code(steps[0]), stringify) + StepBlocks(steps[1..], code, stringify)
  }

  /** `steps.every(s => s.action.startsWith('api_'))`. */
  predicate ApiOnly(t: TestPlan) {
    forall i :: 0 <= i < |t.steps| ==> StartsWith(t.steps[i].action, "api_")
  }

  /** The test's fixture: `request` when every step is an API call, which
      includes a test with no steps. */
  function Fixture(t: TestPlan): (r: string)
    ensures r == "request" || r == "page"
    ensures |t.steps| == 0 ==> r == "request"
    ensures r == "request" <==> forall s :: s in t.steps ==> StartsWith(s.action, "api_")
  {
    if ApiOnly(t) then "request" else "page"
  }

  function TestHeader(t: TestPlan): CodeLine {
    TestOpen(EscValue(t.name), Fixture(t))
  }

  predicate IsTestHeader(l: CodeLine) {
    l.TestOpen?
  }

  /** One planned test: opened by its header, declaring `previousUrl`
      exactly when it drives a page, and holding no other test header. */
  function TestLines(t: TestPlan, code: PlanStep -> ActionCode, stringify: Json -> string): (r: seq<CodeLine>)
    ensures |r| > 0 && r[0] == TestHeader(t)
    ensures DeclarePreviousUrl in r <==> Fixture(t) == "page"
    ensures forall i :: 1 <= i < |r| ==> !r[i].TestOpen?
  {
    var decl := if Fixture(t) == "page" then [DeclarePreviousUrl] else [];
    var body := StepBlocks(t.steps, code, stringify);
    TestFrame(TestHeader(t), decl, body);
    [TestHeader(t)] + decl + body + [Plain(2, "});"), Plain(0, "")]
  }

  /** A test's lines around its step blocks: the header first, the
      declaration only when `decl` holds it, and no second header. */
  lemma TestFrame(h: CodeLine, decl: seq<CodeLine>, body: seq<CodeLine>)
    requires h.TestOpen?
    requires decl == [] || decl == [DeclarePreviousUrl]
    requires forall i :: 0 <= i < |body| ==> !body[i].TestOpen? && body[i] != DeclarePreviousUrl
    ensures var r := [h] + decl + body + [Plain(2, "});"), Plain(0, "")];
            r[0] == h && (DeclarePreviousUrl in r <==> decl != [])
            && forall i :: 1 <= i < |r| ==> !r[i].TestOpen?
  {
    var r := [h] + decl + body + [Plain(2, "});"), Plain(0, "")];
    forall i | 1 <= i < |r| ensures !r[i].TestOpen? {
      if i < 1 + |decl| {
        assert r[i] == decl[i - 1];
      } else if i < 1 + |decl| + |body| {
        assert r[i] == body[i - 1 - |decl|];
      }
    }
  }

  const Prologue: seq<CodeLine> :=
    [Plain(0, "const { test, expect } = require('@playwright/test');"),
     Plain(0, ""),
     Plain(0, "test.describe('Custom AI Tests', () => {"),
     Plain(2, "test.setTimeout(120000);"),
     Plain(0, "")]

  function AllTests(tests: seq<TestPlan>, code: PlanStep -> ActionCode, stringify: Json -> string): seq<CodeLine> {
    if |tests| == 0 then []
    else TestLines(tests[0], code, stringify) + AllTests(tests[1..], code, stringify)
  }

  /** `planToPlaywright` as lines: one describe block holding the tests in
      plan order. */
  function PlanLines(tests: seq<TestPlan>, code: PlanStep -> ActionCode, stringify: Json -> string): seq<CodeLine> {
    Prologue + AllTests(tests, code, stringify) + [Plain(0, "});")]
  }

  /** One header per planned test, in plan order. */
  function Headers(tests: seq<TestPlan>): (r: seq<CodeLine>)
    ensures |r| == |tests| && forall i :: 0 <= i < |r| ==> r[i] == TestHeader(tests[i])
  {
    if |tests| == 0 then [] else [TestHeader(tests[0])] + Headers(tests[1..])
  }

  /** The test headers of the output are exactly one per planned test, in
      plan order. */
  lemma TestHeadersInOrder(tests: seq<TestPlan>, code: PlanStep -> ActionCode, stringify: Json -> string)
    ensures Filter(PlanLines(tests, code, stringify), IsTestHeader) == Headers(tests)
  {
    PrologueHasNoTest();
    HeadersOfTests(tests, code, stringify);
    FilterBetween(Prologue, AllTests(tests, code, stringify), [Plain(0, "});")], IsTestHeader);
  }

  lemma FilterBetween<T>(pre: seq<T>, body: seq<T>, post: seq<T>, p: T -> bool)
    requires Filter(pre, p) == [] && forall i :: 0 <= i < |post| ==> !p(post[i])
    ensures Filter(pre + body + post, p) == Filter(body, p)
  {
    FilterAppend(pre + body, post, p);
    FilterAppend(pre, body, p);
    CountUniform(post, p);
  }

  lemma PrologueHasNoTest()
    ensures Filter(Prologue, IsTestHeader) == []
  {
    forall i | 0 <= i < |Prologue| ensures !IsTestHeader(Prologue[i]) {
    }
    CountUniform(Prologue, IsTestHeader);
  }

  lemma {:induction false} HeadersOfTests(tests: seq<TestPlan>, code: PlanStep -> ActionCode, stringify: Json -> string)
    ensures Filter(AllTests(tests, code, stringify), IsTestHeader) == Headers(tests)
    decreases |tests|
  {
    if |tests| > 0 {
      HeadersOfTests(tests[1..], code, stringify);
      FilterAppend(TestLines(tests[0], code, stringify), AllTests(tests[1..], code, stringify), IsTestHeader);
      OneHeaderPerTest(tests[0], code, stringify);
    }
  }

  /** A test's lines hold its own header and no other. */
  lemma OneHeaderPerTest(t: TestPlan, code: PlanStep -> ActionCode, stringify: Json -> string)
    ensures Filter(TestLines(t, code, stringify), IsTestHeader) == [TestHeader(t)]
  {
    var lines := TestLines(t, code, stringify);
    FilterAppend([lines[0]], lines[1..], IsTestHeader);
    assert [lines[0]] + lines[1..] == lines;
    CountUniform(lines[1..], IsTestHeader);
  }

  // --------------------------------------------------- running a fill step

  /** What the emitted fill block does: strategies 1 to 5 are tried in
      order while nothing is filled, each filling when its locator is
      visible; strategy 6 waits for any visible input and times out when
      none appears. */
  datatype FillResult = FilledBy(strategy: nat) | FillTimedOut

  function RunStrategies(visible: seq<bool>, i: nat, filled: Option<nat>, anyAppears: bool): FillResult
    requires i <= |visible|
    decreases |visible| - i
  {
    if i == |visible| then
      (match filled
       case Some(k) => FilledBy(k)
       case None => if anyAppears then FilledBy(|visible| + 1) else FillTimedOut)
    else RunStrategies(visible, i + 1, if filled.None? && visible[i] then Some(i + 1) else filled, anyAppears)
  }

  function RunFill(visible: seq<bool>, anyAppears: bool): FillResult
    requires |visible| == 5
  {
    RunStrategies(visible, 0, None, anyAppears)
  }

  /** The first strategy whose locator is visible fills the field. */
  function FirstVisible(visible: seq<bool>, i: nat): (r: Option<nat>)
    requires i <= |visible|
    ensures r.Some? ==> i < r.value <= |visible| && visible[r.value - 1]
                        && forall j :: i <= j < r.value - 1 ==> !visible[j]
    ensures r.None? ==> forall j :: i <= j < |visible| ==> !visible[j]
    decreases |visible| - i
  {
    if i == |visible| then None
    else if visible[i] then Some(i + 1)
    else FirstVisible(visible, i + 1)
  }

  lemma {:induction false} RunStrategiesFirst(visible: seq<bool>, i: nat, filled: Option<nat>, anyAppears: bool)
    requires i <= |visible|
    ensures RunStrategies(visible, i, filled, anyAppears) ==
              match filled
              case Some(k) => FilledBy(k)
              case None =>
                match FirstVisible(visible, i)
                case Some(k) => FilledBy(k)
                case None => if anyAppears then FilledBy(|visible| + 1) else FillTimedOut
    decreases |visible| - i
  {
    if i < |visible| {
      RunStrategiesFirst(visible, i + 1, if filled.None? && visible[i] then Some(i + 1) else filled, anyAppears);
    }
  }

  /** First success wins: strategy k fills exactly when it is visible and
      no earlier one is; strategy 6 runs only when none of 1-5 is. */
  lemma FillFirstSuccess(visible: seq<bool>, anyAppears: bool, k: nat)
    requires |visible| == 5 && 1 <= k <= 5
    ensures RunFill(visible, anyAppears) == FilledBy(k) <==>
              visible[k - 1] && forall j :: 0 <= j < k - 1 ==> !visible[j]
    ensures RunFill(visible, anyAppears) == FilledBy(6) <==> anyAppears && forall j :: 0 <= j < 5 ==> !visible[j]
    ensures RunFill(visible, anyAppears) == FillTimedOut <==> !anyAppears && forall j :: 0 <= j < 5 ==> !visible[j]
  {
    RunStrategiesFirst(visible, 0, None, anyAppears);
    var f := FirstVisible(visible, 0);
    if f.Some? && f.value != k {
      if f.value < k {
        assert !visible[f.value - 1] || !(forall j :: 0 <= j < k - 1 ==> !visible[j]);
      } else {
        assert !visible[k - 1];
      }
    }
  }

  // ------------------------------------------------------------- context

  /** One page's entry in the model's context. */
  function PageEntry(p: PageRecord): (r: string)
    ensures StartsWith(r, "PAGE: " + p.url)
  {
    var head := "PAGE: " + p.url;
    var rest := " (title: \"" + p.title + "\")" + UiDetails(p.ui);
    assert (head + rest)[..|head|] == head;
    head + rest
  }

  /** The page's controls, one labelled line per non-empty kind. */
  function UiDetails(ui: UiSnapshot): string {
    (if |ui.headings| > 0 then "\n  Headings: " + Join(ui.headings, " | ") else "")
    + (if |ui.buttons| > 0 then "\n  Buttons: " + Join(ui.buttons, " | ") else "")
    + (if |ui.inputs| > 0 then "\n  Inputs: " + Join(InputsText(ui.inputs), ", ") else "")
    + (if |ui.links| > 0 then "\n  Links: " + Join(Prefix(ui.links, 15), " | ") else "")
    + (if |ui.selects| > 0 then "\n  Selects: " + Join(SelectsText(ui.selects), "; ") else "")
    + (if |ui.textSnippets| > 0 then "\n  Text: " + Join(ui.textSnippets, " | ") else "")
  }

  function InputsText(inputs: seq<InputDescriptor>): seq<string> {
    seq(|inputs|, i requires 0 <= i < |inputs| =>
      "\"" + OrString(OrString(inputs[i].placeholder, inputs[i].labelText), inputs[i].name) + "\" ["
      + inputs[i].inputType + "]")
  }

  function SelectsText(selects: seq<SelectDescriptor>): seq<string> {
    seq(|selects|, i requires 0 <= i < |selects| =>
      "\"" + selects[i].labelText + "\" (" + Join(selects[i].options, ", ") + ")")
  }

  function OrString(a: string, b: string): string {
    if a != "" then a else b
  }

  /** The page entries: the first 15 pages, one entry each. */
  function PageEntries(pages: seq<PageRecord>): (r: seq<string>)
    ensures |r| == if |pages| < 15 then |pages| else 15
    ensures forall i :: 0 <= i < |r| ==> StartsWith(r[i], "PAGE: " + pages[i].url)
  {
    var ps := Prefix(pages, 15);
    seq(|ps|, i requires 0 <= i < |ps| => PageEntry(ps[i]))
  }

  /** The endpoint lines: the first 20 APIs as "METHOD url (status)". */
  function ApiLines(apis: seq<ApiRecord>): (r: seq<string>)
    ensures |r| == if |apis| < 20 then |apis| else 20
    ensures forall i :: 0 <= i < |r| ==>
              r[i] == apis[i].httpMethod + " " + apis[i].url + " (" + IntToString(apis[i].responseStatus) + ")"
  {
    var xs := Prefix(apis, 20);
    seq(|xs|, i requires 0 <= i < |xs| => xs[i].httpMethod + " " + xs[i].url + " (" + IntToString(xs[i].responseStatus) + ")")
  }

  /** The user message sent with the request. */
  function UserMessage(prompt: string, pages: seq<PageRecord>, apis: seq<ApiRecord>): string {
    var pageSummary := Join(PageEntries(pages), "\n\n");
    var apiSummary := Join(ApiLines(apis), "\n");
    "DISCOVERED PAGES:\n" + OrString(pageSummary, "(none)") + "\n\nAPI ENDPOINTS:\n" + OrString(apiSummary, "(none)")
    + "\n\nUSER REQUEST: " + prompt + "\n\nOutput the JSON test plan array now."
  }

  // ------------------------------------------------------------ the reply

  /** Strips a leading ```` ``` ```` (optionally `json`, any case, and one
      line feed) and a trailing ```` ``` ```` with the line feed before
      it. */
  function StripFences(raw: string): (r: string)
    ensures !StartsWith(raw, "```") && !EndsWith(raw, "```") ==> r == raw
  {
    var s1 := if StartsWith(raw, "```") then
                var t := raw[3..];
                var t2 := if |t| >= 4 && Lower(t[..4]) == "json" then t[4..] else t;
                if StartsWith(t2, "\n") then t2[1..] else t2
              else raw;
    if EndsWith(s1, "```") then
      var u := s1[..|s1| - 3];
      if EndsWith(u, "\n") then u[..|u| - 1] else u
    else s1
  }

  /** A fenced JSON block yields exactly its body. */
  lemma FencedBody(body: string)
    ensures StripFences("```json\n" + body + "\n```") == body
  {
    var raw := "```json\n" + body + "\n```";
    assert StartsWith(raw, "```") by { assert raw[..3] == "```"; }
    var t := raw[3..];
    assert t == "json\n" + body + "\n```";
    assert t[..4] == "json";
    LowerJson();
    var t2 := t[4..];
    assert t2 == "\n" + body + "\n```";
    assert StartsWith(t2, "\n");
    var s1 := t2[1..];
    assert s1 == body + "\n```";
    FencedTail(body);
  }

  lemma LowerJson()
    ensures Lower("json") == "json"
  {
    assert Lower("json")[0] == 'j' && Lower("json")[1] == 's' && Lower("json")[2] == 'o' && Lower("json")[3] == 'n';
  }

  /** The closing fence and the line feed before it come off. */
  lemma FencedTail(body: string)
    ensures var s1 := body + "\n```";
            EndsWith(s1, "```") && EndsWith(s1[..|s1| - 3], "\n") && s1[..|s1| - 3][..|s1| - 4] == body
  {
    var s1 := body + "\n```";
    assert s1[|s1| - 3..] == "```";
    assert s1[..|s1| - 3] == body + "\n";
    assert (body + "\n")[..|body|] == body;
  }

  /** The context the generator is called with. */
  datatype AiContext = AiContext(baseUrl: string, pages: seq<PageRecord>, apis: seq<ApiRecord>, auth: Option<string>)

  /** `generateAiTests`: needs an API key; the model's reply, with fences
      stripped, must parse to a non-empty array of readable tests.
      `complete` is the model call (given the base URL and the user
      message), `parse` is `JSON.parse`. */
  function GenerateAiTests(prompt: string, ctx: AiContext, apiKey: string,
                           complete: (string, string) -> Result<string>,
                           parse: string -> Option<Json>, stringify: Json -> string): (r: Result<string>)
    ensures apiKey == "" ==> r == Err("OPENAI_API_KEY not set")
    ensures r.Ok? ==> apiKey != "" && complete(ctx.baseUrl, UserMessage(prompt, ctx.pages, ctx.apis)).Ok?
    ensures r.Ok? ==>
              var plan := parse(StripFences(Trim(complete(ctx.baseUrl, UserMessage(prompt, ctx.pages, ctx.apis)).value)));
              plan.Some? && plan.value.JArr? && |plan.value.items| > 0 && DecodeTests(plan.value.items).Ok?
              && r.value == Render(PlanLines(DecodeTests(plan.value.items).value, Translate(ctx.baseUrl, ctx.auth, stringify), stringify))
    ensures (match complete(ctx.baseUrl, UserMessage(prompt, ctx.pages, ctx.apis))
             case Ok(reply) =>
               apiKey != "" && parse(StripFences(Trim(reply))).Some?
               && (!parse(StripFences(Trim(reply))).value.JArr? || |parse(StripFences(Trim(reply))).value.items| == 0)
             case Err(_) => false)
            ==> r == Err("OpenAI returned empty test plan")
  {
    if apiKey == "" then Err("OPENAI_API_KEY not set")
    else
      match complete(ctx.baseUrl, UserMessage(prompt, ctx.pages, ctx.apis))
      case Err(e) => Err(e)
      case Ok(reply) =>
        match parse(StripFences(Trim(reply)))
        case None => Err("SyntaxError")
        case Some(plan) =>
          if !plan.JArr? || |plan.items| == 0 then Err("OpenAI returned empty test plan")
          else
            match DecodeTests(plan.items)
            case Err(e) => Err(e)
            case Ok(tests) => Ok(Render(PlanLines(tests, Translate(ctx.baseUrl, ctx.auth, stringify), stringify)))
  }
}
