/** The generation step of a run (generator/test-generator.js,
    `generateTests`): reads the target's auth configuration, runs the
    selected template generators, then the AI generator when a prompt is
    given, and answers the names of the spec files it wrote. Writing the
    files is modelled as returning them; the database reads are the
    `pages`, `apis` and `forms` parameters. */
module TestGenerator {
  import opened Wrappers
  import opened Text
  import opened Seqs
  import opened Json
  import opened Records
  import opened Templates
  import opened AiTests

  /** The spec files, in the order the source writes them. */
  datatype Kind = Pages | Apis | Security | Forms | Load | Custom

  /** The name pushed onto `generated`. */
  function KindName(k: Kind): string {
    match k
    case Pages => "pages"
    case Apis => "apis"
    case Security => "security"
    case Forms => "forms"
    case Load => "load"
    case Custom => "custom"
  }

  function Rank(k: Kind): nat {
    match k
    case Pages => 0
    case Apis => 1
    case Security => 2
    case Forms => 3
    case Load => 4
    case Custom => 5
  }

  /** The spec files a run writes, one optional slot per kind: the five
      template files and the AI generator's code. */
  datatype Written = Written(pages: Option<SpecFile>, apis: Option<SpecFile>, security: Option<SpecFile>,
                             forms: Option<SpecFile>, load: Option<SpecFile>, custom: Option<string>)

  /** The target row: `base_url`, `auth_type` and the `auth_config` text
      (None for a null column). */
  datatype Target = Target(baseUrl: string, authType: string, authConfig: Option<string>)

  /** The run's choices: `testTypes`, `concurrency`, `aiPrompt`, `aiOnly`. */
  datatype Options = Options(testTypes: seq<string>, concurrency: int, aiPrompt: Option<string>, aiOnly: bool)

  /** What the run calls but the model does not look inside: Base64
      encoding, the page URL's path (None when the URL does not parse),
      `JSON.parse` (None when it throws), and the AI generator. */
  datatype Env = Env(base64: string -> string, pathname: string -> Option<string>,
                     parse: string -> Option<Json>, generateAi: (string, AiContext) -> Result<string>)

  /** The AI generator as `generateAiTests` implements it, for an API key,
      a model call and JSON serialisation. */
  function AiGenerator(apiKey: string, complete: (string, string) -> Result<string>,
                       parse: string -> Option<Json>, stringify: Json -> string): (string, AiContext) -> Result<string> {
    (prompt: string, ctx: AiContext) => GenerateAiTests(prompt, ctx, apiKey, complete, parse, stringify)
  }

  /** `JSON.parse(target.auth_config || '{}')`. */
  function AuthConfig(text: Option<string>, parse: string -> Option<Json>): (r: Result<Json>)
    ensures (text.None? || text == Some("")) ==> r == Ok(JObj(map[]))
    ensures text.Some? && text.value != "" ==> (r.Ok? <==> parse(text.value).Some?)
  {
    if text.None? || text.value == "" then Ok(JObj(map[]))
    else match parse(text.value)
         case None => Err("SyntaxError")
         case Some(j) => Ok(j)
  }

  /** The Authorization header: Basic with the Base64 of
      `username:password` when the type is basic and a username is set,
      Bearer with the token when the type is bearer and a token is set,
      none otherwise. Reading a property of a null configuration throws,
      but only for those two types. */
  function AuthHeader(authType: string, config: Json, base64: string -> string): (r: Result<Option<string>>)
    ensures r.Err? <==> config.JNull? && (authType == "basic" || authType == "bearer")
    ensures r.Ok? && r.value.Some? ==>
              (authType == "basic" && Present(Get(config, "username"))
               && r.value.value == "Basic " + base64(TemplateText(Get(config, "username")) + ":" + TemplateText(Get(config, "password"))))
              || (authType == "bearer" && Present(Get(config, "token"))
                  && r.value.value == "Bearer " + TemplateText(Get(config, "token")))
    ensures r.Ok? && r.value.None? ==>
              !(authType == "basic" && Present(Get(config, "username")))
              && !(authType == "bearer" && Present(Get(config, "token")))
  {
    if authType == "basic" then
      if config.JNull? then Err("TypeError")
      else if Present(Get(config, "username")) then
        Ok(Some("Basic " + base64(TemplateText(Get(config, "username")) + ":" + TemplateText(Get(config, "password")))))
      else Ok(None)
    else if authType == "bearer" then
      if config.JNull? then Err("TypeError")
      else if Present(Get(config, "token")) then Ok(Some("Bearer " + TemplateText(Get(config, "token"))))
      else Ok(None)
    else Ok(None)
  }

  predicate Selected(o: Options, name: string) {
    !o.aiOnly && name in o.testTypes
  }

  /** Whether the file of kind `k` was written. */
  predicate Wrote(w: Written, k: Kind) {
    match k
    case Pages => w.pages.Some?
    case Apis => w.apis.Some?
    case Security => w.security.Some?
    case Forms => w.forms.Some?
    case Load => w.load.Some?
    case Custom => w.custom.Some?
  }

  /** The kind written at position `n` of the source's order. */
  function KindAt(n: nat): (k: Kind)
    requires n < 6
    ensures Rank(k) == n
  {
    [Pages, Apis, Security, Forms, Load, Custom][n]
  }

  /** The kinds written from position `n` of the source's order on. */
  function GeneratedFrom(w: Written, n: nat): (r: seq<Kind>)
    requires n <= 6
    ensures forall i :: 0 <= i < |r| ==> Rank(r[i]) >= n
    ensures forall i, j :: 0 <= i < j < |r| ==> Rank(r[i]) < Rank(r[j])
    ensures forall k :: k in r <==> Rank(k) >= n && Wrote(w, k)
    decreases 6 - n
  {
    if n == 6 then []
    else
      var rest := GeneratedFrom(w, n + 1);
      var k := KindAt(n);
      assert forall k' :: Rank(k') == n ==> k' == k;
      if Wrote(w, k) then [k] + rest else rest
  }

  /** `generated`: the kinds written, in the order the source writes
      them, each at most once. */
  function Generated(w: Written): (r: seq<Kind>)
    ensures forall i, j :: 0 <= i < j < |r| ==> Rank(r[i]) < Rank(r[j])
    ensures forall k :: k in r <==> Wrote(w, k)
  {
    GeneratedFrom(w, 0)
  }

  /** The names pushed onto `generated`. */
  function GeneratedNames(w: Written): (r: seq<string>)
    ensures |r| == |Generated(w)| && forall i :: 0 <= i < |r| ==> r[i] == KindName(Generated(w)[i])
  {
    var ks := Generated(w);
    seq(|ks|, i requires 0 <= i < |ks| => KindName(ks[i]))
  }

  /** What each template generator produces for the run's data. The form
      generator can throw (an unparseable page URL). */
  datatype Outputs = Outputs(pages: Option<SpecFile>, apis: Option<SpecFile>, security: Option<SpecFile>,
                             forms: Result<Option<SpecFile>>, load: Option<SpecFile>)

  function TemplateOutputs(baseUrl: string, pages: seq<PageRecord>, apis: seq<ApiRecord>, forms: seq<FormRecord>,
                           concurrency: int, auth: Option<string>, pathname: string -> Option<string>): (r: Outputs)
    ensures r.pages.Some? <==> |pages| > 0
    ensures r.apis.Some? <==> |apis| > 0
    ensures r.security.Some?
    ensures r.load.Some? <==> |pages| > 0 || Count(apis, IsGet) > 0
    ensures r.forms == GenerateFormTests(forms, pathname)
  {
    Outputs(GeneratePageTests(pages), GenerateApiTests(apis, auth), GenerateSecurityTests(pages, apis, baseUrl),
            GenerateFormTests(forms, pathname), GenerateLoadTests(pages, apis, concurrency))
  }

  /** The template files. Only the form generator can throw, and only when
      it runs; in AI-only mode none runs. Each file is written when its
      generator is selected, has data, and produces a file. */
  function TemplateFiles(o: Options, pages: seq<PageRecord>, apis: seq<ApiRecord>, forms: seq<FormRecord>,
                         out: Outputs): (r: Result<Written>)
    ensures r.Err? <==> Selected(o, "forms") && |forms| > 0 && out.forms.Err?
    ensures r.Ok? ==> r.value.custom.None?
    ensures r.Ok? ==> (r.value.pages.Some? <==> Selected(o, "pages") && |pages| > 0 && out.pages.Some?)
    ensures r.Ok? ==> (r.value.apis.Some? <==> Selected(o, "apis") && |apis| > 0 && out.apis.Some?)
    ensures r.Ok? ==> (r.value.security.Some? <==> Selected(o, "security") && out.security.Some?)
    ensures r.Ok? ==> (r.value.forms.Some? <==> Selected(o, "forms") && |forms| > 0 && out.forms.value.Some?)
    ensures r.Ok? ==> (r.value.load.Some? <==> Selected(o, "load") && out.load.Some?)
    ensures r.Ok? && r.value.pages.Some? ==> r.value.pages == out.pages
    ensures r.Ok? && r.value.apis.Some? ==> r.value.apis == out.apis
    ensures r.Ok? && r.value.security.Some? ==> r.value.security == out.security
    ensures r.Ok? && r.value.forms.Some? ==> Ok(r.value.forms) == out.forms
    ensures r.Ok? && r.value.load.Some? ==> r.value.load == out.load
  {
    var runsForms := Selected(o, "forms") && |forms| > 0;
    if runsForms && out.forms.Err? then Err(out.forms.msg)
    else
      Ok(Written(if Selected(o, "pages") && |pages| > 0 then out.pages else None,
                 if Selected(o, "apis") && |apis| > 0 then out.apis else None,
                 if Selected(o, "security") then out.security else None,
                 if runsForms then out.forms.value else None,
                 if Selected(o, "load") then out.load else None,
                 None))
  }

  /** A prompt that is set and not blank asks for AI tests. */
  predicate AiRequested(o: Options) {
    o.aiPrompt.Some? && Trim(o.aiPrompt.value) != ""
  }

  /** The AI step after the template files. A failure ends the run only
      in AI-only mode, reported with its cause; otherwise the run goes on
      with the template files. Empty code writes nothing. */
  function WithAiFile(files: Written, o: Options, outcome: Result<string>): (r: Result<Written>)
    requires files.custom.None?
    ensures outcome.Ok? ==> r.Ok? && r.value == files.(custom := if outcome.value != "" then Some(outcome.value) else None)
    ensures outcome.Err? && o.aiOnly ==> r == Err("AI test generation failed: " + outcome.msg)
    ensures outcome.Err? && !o.aiOnly ==> r == Ok(files)
  {
    match outcome
    case Ok(code) => Ok(files.(custom := if code != "" then Some(code) else None))
    case Err(m) => if o.aiOnly then Err("AI test generation failed: " + m) else Ok(files)
  }

  /** The auth header the run uses: `JSON.parse(auth_config || '{}')`,
      then the header it yields. */
  function RunAuth(target: Target, base64: string -> string, parse: string -> Option<Json>): (r: Result<Option<string>>)
    ensures r.Err? <==> AuthConfig(target.authConfig, parse).Err?
                        || (AuthConfig(target.authConfig, parse).value.JNull? && (target.authType == "basic" || target.authType == "bearer"))
  {
    match AuthConfig(target.authConfig, parse)
    case Err(m) => Err(m)
    case Ok(config) => AuthHeader(target.authType, config, base64)
  }

  /** The AI generator's outcome, or None when no AI tests were asked
      for. */
  function AiOutcome(o: Options, baseUrl: string, pages: seq<PageRecord>, apis: seq<ApiRecord>,
                     auth: Option<string>, env: Env): (r: Option<Result<string>>)
    ensures r.Some? <==> AiRequested(o)
  {
    if AiRequested(o) then
      Some(env.generateAi(o.aiPrompt.value, AiContext(baseUrl, pages, apis, auth)))
    else None
  }

  /** The files of a run whose configuration was readable: the template
      files, then the AI file when AI tests were asked for and produced
      code. A failing AI step stops the run exactly in AI-only mode. */
  function RunFiles(o: Options, pages: seq<PageRecord>, apis: seq<ApiRecord>, forms: seq<FormRecord>,
                    out: Outputs, ai: Option<Result<string>>): (r: Result<Written>)
    ensures !(o.aiOnly && ai.Some? && ai.value.Err?) ==> (r.Ok? <==> TemplateFiles(o, pages, apis, forms, out).Ok?)
    ensures r.Ok? ==> r.value.(custom := None) == TemplateFiles(o, pages, apis, forms, out).value
    ensures r.Ok? ==> (r.value.custom.Some? <==> ai.Some? && ai.value.Ok? && ai.value.value != "")
    ensures o.aiOnly && ai.Some? && ai.value.Err? ==> r == Err("AI test generation failed: " + ai.value.msg)
  {
    match TemplateFiles(o, pages, apis, forms, out)
    case Err(m) => Err(m)
    case Ok(files) =>
      match ai
      case None => Ok(files)
      case Some(outcome) => WithAiFile(files, o, outcome)
  }

  /** `generateTests`: the written files, or the error that stopped the
      run. */
  function GenerateTests(target: Target, pages: seq<PageRecord>, apis: seq<ApiRecord>, forms: seq<FormRecord>,
                         o: Options, env: Env): Result<Written>
  {
    match RunAuth(target, env.base64, env.parse)
    case Err(m) => Err(m)
    case Ok(auth) =>
      var out := TemplateOutputs(target.baseUrl, pages, apis, forms, o.concurrency, auth, env.pathname);
      RunFiles(o, pages, apis, forms, out, AiOutcome(o, target.baseUrl, pages, apis, auth, env))
  }

  /** The files a run writes, in terms of its inputs: pages when selected
      and there are pages; APIs when selected and there are endpoints;
      security whenever selected; forms when selected and some form yields
      a test; load when selected and there is a page or a GET endpoint;
      custom when AI tests were asked for and produced code. */
  lemma WrittenFiles(target: Target, pages: seq<PageRecord>, apis: seq<ApiRecord>, forms: seq<FormRecord>,
                     o: Options, env: Env)
    requires GenerateTests(target, pages, apis, forms, o, env).Ok?
    ensures var w := GenerateTests(target, pages, apis, forms, o, env).value;
            var outcome := AiOutcome(o, target.baseUrl, pages, apis, RunAuth(target, env.base64, env.parse).value, env);
            (w.pages.Some? <==> Selected(o, "pages") && |pages| > 0)
            && (w.apis.Some? <==> Selected(o, "apis") && |apis| > 0)
            && (w.security.Some? <==> Selected(o, "security"))
            && (w.forms.Some? <==> Selected(o, "forms") && |forms| > 0 && GenerateFormTests(forms, env.pathname).value.Some?)
            && (w.load.Some? <==> Selected(o, "load") && (|pages| > 0 || Count(apis, IsGet) > 0))
            && (w.custom.Some? <==> outcome.Some? && outcome.value.Ok? && outcome.value.value != "")
  {
    var auth := RunAuth(target, env.base64, env.parse).value;
    var out := TemplateOutputs(target.baseUrl, pages, apis, forms, o.concurrency, auth, env.pathname);
    var ai := AiOutcome(o, target.baseUrl, pages, apis, auth, env);
    GenerateTestsFiles(target, pages, apis, forms, o, env);
    RunFilesWritten(o, pages, apis, forms, out, ai, env.pathname);
  }

  /** With a readable auth configuration, a run writes the files of its
      template outputs and AI outcome. */
  lemma GenerateTestsFiles(target: Target, pages: seq<PageRecord>, apis: seq<ApiRecord>, forms: seq<FormRecord>,
                           o: Options, env: Env)
    requires RunAuth(target, env.base64, env.parse).Ok?
    ensures var auth := RunAuth(target, env.base64, env.parse).value;
            GenerateTests(target, pages, apis, forms, o, env)
            == RunFiles(o, pages, apis, forms,
                        TemplateOutputs(target.baseUrl, pages, apis, forms, o.concurrency, auth, env.pathname),
                        AiOutcome(o, target.baseUrl, pages, apis, auth, env))
  {
  }

  /** The files a run writes, for any template outputs of the shape the
      generators produce. */
  lemma RunFilesWritten(o: Options, pages: seq<PageRecord>, apis: seq<ApiRecord>, forms: seq<FormRecord>,
                        out: Outputs, ai: Option<Result<string>>, pathname: string -> Option<string>)
    requires out.pages.Some? <==> |pages| > 0
    requires out.apis.Some? <==> |apis| > 0
    requires out.security.Some?
    requires out.load.Some? <==> |pages| > 0 || Count(apis, IsGet) > 0
    requires out.forms == GenerateFormTests(forms, pathname)
    requires RunFiles(o, pages, apis, forms, out, ai).Ok?
    ensures var w := RunFiles(o, pages, apis, forms, out, ai).value;
            (w.pages.Some? <==> Selected(o, "pages") && |pages| > 0)
            && (w.apis.Some? <==> Selected(o, "apis") && |apis| > 0)
            && (w.security.Some? <==> Selected(o, "security"))
            && (w.forms.Some? <==> Selected(o, "forms") && |forms| > 0 && GenerateFormTests(forms, pathname).value.Some?)
            && (w.load.Some? <==> Selected(o, "load") && (|pages| > 0 || Count(apis, IsGet) > 0))
            && (w.custom.Some? <==> ai.Some? && ai.value.Ok? && ai.value.value != "")
  {
    var r := RunFiles(o, pages, apis, forms, out, ai);
    var files := TemplateFiles(o, pages, apis, forms, out);
    assert files.Ok? && r.value.(custom := None) == files.value;
    TemplatesWritten(o, pages, apis, forms, out, pathname);
  }

  /** The template files written, in terms of the data. */
  lemma TemplatesWritten(o: Options, pages: seq<PageRecord>, apis: seq<ApiRecord>, forms: seq<FormRecord>,
                         out: Outputs, pathname: string -> Option<string>)
    requires out.pages.Some? <==> |pages| > 0
    requires out.apis.Some? <==> |apis| > 0
    requires out.security.Some?
    requires out.load.Some? <==> |pages| > 0 || Count(apis, IsGet) > 0
    requires out.forms == GenerateFormTests(forms, pathname)
    requires TemplateFiles(o, pages, apis, forms, out).Ok?
    ensures var w := TemplateFiles(o, pages, apis, forms, out).value;
            (w.pages.Some? <==> Selected(o, "pages") && |pages| > 0)
            && (w.apis.Some? <==> Selected(o, "apis") && |apis| > 0)
            && (w.security.Some? <==> Selected(o, "security"))
            && (w.forms.Some? <==> Selected(o, "forms") && |forms| > 0 && GenerateFormTests(forms, pathname).value.Some?)
            && (w.load.Some? <==> Selected(o, "load") && (|pages| > 0 || Count(apis, IsGet) > 0))
  {
  }

  /** In AI-only mode a run writes the custom file or nothing. */
  lemma AiOnlyWritesCustomOnly(target: Target, pages: seq<PageRecord>, apis: seq<ApiRecord>, forms: seq<FormRecord>,
                               o: Options, env: Env)
    requires o.aiOnly
    requires GenerateTests(target, pages, apis, forms, o, env).Ok?
    ensures forall k :: k in Generated(GenerateTests(target, pages, apis, forms, o, env).value) ==> k == Custom
  {
    WrittenFiles(target, pages, apis, forms, o, env);
  }

  /** A failing AI step stops the run exactly in AI-only mode, with its
      cause in the message; otherwise only an unreadable auth
      configuration or a throwing form generator can stop it. */
  lemma RunErrors(target: Target, pages: seq<PageRecord>, apis: seq<ApiRecord>, forms: seq<FormRecord>,
                  o: Options, env: Env)
    requires RunAuth(target, env.base64, env.parse).Ok?
    ensures var r := GenerateTests(target, pages, apis, forms, o, env);
            var outcome := AiOutcome(o, target.baseUrl, pages, apis, RunAuth(target, env.base64, env.parse).value, env);
            (o.aiOnly && outcome.Some? && outcome.value.Err? ==> r == Err("AI test generation failed: " + outcome.value.msg))
            && (!o.aiOnly ==> (r.Ok? <==> !(Selected(o, "forms") && |forms| > 0 && GenerateFormTests(forms, env.pathname).Err?)))
  {
  }
}
