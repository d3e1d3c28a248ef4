/** The authentication step of a scan and the token lookup it uses
    (engine/discovery-orchestrator.js, `authenticate` and
    `getNestedValue`). The step is modelled as the plan of browser actions
    it performs; reading a property of a null configuration, calling
    `startsWith`/`split` on a non-string, an unparseable base URL and a
    failing login request are the errors it can throw. */
module DiscoveryAuth {
  import opened Wrappers
  import opened Text
  import opened Json
  import opened Urls
  import Seqs

  /** One effect of the authentication step. Selector and value arguments
      are the configuration's values as given. */
  datatype AuthAction =
    | Goto(url: string)
    | Fill(selector: Json, value: Json)
    | Click(selector: Json)
    | PressEnter
    | WaitForLoad
    | BasicHeader(credentials: string)   // the text that is Base64-encoded after "Basic "
    | LoginPost(url: string, username: Json, password: Json)
    | BearerHeader(token: string)
    | AddCookie(name: Json, value: Json, domain: string, path: string)

  /** Reading `config.key`: a null configuration throws. */
  function Prop(config: Json, key: string): (r: Result<Option<Json>>)
    ensures config.JNull? <==> r.Err?
    ensures r.Ok? ==> r.value == Get(config, key)
  {
    if config.JNull? then Err("Cannot read properties of null (reading '" + key + "')")
    else Ok(Get(config, key))
  }

  /** A configured URL: absolute when it starts with "http", else
      appended to the base URL. Only strings have `startsWith`. */
  function Resolve(baseUrl: string, v: Json): (r: Result<string>)
    ensures v.JStr? <==> r.Ok?
    ensures v.JStr? && StartsWith(v.s, "http") ==> r == Ok(v.s)
    ensures v.JStr? && !StartsWith(v.s, "http") ==> r == Ok(baseUrl + v.s)
  {
    match v
    case JStr(s) => Ok(if StartsWith(s, "http") then s else baseUrl + s)
    case _ => Err("startsWith is not a function")
  }

  /** The form-login page: `login_url` resolved against the base URL, or
      base URL + "/login" when it is not set. */
  function FormLoginUrl(baseUrl: string, loginUrl: Option<Json>): (r: Result<string>)
    ensures !Present(loginUrl) ==> r == Ok(baseUrl + "/login")
    ensures Present(loginUrl) ==> r == Resolve(baseUrl, loginUrl.value)
  {
    if Present(loginUrl) then Resolve(baseUrl, loginUrl.value) else Ok(baseUrl + "/login")
  }

  /** The actions after navigating to the login page: each credential is
      filled only when its selector and value are both set; submit clicks
      the configured selector, else presses Enter. */
  function FormSteps(userSel: Option<Json>, user: Option<Json>, passSel: Option<Json>, pass: Option<Json>,
                     submit: Option<Json>): (acts: seq<AuthAction>)
    ensures Present(userSel) && Present(user) ==> Fill(userSel.value, user.value) in acts
    ensures Present(passSel) && Present(pass) ==> Fill(passSel.value, pass.value) in acts
    ensures (exists a :: a in acts && a.Fill?) <==> (Present(userSel) && Present(user)) || (Present(passSel) && Present(pass))
    ensures PressEnter in acts <==> !Present(submit)
    ensures (exists a :: a in acts && a.Click?) <==> Present(submit)
    ensures |acts| > 0 && acts[|acts| - 1] == WaitForLoad
    ensures |acts| == 2 + (if Present(userSel) && Present(user) then 1 else 0)
                        + (if Present(passSel) && Present(pass) then 1 else 0)
    ensures acts[|acts| - 2] == if Present(submit) then Click(submit.value) else PressEnter
    ensures forall i :: 0 <= i < |acts| - 2 ==>
              (Present(userSel) && Present(user) && acts[i] == Fill(userSel.value, user.value))
              || (Present(passSel) && Present(pass) && acts[i] == Fill(passSel.value, pass.value))
    ensures Present(userSel) && Present(user) ==> acts[0] == Fill(userSel.value, user.value)
  {
    var fillUser := if Present(userSel) && Present(user) then [Fill(userSel.value, user.value)] else [];
    var fillPass := if Present(passSel) && Present(pass) then [Fill(passSel.value, pass.value)] else [];
    var submitAct := if Present(submit) then [Click(submit.value)] else [PressEnter];
    var acts := fillUser + fillPass + submitAct + [WaitForLoad];
    assert submitAct[0] in acts;
    assert fillUser != [] ==> fillUser[0] in acts;
    assert fillPass != [] ==> fillPass[0] in acts;
    acts
  }

  /** Looks up a list of keys on the configuration, failing on the first
      null read. */
  function Props(config: Json, keys: seq<string>): (r: Result<seq<Option<Json>>>)
    ensures r.Ok? <==> !config.JNull?
    ensures r.Ok? ==> |r.value| == |keys| && forall i :: 0 <= i < |keys| ==> r.value[i] == Get(config, keys[i])
  {
    if config.JNull? then Err("Cannot read properties of null (reading '" + (if |keys| > 0 then keys[0] else "") + "')")
    else Ok(seq(|keys|, i requires 0 <= i < |keys| => Get(config, keys[i])))
  }

  /** Form login. */
  function FormAuth(baseUrl: string, config: Json): (r: Result<seq<AuthAction>>)
    ensures config.JNull? ==> r.Err?
    ensures r.Ok? <==> !config.JNull? && FormLoginUrl(baseUrl, Get(config, "login_url")).Ok?
    ensures r.Ok? ==> |r.value| >= 2 && r.value[0].Goto?
                      && Ok(r.value[0].url) == FormLoginUrl(baseUrl, Get(config, "login_url"))
    ensures r.Ok? ==> r.value[1..] == FormSteps(Get(config, "username_selector"), Get(config, "username"),
                                                Get(config, "password_selector"), Get(config, "password"),
                                                Get(config, "submit_selector"))
  {
    match Props(config, ["login_url", "username_selector", "username", "password_selector", "password",
                         "submit_selector"])
    case Err(m) => Err(m)
    case Ok(v) =>
      match FormLoginUrl(baseUrl, v[0])
      case Err(m) => Err(m)
      case Ok(url) => Ok([Goto(url)] + FormSteps(v[1], v[2], v[3], v[4], v[5]))
  }

  /** The token at `path` in `body`: `getNestedValue`. */
  function GetNestedValue(body: Json, path: string): Json {
    Walk(body, Split(path, "."))
  }

  /** Follows keys one by one; a falsy intermediate value or a missing key
      gives null. */
  function Walk(o: Json, keys: seq<string>): Json
    decreases |keys|
  {
    if |keys| == 0 then o
    else
      var next := if Truthy(o) && Get(o, keys[0]).Some? then Get(o, keys[0]).value else JNull;
      Walk(next, keys[1..])
  }

  /** Walking a concatenation of key lists walks one list after the other. */
  lemma {:induction false} WalkAppend(o: Json, a: seq<string>, b: seq<string>)
    ensures Walk(o, a + b) == Walk(Walk(o, a), b)
    decreases |a|
  {
    if |a| > 0 {
      assert (a + b)[0] == a[0] && (a + b)[1..] == a[1..] + b;
      var next := if Truthy(o) && Get(o, a[0]).Some? then Get(o, a[0]).value else JNull;
      WalkAppend(next, a[1..], b);
    } else {
      assert a + b == b;
    }
  }

  /** Once null, the walk stays null. */
  lemma {:induction false} WalkNull(keys: seq<string>)
    ensures Walk(JNull, keys) == JNull
    decreases |keys|
  {
    if |keys| > 0 {
      WalkNull(keys[1..]);
    }
  }

  /** A walk ending in a non-null value passed through non-null values at
      every step, so every key was present along the way. */
  lemma {:induction false} WalkDefined(o: Json, keys: seq<string>)
    requires |keys| > 0 && Walk(o, keys) != JNull
    ensures Truthy(o) && Get(o, keys[0]).Some?
    decreases |keys|
  {
    if !(Truthy(o) && Get(o, keys[0]).Some?) {
      WalkNull(keys[1..]);
    }
  }

  /** `s` occurs first at `k`: then `indexOf` finds `k`. */
  lemma FirstOccurrence(s: string, t: string, k: nat)
    requires OccursAt(s, t, k)
    requires forall j :: 0 <= j < k ==> !OccursAt(s, t, j)
    ensures IndexOfFrom(s, t, 0) == Some(k)
  {
  }

  /** A dot inside `a + "." + b` before position |a| is a dot of `a`. */
  lemma DotPositions(a: string, b: string, j: nat)
    requires j < |a|
    ensures OccursAt(a + "." + b, ".", j) <==> OccursAt(a, ".", j)
  {
    var s := a + "." + b;
    assert s[j] == a[j];
    assert s[j..j + 1] == [s[j]];
    assert a[j..j + 1] == [a[j]];
  }

  /** With no dot in `a`, the first dot of `a + "." + b` is the joining one. */
  lemma JoinDotFirst(a: string, b: string)
    requires IndexOfFrom(a, ".", 0).None?
    ensures Split(a + "." + b, ".") == [a] + Split(b, ".")
  {
    var s := a + "." + b;
    forall j | 0 <= j < |a| ensures !OccursAt(s, ".", j) {
      DotPositions(a, b, j);
    }
    assert s[|a|..|a| + 1] == ".";
    FirstOccurrence(s, ".", |a|);
    assert s[..|a|] == a && s[|a| + 1..] == b;
  }

  /** A dot of `a` at `k`, the first one, is also the first of `a + "." + b`. */
  lemma InnerDotFirst(a: string, b: string, k: nat)
    requires IndexOfFrom(a, ".", 0) == Some(k)
    ensures k + 1 <= |a|
    ensures Split(a + "." + b, ".") == [a[..k]] + Split(a[k + 1..] + "." + b, ".")
    ensures Split(a, ".") == [a[..k]] + Split(a[k + 1..], ".")
  {
    var s := a + "." + b;
    forall j | 0 <= j < k ensures !OccursAt(s, ".", j) {
      DotPositions(a, b, j);
    }
    DotPositions(a, b, k);
    FirstOccurrence(s, ".", k);
    assert s[..k] == a[..k];
    assert s[k + 1..] == a[k + 1..] + "." + b;
  }

  /** One step of the induction: past the first dot of `a`. */
  lemma SplitDotStep(a: string, b: string, k: nat)
    requires IndexOfFrom(a, ".", 0) == Some(k)
    requires k + 1 <= |a|
    requires Split(a[k + 1..] + "." + b, ".") == Split(a[k + 1..], ".") + Split(b, ".")
    ensures Split(a + "." + b, ".") == Split(a, ".") + Split(b, ".")
  {
    InnerDotFirst(a, b, k);
    Seqs.ConcatAssoc([a[..k]], Split(a[k + 1..], "."), Split(b, "."));
  }


  /** Splitting on '.' distributes over a joining '.'. */
  lemma {:induction false} SplitDotConcat(a: string, b: string)
    ensures Split(a + "." + b, ".") == Split(a, ".") + Split(b, ".")
    decreases |a|
  {
    match IndexOfFrom(a, ".", 0)
    case None =>
      JoinDotFirst(a, b);
    case Some(k) =>
      InnerDotFirst(a, b, k);
      SplitDotConcat(a[k + 1..], b);
      SplitDotStep(a, b, k);
  }

  /** A dotted path is a path of paths: "a.b" looks up "b" in what "a"
      yields. */
  lemma NestedValueCompose(body: Json, a: string, b: string)
    ensures GetNestedValue(body, a + "." + b) == GetNestedValue(GetNestedValue(body, a), b)
  {
    SplitDotConcat(a, b);
    WalkAppend(body, Split(a, "."), Split(b, "."));
  }

  /** A key without a dot is one property read. */
  lemma NestedValueSingleKey(body: Json, k: string)
    requires !Contains(k, ".")
    ensures GetNestedValue(body, k) == if Truthy(body) && Get(body, k).Some? then Get(body, k).value else JNull
  {
    assert Split(k, ".") == [k];
    var next := if Truthy(body) && Get(body, k).Some? then Get(body, k).value else JNull;
    assert [k][0] == k && [k][1..] == [];
    assert Walk(body, [k]) == Walk(next, []);
  }

  /** Bearer auth: a set static token wins; otherwise, when login_api,
      username and password are all set, the token is read from the login
      response at `token_path` (default "token"); the header is set only for
      a truthy token. `login` is the login request's parsed response. */
  function BearerAuth(baseUrl: string, config: Json, login: string -> Result<Json>): (r: Result<seq<AuthAction>>)
    ensures config.JNull? ==> r.Err?
    ensures !config.JNull? && Present(Get(config, "token")) ==>
              r == Ok([BearerHeader(TemplateText(Get(config, "token")))])
    ensures r.Ok? ==> |r.value| <= 2
    ensures !config.JNull? && !Present(Get(config, "token"))
            && !(Present(Get(config, "login_api")) && Present(Get(config, "username")) && Present(Get(config, "password"))) ==>
              r == Ok([])
    ensures r.Ok? && (exists a :: a in r.value && a.LoginPost?) ==>
              !Present(Get(config, "token")) && Present(Get(config, "login_api"))
              && Present(Get(config, "username")) && Present(Get(config, "password"))
  {
    match Props(config, ["token", "login_api", "username", "password", "token_path"])
    case Err(m) => Err(m)
    case Ok(v) =>
      var token := v[0];
      if !Present(token) && Present(v[1]) && Present(v[2]) && Present(v[3]) then
        match Resolve(baseUrl, v[1].value)
        case Err(m) => Err(m)
        case Ok(url) =>
          var post := LoginPost(url, v[2].value, v[3].value);
          match login(url)
          case Err(m) => Err(m)
          case Ok(body) =>
            match TokenPath(v[4])
            case Err(m) => Err(m)
            case Ok(path) =>
              var t := GetNestedValue(body, path);
              Ok([post] + (if Truthy(t) then [BearerHeader(ToJsString(t))] else []))
      else if Present(token) then Ok([BearerHeader(TemplateText(token))])
      else Ok([])
  }

  /** The login path of bearer auth, when no static token is set but
      login_api, username and password are: the login request comes first,
      and a bearer header carrying the token read at `token_path` follows it
      exactly when that token is truthy; a failure of any step is the
      result. */
  lemma BearerAuthLogin(baseUrl: string, config: Json, login: string -> Result<Json>)
    requires !config.JNull? && !Present(Get(config, "token"))
    requires Present(Get(config, "login_api")) && Present(Get(config, "username")) && Present(Get(config, "password"))
    ensures var r := BearerAuth(baseUrl, config, login);
            var resolved := Resolve(baseUrl, Get(config, "login_api").value);
            (resolved.Err? ==> r == Err(resolved.msg))
            && (resolved.Ok? && login(resolved.value).Err? ==> r == Err(login(resolved.value).msg))
            && (resolved.Ok? && login(resolved.value).Ok? && TokenPath(Get(config, "token_path")).Err? ==> r.Err?)
            && (resolved.Ok? && login(resolved.value).Ok? && TokenPath(Get(config, "token_path")).Ok? ==>
                  var t := GetNestedValue(login(resolved.value).value, TokenPath(Get(config, "token_path")).value);
                  r.Ok? && |r.value| == (if Truthy(t) then 2 else 1)
                  && r.value[0] == LoginPost(resolved.value, Get(config, "username").value, Get(config, "password").value)
                  && (Truthy(t) ==> r.value[1] == BearerHeader(ToJsString(t))))
  {
    var v := Props(config, ["token", "login_api", "username", "password", "token_path"]).value;
    assert v[1] == Get(config, "login_api") && v[2] == Get(config, "username");
    assert v[3] == Get(config, "password") && v[4] == Get(config, "token_path");
  }

  /** `config.token_path || 'token'`; only a string can be split. */
  function TokenPath(v: Option<Json>): (r: Result<string>)
    ensures !Present(v) ==> r == Ok("token")
    ensures Present(v) ==> (r.Ok? <==> v.value.JStr?)
  {
    if !Present(v) then Ok("token")
    else if v.value.JStr? then Ok(v.value.s)
    else Err("split is not a function")
  }

  /** Cookie auth: one cookie on the base host with path "/", only when
      both name and value are set. */
  function CookieAuth(base: RawUrl, config: Json): (r: Result<seq<AuthAction>>)
    ensures config.JNull? ==> r.Err?
    ensures r.Ok? ==> |r.value| <= 1
    ensures r.Ok? && |r.value| == 1 ==> Present(Get(config, "cookie_name")) && Present(Get(config, "cookie_value"))
                                        && base.Parsed?
                                        && r.value[0] == AddCookie(Get(config, "cookie_name").value,
                                                                   Get(config, "cookie_value").value,
                                                                   base.url.hostname, "/")
    ensures (!config.JNull? && Present(Get(config, "cookie_name")) && Present(Get(config, "cookie_value"))
             && base.Parsed?) ==> r.Ok? && |r.value| == 1
  {
    match Props(config, ["cookie_name", "cookie_value"])
    case Err(m) => Err(m)
    case Ok(v) =>
      if Present(v[0]) && Present(v[1]) then
        match base
        case Malformed(_) => Err("Invalid URL")
        case Parsed(u) => Ok([AddCookie(v[0].value, v[1].value, u.hostname, "/")])
      else Ok([])
  }

  /** Basic auth: the credentials text "username:password" as a template
      literal renders it (missing values print "undefined"). */
  function BasicAuth(config: Json): (r: Result<seq<AuthAction>>)
    ensures config.JNull? <==> r.Err?
    ensures r.Ok? ==> r.value == [BasicHeader(TemplateText(Get(config, "username")) + ":"
                                              + TemplateText(Get(config, "password")))]
  {
    match Props(config, ["username", "password"])
    case Err(m) => Err(m)
    case Ok(v) => Ok([BasicHeader(TemplateText(v[0]) + ":" + TemplateText(v[1]))])
  }

  /** `authenticate`: dispatch on the auth type; "none" and unknown types
      do nothing. `baseUrl` is the configured text, `base` its parse. */
  function Authenticate(baseUrl: string, base: RawUrl, authType: string, config: Json,
                        login: string -> Result<Json>): (r: Result<seq<AuthAction>>)
    ensures authType !in {"form", "basic", "bearer", "cookie"} ==> r == Ok([])
    ensures authType == "form" ==> r == FormAuth(baseUrl, config)
    ensures authType == "basic" ==> r == BasicAuth(config)
    ensures authType == "bearer" ==> r == BearerAuth(baseUrl, config, login)
    ensures authType == "cookie" ==> r == CookieAuth(base, config)
  {
    if authType == "form" then FormAuth(baseUrl, config)
    else if authType == "basic" then BasicAuth(config)
    else if authType == "bearer" then BearerAuth(baseUrl, config, login)
    else if authType == "cookie" then CookieAuth(base, config)
    else Ok([])
  }
}
