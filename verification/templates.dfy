/** The five template generators (generator/page-tests.js, api-tests.js,
    security-tests.js, form-tests.js, load-tests.js). Each emits one spec
    file, or nothing (the source's ''); the file is modelled as its
    describe block, its timeout and the list of tests it declares, each
    test given by what it checks. The checks a generated test makes at run
    time are modelled where they carry logic of their own. */
module Templates {
  import opened Wrappers
  import opened Text
  import opened Seqs
  import opened Records

  /** One generated test. */
  datatype TemplateTest =
    | PageLoads(url: string)
    | NoBrokenLinks(url: string)
    | ApiResponds(httpMethod: string, call: string, url: string, auth: Option<string>)
    | UnauthDenied(httpMethod: string, call: string, url: string)
    | SqlInjectionRejected(url: string, probe: string)
    | XssNotReflected(url: string)
    | SecurityHeadersPresent(baseUrl: string)
    | EmptyRequiredRejected(formName: string, pageUrl: string, path: string)
    | InvalidEmailRejected(formName: string, pageUrl: string, selector: string)
    | ConcurrentPageLoads(concurrency: int, urls: seq<string>)
    | ConcurrentApiRequests(concurrency: int, urls: seq<string>)

  /** A spec file: `test.describe(suite, …)` with `test.setTimeout(timeoutMs)`. */
  datatype SpecFile = SpecFile(suite: string, timeoutMs: nat, tests: seq<TemplateTest>)

  function Min(a: nat, b: nat): nat {
    if a < b then a else b
  }

  // ------------------------------------------------------------- pages

  predicate IsPageLoad(t: TemplateTest) { t.PageLoads? }
  predicate IsLinkCheck(t: TemplateTest) { t.NoBrokenLinks? }

  function PageLoadTests(pages: seq<PageRecord>): (r: seq<TemplateTest>)
    ensures |r| == |pages| && forall i :: 0 <= i < |r| ==> r[i] == PageLoads(pages[i].url)
  {
    if |pages| == 0 then [] else [PageLoads(pages[0].url)] + PageLoadTests(pages[1..])
  }

  function LinkCheckTests(pages: seq<PageRecord>): (r: seq<TemplateTest>)
    ensures |r| == |pages| && forall i :: 0 <= i < |r| ==> r[i] == NoBrokenLinks(pages[i].url)
  {
    if |pages| == 0 then [] else [NoBrokenLinks(pages[0].url)] + LinkCheckTests(pages[1..])
  }

  /** `generatePageTests`: nothing for no pages; otherwise a load test for
      every page, then a broken-link test for each of the first ten. */
  function GeneratePageTests(pages: seq<PageRecord>): (r: Option<SpecFile>)
    ensures r.None? <==> |pages| == 0
    ensures r.Some? ==> r.value.suite == "Page Tests" && r.value.timeoutMs == 60000
    ensures r.Some? ==> r.value.tests == PageTestList(pages)
  {
    if |pages| == 0 then None
    else Some(SpecFile("Page Tests", 60000, PageTestList(pages)))
  }

  /** What a page-load test asserts: no server error, and no console
      error while the page loaded. */
  predicate PageLoadPasses(status: int, consoleErrors: seq<string>) {
    status < 500 && |consoleErrors| == 0
  }

  function PageTestList(pages: seq<PageRecord>): (r: seq<TemplateTest>)
    ensures |r| == |pages| + Min(|pages|, 10)
  {
    PageLoadTests(pages) + LinkCheckTests(Prefix(pages, 10))
  }

  /** Every page gets exactly one load test, and min(n, 10) pages a link
      check, the first ones in order. */
  lemma PageTestCounts(pages: seq<PageRecord>)
    ensures var ts := PageTestList(pages);
            Count(ts, IsPageLoad) == |pages| && Count(ts, IsLinkCheck) == Min(|pages|, 10)
            && Filter(ts, IsLinkCheck) == LinkCheckTests(Prefix(pages, 10))
  {
    var a, b := PageLoadTests(pages), LinkCheckTests(Prefix(pages, 10));
    LoadTestsKinds(pages);
    LinkTestsKinds(Prefix(pages, 10));
    CountAppend(a, b, IsPageLoad);
    CountAppend(a, b, IsLinkCheck);
    FilterAppend(a, b, IsLinkCheck);
  }

  lemma LoadTestsKinds(pages: seq<PageRecord>)
    ensures Count(PageLoadTests(pages), IsPageLoad) == |pages|
    ensures Filter(PageLoadTests(pages), IsLinkCheck) == []
  {
    var a := PageLoadTests(pages);
    assert forall i :: 0 <= i < |a| ==> IsPageLoad(a[i]) && !IsLinkCheck(a[i]);
    CountUniform(a, IsPageLoad);
    CountUniform(a, IsLinkCheck);
  }

  lemma LinkTestsKinds(pages: seq<PageRecord>)
    ensures Count(LinkCheckTests(pages), IsPageLoad) == 0
    ensures Filter(LinkCheckTests(pages), IsLinkCheck) == LinkCheckTests(pages)
  {
    var b := LinkCheckTests(pages);
    assert forall i :: 0 <= i < |b| ==> IsLinkCheck(b[i]) && !IsPageLoad(b[i]);
    CountUniform(b, IsPageLoad);
    FilterAll(b, IsLinkCheck);
  }

  lemma {:induction false} FilterAll<T>(xs: seq<T>, p: T -> bool)
    requires forall i :: 0 <= i < |xs| ==> p(xs[i])
    ensures Filter(xs, p) == xs
    decreases |xs|
  {
    if |xs| > 0 {
      assert Filter(xs, p) == [xs[0]] + Filter(xs[1..], p) by {
        assert p(xs[0]);
      }
      forall i | 0 <= i < |xs[1..]| ensures p(xs[1..][i]) {
        assert xs[1..][i] == xs[i + 1];
      }
      FilterAll(xs[1..], p);
      assert [xs[0]] + xs[1..] == xs;
    }
  }

  predicate IsHttp(h: string) { StartsWith(h, "http") }

  function Same(h: string): string { h }

  /** The links a broken-link test checks: `[...new Set(hrefs starting
      with 'http')].slice(0, 20)`. */
  function LinkTargets(hrefs: seq<string>): (r: seq<string>)
    ensures |r| <= 20 && Distinct(r)
    ensures forall i :: 0 <= i < |r| ==> IsHttp(r[i]) && r[i] in hrefs
  {
    var unique := DedupBy(Filter(hrefs, IsHttp), Same);
    assert forall i :: 0 <= i < |unique| ==> unique[i] in Filter(hrefs, IsHttp) by {
      SubsequenceMembers(unique, Filter(hrefs, IsHttp));
    }
    Prefix(unique, 20)
  }

  /** The links checked are the first 20 distinct "http" hrefs in order of
      first appearance: they keep that order, and any such href left out
      appears after the 20th kept one. */
  lemma LinkTargetsFirst(hrefs: seq<string>)
    ensures var http := Filter(hrefs, IsHttp);
            var r := LinkTargets(hrefs);
            KeyOrdered(r, http, Same)
            && forall h :: h in http && h !in r ==>
                 |r| == 20 && IndexOfKey(http, Same, r[19]) < IndexOfKey(http, Same, h)
  {
    var http := Filter(hrefs, IsHttp);
    DedupFromOrdered(http, Same, {});
    FirstOfOrdered(http, DedupBy(http, Same), 20);
  }

  /** The first `n` of an ordering of all keys of `xs` keep that order, and a
      key left out comes after the last one kept. */
  lemma FirstOfOrdered(xs: seq<string>, unique: seq<string>, n: nat)
    requires n > 0
    requires KeyOrdered(unique, xs, Same)
    requires KeySet(unique, Same) == KeySet(xs, Same)
    ensures var r := Prefix(unique, n);
            KeyOrdered(r, xs, Same)
            && forall h :: h in xs && h !in r ==>
                 |r| == n && IndexOfKey(xs, Same, r[n - 1]) < IndexOfKey(xs, Same, h)
  {
    var r := Prefix(unique, n);
    forall h | h in xs && h !in r
      ensures |r| == n && IndexOfKey(xs, Same, r[n - 1]) < IndexOfKey(xs, Same, h)
    {
      var k :| 0 <= k < |xs| && xs[k] == h;
      assert Same(xs[k]) in KeySet(xs, Same);
      assert h in KeySet(unique, Same);
      var m :| 0 <= m < |unique| && Same(unique[m]) == h;
      assert unique[m] == h;
      assert m >= |r|;
      assert r[n - 1] == unique[n - 1];
    }
  }

  /** The links reported broken: those answering with status 400 or more;
      unreachable links (None) are skipped. The test passes exactly when
      there are none. */
  function BrokenLinks(targets: seq<string>, status: string -> Option<int>): (r: seq<string>)
    ensures forall i :: 0 <= i < |r| ==> r[i] in targets && status(r[i]).Some? && status(r[i]).value >= 400
    ensures forall x :: x in targets && status(x).Some? && status(x).value >= 400 ==> x in r
  {
    if |targets| == 0 then []
    else
      var rest := BrokenLinks(targets[1..], status);
      var t := targets[0];
      if status(t).Some? && status(t).value >= 400 then [t] + rest else rest
  }

  // -------------------------------------------------------------- APIs

  /** `generateApiTests`: nothing for no endpoints; otherwise one test per
      endpoint, calling `request.<method in lower case>` with the auth
      headers. */
  function GenerateApiTests(apis: seq<ApiRecord>, auth: Option<string>): (r: Option<SpecFile>)
    ensures r.None? <==> |apis| == 0
    ensures r.Some? ==> r.value.suite == "API Tests" && r.value.timeoutMs == 30000
    ensures r.Some? ==> |r.value.tests| == |apis|
                        && forall i :: 0 <= i < |apis| ==>
                             r.value.tests[i].ApiResponds? && r.value.tests[i].url == apis[i].url
                             && r.value.tests[i].call == Lower(apis[i].httpMethod)
                             && r.value.tests[i].auth == auth
  {
    if |apis| == 0 then None else Some(SpecFile("API Tests", 30000, ApiTests(apis, auth)))
  }

  function ApiTests(apis: seq<ApiRecord>, auth: Option<string>): (r: seq<TemplateTest>)
    ensures |r| == |apis|
    ensures forall i :: 0 <= i < |r| ==> r[i] == ApiResponds(apis[i].httpMethod, Lower(apis[i].httpMethod), apis[i].url, auth)
  {
    if |apis| == 0 then [] else [ApiResponds(apis[0].httpMethod, Lower(apis[0].httpMethod), apis[0].url, auth)] + ApiTests(apis[1..], auth)
  }

  /** What an API test asserts: no server error, an answer within five
      seconds, and parseable JSON when the content type says JSON. */
  predicate ApiTestPasses(status: int, elapsedMs: int, contentType: string, bodyParses: bool) {
    status < 500 && elapsedMs < 5000 && (Contains(contentType, "json") ==> bodyParses)
  }

  // ---------------------------------------------------------- security

  predicate IsGet(a: ApiRecord) { a.httpMethod == "GET" }
  predicate NeedsAuth(a: ApiRecord) { a.requiresAuth }
  predicate HasForms(p: PageRecord) { p.hasForms }

  const InjectionPayload := "id=1' OR '1'='1"

  /** The injected URL: the payload joined with '&' when the URL already
      has a '?', with '?' otherwise. */
  function InjectionUrl(url: string): (r: string)
    ensures StartsWith(r, url) && EndsWith(r, InjectionPayload)
    ensures |r| == |url| + 1 + |InjectionPayload|
    ensures r[|url|] == (if Contains(url, "?") then '&' else '?')
  {
    var r := url + (if Contains(url, "?") then "&" else "?") + InjectionPayload;
    assert r[..|url|] == url;
    assert r[|r| - |InjectionPayload|..] == InjectionPayload;
    r
  }

  function UnauthTests(apis: seq<ApiRecord>): (r: seq<TemplateTest>)
    ensures |r| == |apis|
    ensures forall i :: 0 <= i < |r| ==> r[i] == UnauthDenied(apis[i].httpMethod, Lower(apis[i].httpMethod), apis[i].url)
  {
    if |apis| == 0 then []
    else [UnauthDenied(apis[0].httpMethod, Lower(apis[0].httpMethod), apis[0].url)] + UnauthTests(apis[1..])
  }

  function InjectionTests(apis: seq<ApiRecord>): (r: seq<TemplateTest>)
    ensures |r| == |apis|
    ensures forall i :: 0 <= i < |r| ==> r[i] == SqlInjectionRejected(apis[i].url, InjectionUrl(apis[i].url))
  {
    if |apis| == 0 then []
    else [SqlInjectionRejected(apis[0].url, InjectionUrl(apis[0].url))] + InjectionTests(apis[1..])
  }

  function XssTests(pages: seq<PageRecord>): (r: seq<TemplateTest>)
    ensures |r| == |pages|
    ensures forall i :: 0 <= i < |r| ==> r[i] == XssNotReflected(pages[i].url)
  {
    if |pages| == 0 then [] else [XssNotReflected(pages[0].url)] + XssTests(pages[1..])
  }

  /** `generateSecurityTests`: an unauthenticated-access test for every
      endpoint that requires auth, an injection test for each of the first
      ten GET endpoints, an XSS test for each of the first five pages with
      forms, and always the security header test, last; so a file is
      always produced. */
  function GenerateSecurityTests(pages: seq<PageRecord>, apis: seq<ApiRecord>, baseUrl: string): (r: Option<SpecFile>)
    ensures r.Some? && r.value.suite == "Security Tests" && r.value.timeoutMs == 30000
    ensures |r.value.tests| == Count(apis, NeedsAuth) + Min(Count(apis, IsGet), 10) + Min(Count(pages, HasForms), 5) + 1
    ensures r.value.tests[|r.value.tests| - 1] == SecurityHeadersPresent(baseUrl)
  {
    var tests := UnauthTests(Filter(apis, NeedsAuth))
                 + InjectionTests(Prefix(Filter(apis, IsGet), 10))
                 + XssTests(Prefix(Filter(pages, HasForms), 5))
                 + [SecurityHeadersPresent(baseUrl)];
    Some(SpecFile("Security Tests", 30000, tests))
  }

  /** The order of the security tests: first the unauthenticated-access
      tests for the endpoints requiring auth, then the injection tests for
      the first ten GET endpoints, then the XSS tests for the first five
      pages with forms, each block in record order. */
  lemma SecurityTestLayout(pages: seq<PageRecord>, apis: seq<ApiRecord>, baseUrl: string)
    ensures var ts := GenerateSecurityTests(pages, apis, baseUrl).value.tests;
            var auth, gets, forms := Filter(apis, NeedsAuth), Filter(apis, IsGet), Filter(pages, HasForms);
            (forall i :: 0 <= i < |auth| ==>
               ts[i] == UnauthDenied(auth[i].httpMethod, Lower(auth[i].httpMethod), auth[i].url))
            && (forall i :: 0 <= i < Min(|gets|, 10) ==>
                  ts[|auth| + i] == SqlInjectionRejected(gets[i].url, InjectionUrl(gets[i].url)))
            && (forall i :: 0 <= i < Min(|forms|, 5) ==>
                  ts[|auth| + Min(|gets|, 10) + i] == XssNotReflected(forms[i].url))
  {
    SecurityUnauthBlock(pages, apis, baseUrl);
    SecurityInjectionBlock(pages, apis, baseUrl);
    SecurityXssBlock(pages, apis, baseUrl);
  }

  lemma SecurityUnauthBlock(pages: seq<PageRecord>, apis: seq<ApiRecord>, baseUrl: string)
    ensures var ts := GenerateSecurityTests(pages, apis, baseUrl).value.tests;
            var auth := Filter(apis, NeedsAuth);
            forall i :: 0 <= i < |auth| ==>
              ts[i] == UnauthDenied(auth[i].httpMethod, Lower(auth[i].httpMethod), auth[i].url)
  {
    var auth := Filter(apis, NeedsAuth);
    var u, j, x := UnauthTests(auth), InjectionTests(Prefix(Filter(apis, IsGet), 10)), XssTests(Prefix(Filter(pages, HasForms), 5));
    var ts := GenerateSecurityTests(pages, apis, baseUrl).value.tests;
    assert ts == u + j + x + [SecurityHeadersPresent(baseUrl)];
    assert forall i :: 0 <= i < |u| ==> ts[i] == u[i];
  }

  lemma SecurityInjectionBlock(pages: seq<PageRecord>, apis: seq<ApiRecord>, baseUrl: string)
    ensures var ts := GenerateSecurityTests(pages, apis, baseUrl).value.tests;
            var auth, gets := Filter(apis, NeedsAuth), Filter(apis, IsGet);
            forall i :: 0 <= i < Min(|gets|, 10) ==>
              ts[|auth| + i] == SqlInjectionRejected(gets[i].url, InjectionUrl(gets[i].url))
  {
    var auth, gets := Filter(apis, NeedsAuth), Filter(apis, IsGet);
    var u, j, x := UnauthTests(auth), InjectionTests(Prefix(gets, 10)), XssTests(Prefix(Filter(pages, HasForms), 5));
    var ts := GenerateSecurityTests(pages, apis, baseUrl).value.tests;
    assert ts == u + j + x + [SecurityHeadersPresent(baseUrl)];
    assert |u| == |auth| && |j| == Min(|gets|, 10);
    forall i | 0 <= i < Min(|gets|, 10)
      ensures ts[|auth| + i] == SqlInjectionRejected(gets[i].url, InjectionUrl(gets[i].url))
    {
      assert Prefix(gets, 10)[i] == gets[i];
      assert ts[|u| + i] == j[i];
    }
  }

  lemma SecurityXssBlock(pages: seq<PageRecord>, apis: seq<ApiRecord>, baseUrl: string)
    ensures var ts := GenerateSecurityTests(pages, apis, baseUrl).value.tests;
            var auth, gets, forms := Filter(apis, NeedsAuth), Filter(apis, IsGet), Filter(pages, HasForms);
            forall i :: 0 <= i < Min(|forms|, 5) ==>
              ts[|auth| + Min(|gets|, 10) + i] == XssNotReflected(forms[i].url)
  {
    var forms := Filter(pages, HasForms);
    var u, j, x := UnauthTests(Filter(apis, NeedsAuth)), InjectionTests(Prefix(Filter(apis, IsGet), 10)), XssTests(Prefix(forms, 5));
    var ts := GenerateSecurityTests(pages, apis, baseUrl).value.tests;
    assert ts == u + j + x + [SecurityHeadersPresent(baseUrl)];
    assert |u| + |j| == |Filter(apis, NeedsAuth)| + Min(|Filter(apis, IsGet)|, 10);
    forall i | 0 <= i < Min(|forms|, 5)
      ensures ts[|u| + |j| + i] == XssNotReflected(forms[i].url)
    {
      assert Prefix(forms, 5)[i] == forms[i];
      assert ts[|u| + |j| + i] == x[i];
    }
  }

  /** The unauthenticated-access tests are exactly those for the endpoints
      that require auth. */
  lemma SecurityUnauthTargets(pages: seq<PageRecord>, apis: seq<ApiRecord>, baseUrl: string)
    ensures var ts := GenerateSecurityTests(pages, apis, baseUrl).value.tests;
            (forall a :: a in apis && a.requiresAuth ==> UnauthDenied(a.httpMethod, Lower(a.httpMethod), a.url) in ts)
            && (forall t :: t in ts && t.UnauthDenied? ==>
                  exists a :: a in apis && a.requiresAuth && t == UnauthDenied(a.httpMethod, Lower(a.httpMethod), a.url))
  {
    var auth := Filter(apis, NeedsAuth);
    var u, j, x := UnauthTests(auth), InjectionTests(Prefix(Filter(apis, IsGet), 10)), XssTests(Prefix(Filter(pages, HasForms), 5));
    var ts := GenerateSecurityTests(pages, apis, baseUrl).value.tests;
    assert ts == u + j + x + [SecurityHeadersPresent(baseUrl)];
    forall a | a in apis && a.requiresAuth
      ensures UnauthDenied(a.httpMethod, Lower(a.httpMethod), a.url) in ts
    {
      var i :| 0 <= i < |auth| && auth[i] == a;
      assert u[i] in ts;
    }
    UnauthFromFront(auth, j, x, SecurityHeadersPresent(baseUrl));
  }

  /** In a test list that starts with the unauthenticated-access tests of
      `auth` and has none after them, each such test is for a record of
      `auth`. */
  lemma UnauthFromFront(auth: seq<ApiRecord>, j: seq<TemplateTest>, x: seq<TemplateTest>, h: TemplateTest)
    requires forall m :: 0 <= m < |j| ==> !j[m].UnauthDenied?
    requires forall m :: 0 <= m < |x| ==> !x[m].UnauthDenied?
    requires !h.UnauthDenied?
    ensures forall t :: t in UnauthTests(auth) + j + x + [h] && t.UnauthDenied? ==>
              exists a :: a in auth && t == UnauthDenied(a.httpMethod, Lower(a.httpMethod), a.url)
  {
    var u := UnauthTests(auth);
    forall t | t in u + j + x + [h] && t.UnauthDenied?
      ensures exists a :: a in auth && t == UnauthDenied(a.httpMethod, Lower(a.httpMethod), a.url)
    {
      assert t in u;
      var k :| 0 <= k < |u| && u[k] == t;
      assert auth[k] in auth;
    }
  }

  /** Every injection test is for a GET endpoint, with that endpoint's
      injected URL, and every XSS test for a page with forms. */
  lemma SecurityProbeTargets(pages: seq<PageRecord>, apis: seq<ApiRecord>, baseUrl: string)
    ensures var ts := GenerateSecurityTests(pages, apis, baseUrl).value.tests;
            (forall t :: t in ts && t.SqlInjectionRejected? ==>
               exists a :: a in apis && a.httpMethod == "GET" && t == SqlInjectionRejected(a.url, InjectionUrl(a.url)))
            && (forall t :: t in ts && t.XssNotReflected? ==> exists p :: p in pages && p.hasForms && t.url == p.url)
  {
    var gets, forms := Prefix(Filter(apis, IsGet), 10), Prefix(Filter(pages, HasForms), 5);
    var u, j, x := UnauthTests(Filter(apis, NeedsAuth)), InjectionTests(gets), XssTests(forms);
    var ts := GenerateSecurityTests(pages, apis, baseUrl).value.tests;
    assert ts == u + j + x + [SecurityHeadersPresent(baseUrl)];
    InjectionFromMiddle(u, gets, x, SecurityHeadersPresent(baseUrl));
    XssFromThird(u, j, forms, SecurityHeadersPresent(baseUrl));
    assert forall a :: a in gets ==> a in Filter(apis, IsGet);
    assert forall p :: p in forms ==> p in Filter(pages, HasForms);
  }

  /** In a test list whose injection tests are all those of `gets`, each is
      for a record of `gets`. */
  lemma InjectionFromMiddle(u: seq<TemplateTest>, gets: seq<ApiRecord>, x: seq<TemplateTest>, h: TemplateTest)
    requires forall m :: 0 <= m < |u| ==> !u[m].SqlInjectionRejected?
    requires forall m :: 0 <= m < |x| ==> !x[m].SqlInjectionRejected?
    requires !h.SqlInjectionRejected?
    ensures forall t :: t in u + InjectionTests(gets) + x + [h] && t.SqlInjectionRejected? ==>
              exists a :: a in gets && t == SqlInjectionRejected(a.url, InjectionUrl(a.url))
  {
    var j := InjectionTests(gets);
    forall t | t in u + j + x + [h] && t.SqlInjectionRejected?
      ensures exists a :: a in gets && t == SqlInjectionRejected(a.url, InjectionUrl(a.url))
    {
      assert t in j;
      var k :| 0 <= k < |j| && j[k] == t;
      assert gets[k] in gets;
    }
  }

  /** In a test list whose XSS tests are all those of `forms`, each is for
      a page of `forms`. */
  lemma XssFromThird(u: seq<TemplateTest>, j: seq<TemplateTest>, forms: seq<PageRecord>, h: TemplateTest)
    requires forall m :: 0 <= m < |u| ==> !u[m].XssNotReflected?
    requires forall m :: 0 <= m < |j| ==> !j[m].XssNotReflected?
    requires !h.XssNotReflected?
    ensures forall t :: t in u + j + XssTests(forms) + [h] && t.XssNotReflected? ==>
              exists p :: p in forms && t.url == p.url
  {
    var x := XssTests(forms);
    forall t | t in u + j + x + [h] && t.XssNotReflected?
      ensures exists p :: p in forms && t.url == p.url
    {
      assert t in x;
      var k :| 0 <= k < |x| && x[k] == t;
      assert forms[k] in forms;
    }
  }

  /** What an unauthenticated-access test asserts: the answer is 401 or
      403. */
  predicate UnauthTestPasses(status: int) {
    status == 401 || status == 403
  }

  /** The security header check: a message for missing framing protection
      (neither X-Frame-Options nor a CSP) and one for a missing
      X-Content-Type-Options. A header counts only when present and
      non-empty. */
  function HeaderIssues(headers: map<string, string>): (r: seq<string>)
    ensures |r| <= 2
    ensures |r| == 0 <==> ((HasHeader(headers, "x-frame-options") || HasHeader(headers, "content-security-policy"))
                           && HasHeader(headers, "x-content-type-options"))
  {
    (if !HasHeader(headers, "x-frame-options") && !HasHeader(headers, "content-security-policy")
     then ["Missing X-Frame-Options or CSP frame-ancestors"] else [])
    + (if !HasHeader(headers, "x-content-type-options") then ["Missing X-Content-Type-Options"] else [])
  }

  predicate HasHeader(headers: map<string, string>, name: string) {
    name in headers && headers[name] != ""
  }

  /** The header test asserts at most two issues, and there are never
      more: it cannot fail, whatever the headers. */
  predicate HeaderTestPasses(headers: map<string, string>) {
    |HeaderIssues(headers)| <= 2
  }

  /** The injection test fails when the lower-cased body mentions SQL. Its
      four checks reduce to two, because "mysql" and "sqlite" contain
      "sql". */
  predicate InjectionTestPasses(body: string) {
    var b := Lower(body);
    !Contains(b, "sql") && !Contains(b, "syntax error") && !Contains(b, "mysql") && !Contains(b, "sqlite")
  }

  lemma InjectionChecksReduce(body: string)
    ensures InjectionTestPasses(body) <==> !Contains(Lower(body), "sql") && !Contains(Lower(body), "syntax error")
  {
    var b := Lower(body);
    if Contains(b, "mysql") {
      ContainsIff(b, "mysql");
      var k: nat :| OccursAt(b, "mysql", k);
      assert b[k + 2..k + 5] == "mysql"[2..5];
      OccurrenceContains(b, "sql", k + 2);
    }
    if Contains(b, "sqlite") {
      ContainsIff(b, "sqlite");
      var k: nat :| OccursAt(b, "sqlite", k);
      assert b[k..k + 3] == "sqlite"[..3];
      OccurrenceContains(b, "sql", k);
    }
  }

  // ------------------------------------------------------------- forms

  predicate IsRequired(f: FormField) { f.required }

  /** `fi.type === 'email' || /email/i.test(fi.name)`. */
  predicate IsEmailField(f: FormField) {
    f.fieldType == "email" || ContainsCI(f.name, "email")
  }

  /** The first field satisfying `IsEmailField` (`fields.find`). */
  function FindEmailField(fields: seq<FormField>): (r: Option<FormField>)
    ensures r.Some? ==> r.value in fields && IsEmailField(r.value)
    ensures r.None? <==> forall i :: 0 <= i < |fields| ==> !IsEmailField(fields[i])
    ensures r.Some? ==> exists i :: 0 <= i < |fields| && fields[i] == r.value
                                    && forall j :: 0 <= j < i ==> !IsEmailField(fields[j])
  {
    if |fields| == 0 then None
    else if IsEmailField(fields[0]) then Some(fields[0])
    else
      var r := FindEmailField(fields[1..]);
      assert r.Some? ==> exists i :: 0 <= i < |fields| && fields[i] == r.value
                                    && forall j :: 0 <= j < i ==> !IsEmailField(fields[j]) by {
        if r.Some? {
          var i :| 0 <= i < |fields[1..]| && fields[1..][i] == r.value
                   && forall j :: 0 <= j < i ==> !IsEmailField(fields[1..][j]);
          assert fields[i + 1] == r.value;
          assert forall j :: 0 <= j < i + 1 ==> !IsEmailField(fields[j]) by {
            forall j | 0 <= j < i + 1 ensures !IsEmailField(fields[j]) {
              if j > 0 { assert fields[j] == fields[1..][j - 1]; }
            }
          }
        }
      }
      r
  }

  /** The email input's selector: by id when it has one, else by name. */
  function EmailSelector(f: FormField): (r: string)
    ensures f.id != "" ==> r == "#" + f.id
    ensures f.id == "" ==> r == "input[name=\"" + f.name + "\"]"
  {
    if f.id != "" then "#" + f.id else "input[name=\"" + f.name + "\"]"
  }

  /** `Form #<index + 1> on <page>`. */
  function FormName(index: nat, pageUrl: string): string {
    "Form #" + NatToString(index + 1) + " on " + pageUrl
  }

  /** Form names are unambiguous: the number and the page can be read back,
      so two forms share a name only when they are the same form of the
      same page. */
  lemma FormNameInjective(i: nat, p: string, j: nat, q: string)
    ensures FormName(i, p) == FormName(j, q) ==> i == j && p == q
  {
    var a, b := NatToString(i + 1), NatToString(j + 1);
    if FormName(i, p) == FormName(j, q) {
      var s := FormName(i, p);
      assert s == "Form #" + a + " on " + p == "Form #" + b + " on " + q;
      assert s[6 + |a|] == ' ' && forall m :: 0 <= m < |a| ==> s[6 + m] == a[m];
      assert s[6 + |b|] == ' ' && forall m :: 0 <= m < |b| ==> s[6 + m] == b[m];
      assert |a| == |b|;
      assert a == s[6..6 + |a|] == b;
      assert p == s[10 + |a|..] == q;
    }
  }

  /** The subtests of the form at `index`: none when its fields do not
      decode or are empty; the empty-required test when some field is
      required (this needs the page URL's path, and an unparseable page URL
      throws); the invalid-email test when some field looks like email. */
  function FormSubtests(form: FormRecord, index: nat, pathname: string -> Option<string>): (r: Result<seq<TemplateTest>>)
    ensures r.Err? <==> form.fields.Encoded? && Count(form.fields.fields, IsRequired) > 0
                        && pathname(form.pageUrl).None?
    ensures r.Err? ==> r.msg == "TypeError: Invalid URL"
    ensures r.Ok? ==> |r.value| <= 2
    ensures r.Ok? && form.fields.Encoded? ==>
              (|r.value| > 0 && r.value[0].EmptyRequiredRejected? <==> Count(form.fields.fields, IsRequired) > 0)
              && (|r.value| > 0 && r.value[|r.value| - 1].InvalidEmailRejected? <==> FindEmailField(form.fields.fields).Some?)
    ensures r.Ok? ==> forall i :: 0 <= i < |r.value| ==>
              (r.value[i].EmptyRequiredRejected? || r.value[i].InvalidEmailRejected?)
              && r.value[i].formName == FormName(index, form.pageUrl) && r.value[i].pageUrl == form.pageUrl
    ensures r.Ok? && |r.value| > 0 && r.value[0].EmptyRequiredRejected? ==>
              pathname(form.pageUrl).Some? && r.value[0].path == pathname(form.pageUrl).value
    ensures r.Ok? && |r.value| > 0 && r.value[|r.value| - 1].InvalidEmailRejected? ==>
              form.fields.Encoded? && FindEmailField(form.fields.fields).Some?
              && r.value[|r.value| - 1].selector == EmailSelector(FindEmailField(form.fields.fields).value)
    ensures form.fields.Unparseable? ==> r == Ok([])
  {
    match form.fields
    case Unparseable(_) => Ok([])
    case Encoded(fields) =>
      var name := FormName(index, form.pageUrl);
      var email := FindEmailField(fields);
      var emailTest := if email.Some? then [InvalidEmailRejected(name, form.pageUrl, EmailSelector(email.value))] else [];
      if |fields| == 0 then Ok([])
      else if Count(fields, IsRequired) > 0 then
        match pathname(form.pageUrl)
        case None => Err("TypeError: Invalid URL")
        case Some(path) => Ok([EmptyRequiredRejected(name, form.pageUrl, path)] + emailTest)
      else Ok(emailTest)
  }

  /** The subtests of `forms[from..]`, the form at position `from` being
      number `from + 1`; the first failure aborts. */
  function FormTestsFrom(forms: seq<FormRecord>, from: nat, pathname: string -> Option<string>): (r: Result<seq<TemplateTest>>)
    requires from <= |forms|
    ensures r.Ok? <==> forall k :: from <= k < |forms| ==> FormSubtests(forms[k], k, pathname).Ok?
    ensures r.Ok? ==> |r.value| <= 2 * (|forms| - from)
    ensures r == Ok([]) <==> forall k :: from <= k < |forms| ==> FormSubtests(forms[k], k, pathname) == Ok([])
    decreases |forms| - from
  {
    if from == |forms| then Ok([])
    else
      match FormSubtests(forms[from], from, pathname)
      case Err(e) => Err(e)
      case Ok(ts) =>
        match FormTestsFrom(forms, from + 1, pathname)
        case Err(e) => Err(e)
        case Ok(rest) => Ok(ts + rest)
  }

  /** The tests come grouped by form, in form order: those of the forms
      before `k` precede those of the forms from `k` on. */
  lemma {:induction false} FormTestsSplit(forms: seq<FormRecord>, from: nat, k: nat, pathname: string -> Option<string>)
    requires from <= k <= |forms|
    ensures FormTestsFrom(forms, from, pathname).Ok? ==>
              FormTestsFrom(forms[..k], from, pathname).Ok? && FormTestsFrom(forms, k, pathname).Ok?
              && FormTestsFrom(forms, from, pathname).value
                 == FormTestsFrom(forms[..k], from, pathname).value + FormTestsFrom(forms, k, pathname).value
  {
    if FormTestsFrom(forms, from, pathname).Ok? {
      FormTestsSplitOk(forms, from, k, pathname);
      FormTestsSplitValue(forms, from, k, pathname);
    }
  }

  lemma FormTestsSplitOk(forms: seq<FormRecord>, from: nat, k: nat, pathname: string -> Option<string>)
    requires from <= k <= |forms|
    requires FormTestsFrom(forms, from, pathname).Ok?
    ensures FormTestsFrom(forms[..k], from, pathname).Ok? && FormTestsFrom(forms, k, pathname).Ok?
  {
    assert forall j :: from <= j < k ==> forms[..k][j] == forms[j];
  }

  lemma {:induction false} FormTestsSplitValue(forms: seq<FormRecord>, from: nat, k: nat, pathname: string -> Option<string>)
    requires from <= k <= |forms|
    requires FormTestsFrom(forms, from, pathname).Ok? && FormTestsFrom(forms[..k], from, pathname).Ok?
    requires FormTestsFrom(forms, k, pathname).Ok?
    ensures FormTestsFrom(forms, from, pathname).value
            == FormTestsFrom(forms[..k], from, pathname).value + FormTestsFrom(forms, k, pathname).value
    decreases k - from
  {
    if from < k {
      var rest := FormTestsFrom(forms, from + 1, pathname);
      var front := FormTestsFrom(forms[..k], from + 1, pathname);
      var head := FormSubtests(forms[from], from, pathname).value;
      var back := FormTestsFrom(forms, k, pathname).value;
      assert forms[..k][from] == forms[from];
      assert rest.Ok? && front.Ok?;
      FormTestsSplitValue(forms, from + 1, k, pathname);
      calc {
        FormTestsFrom(forms, from, pathname).value;
        head + rest.value;
        head + (front.value + back);
        { Seqs.ConcatAssoc(head, front.value, back); }
        (head + front.value) + back;
        FormTestsFrom(forms[..k], from, pathname).value + back;
      }
    }
  }

  /** Form `k`'s own subtests sit between those of the forms before it and
      those of the forms after it. */
  lemma FormTestsGrouped(forms: seq<FormRecord>, k: nat, pathname: string -> Option<string>)
    requires k < |forms|
    ensures FormTestsFrom(forms, 0, pathname).Ok? ==>
              FormTestsFrom(forms[..k], 0, pathname).Ok? && FormSubtests(forms[k], k, pathname).Ok?
              && FormTestsFrom(forms, k + 1, pathname).Ok?
              && FormTestsFrom(forms, 0, pathname).value
                 == FormTestsFrom(forms[..k], 0, pathname).value + FormSubtests(forms[k], k, pathname).value
                    + FormTestsFrom(forms, k + 1, pathname).value
  {
    FormTestsSplit(forms, 0, k, pathname);
    if FormTestsFrom(forms, 0, pathname).Ok? {
      Seqs.ConcatAssoc(FormTestsFrom(forms[..k], 0, pathname).value, FormSubtests(forms[k], k, pathname).value,
                       FormTestsFrom(forms, k + 1, pathname).value);
    }
  }

  /** `generateFormTests`: nothing when there are no forms or no form
      yields a subtest. */
  function GenerateFormTests(forms: seq<FormRecord>, pathname: string -> Option<string>): (r: Result<Option<SpecFile>>)
    ensures r.Ok? <==> forall k :: 0 <= k < |forms| ==> FormSubtests(forms[k], k, pathname).Ok?
    ensures r == Ok(None) <==> forall k :: 0 <= k < |forms| ==> FormSubtests(forms[k], k, pathname) == Ok([])
    ensures r.Ok? && r.value.Some? ==>
              r.value.value.suite == "Form Tests" && r.value.value.timeoutMs == 30000
              && 0 < |r.value.value.tests| <= 2 * |forms|
              && r.value.value.tests == FormTestsFrom(forms, 0, pathname).value
  {
    if |forms| == 0 then Ok(None)
    else
      match FormTestsFrom(forms, 0, pathname)
      case Err(e) => Err(e)
      case Ok(tests) => if |tests| == 0 then Ok(None) else Ok(Some(SpecFile("Form Tests", 30000, tests)))
  }

  /** A form with undecodable or no fields contributes nothing. */
  lemma FormWithoutFieldsSilent(form: FormRecord, index: nat, pathname: string -> Option<string>)
    requires form.fields.Unparseable? || form.fields.fields == []
    ensures FormSubtests(form, index, pathname) == Ok([])
  {
  }

  // -------------------------------------------------------------- load

  /** A load-test endpoint. */
  datatype Endpoint = PageEndpoint(url: string) | ApiEndpoint(httpMethod: string, url: string)

  function PageEndpoints(pages: seq<PageRecord>): (r: seq<Endpoint>)
    ensures |r| == |pages| && forall i :: 0 <= i < |r| ==> r[i] == PageEndpoint(pages[i].url)
  {
    if |pages| == 0 then [] else [PageEndpoint(pages[0].url)] + PageEndpoints(pages[1..])
  }

  function ApiEndpoints(apis: seq<ApiRecord>): (r: seq<Endpoint>)
    ensures |r| == |apis| && forall i :: 0 <= i < |r| ==> r[i] == ApiEndpoint(apis[i].httpMethod, apis[i].url)
  {
    if |apis| == 0 then [] else [ApiEndpoint(apis[0].httpMethod, apis[0].url)] + ApiEndpoints(apis[1..])
  }

  /** The endpoints: the first ten pages, then the first ten GET APIs. */
  function LoadEndpoints(pages: seq<PageRecord>, apis: seq<ApiRecord>): (r: seq<Endpoint>)
    ensures |r| == Min(|pages|, 10) + Min(Count(apis, IsGet), 10) && |r| <= 20
    ensures forall i :: 0 <= i < Min(|pages|, 10) ==> r[i] == PageEndpoint(pages[i].url)
    ensures forall i :: 0 <= i < Min(Count(apis, IsGet), 10) ==>
              r[Min(|pages|, 10) + i] == ApiEndpoint(Filter(apis, IsGet)[i].httpMethod, Filter(apis, IsGet)[i].url)
    ensures forall i :: Min(|pages|, 10) <= i < |r| ==> r[i].ApiEndpoint? && r[i].httpMethod == "GET"
  {
    var all := Filter(apis, IsGet);
    var ps, gets := Prefix(pages, 10), Prefix(all, 10);
    var a, b := PageEndpoints(ps), ApiEndpoints(gets);
    assert |a| == Min(|pages|, 10) && |b| == Min(Count(apis, IsGet), 10);
    var r := a + b;
    assert forall i :: 0 <= i < |a| ==> r[i] == a[i];
    assert forall i :: 0 <= i < |b| ==> r[|a| + i] == b[i];
    forall i | 0 <= i < |gets|
      ensures b[i] == ApiEndpoint(all[i].httpMethod, all[i].url) && b[i].httpMethod == "GET"
    {
      assert gets[i] == all[i];
      assert gets[i] in all;
    }
    r
  }

  /** The URLs of the endpoints of one kind, in order. */
  function EndpointUrls(eps: seq<Endpoint>, wantPages: bool): (r: seq<string>)
    ensures |r| <= |eps|
  {
    if |eps| == 0 then []
    else (if eps[0].PageEndpoint? == wantPages then [eps[0].url] else []) + EndpointUrls(eps[1..], wantPages)
  }

  lemma {:induction false} EndpointUrlsAppend(a: seq<Endpoint>, b: seq<Endpoint>, wantPages: bool)
    ensures EndpointUrls(a + b, wantPages) == EndpointUrls(a, wantPages) + EndpointUrls(b, wantPages)
    decreases |a|
  {
    if |a| == 0 {
      assert a + b == b;
    } else {
      var h := if a[0].PageEndpoint? == wantPages then [a[0].url] else [];
      assert (a + b)[0] == a[0] && (a + b)[1..] == a[1..] + b;
      EndpointUrlsAppend(a[1..], b, wantPages);
      Seqs.ConcatAssoc(h, EndpointUrls(a[1..], wantPages), EndpointUrls(b, wantPages));
    }
  }

  /** Page endpoints give their URLs to the page list and nothing to the
      API list. */
  lemma {:induction false} PageEndpointUrls(pages: seq<PageRecord>)
    ensures var u := EndpointUrls(PageEndpoints(pages), true);
            |u| == |pages| && forall i :: 0 <= i < |pages| ==> u[i] == pages[i].url
    ensures EndpointUrls(PageEndpoints(pages), false) == []
    decreases |pages|
  {
    if |pages| > 0 {
      var eps := PageEndpoints(pages);
      assert eps[1..] == PageEndpoints(pages[1..]);
      PageEndpointUrls(pages[1..]);
    }
  }

  /** API endpoints give their URLs to the API list and nothing to the
      page list. */
  lemma {:induction false} ApiEndpointUrls(apis: seq<ApiRecord>)
    ensures var u := EndpointUrls(ApiEndpoints(apis), false);
            |u| == |apis| && forall i :: 0 <= i < |apis| ==> u[i] == apis[i].url
    ensures EndpointUrls(ApiEndpoints(apis), true) == []
    decreases |apis|
  {
    if |apis| > 0 {
      var eps := ApiEndpoints(apis);
      assert eps[1..] == ApiEndpoints(apis[1..]);
      ApiEndpointUrls(apis[1..]);
    }
  }

  const DefaultConcurrency := 3

  /** `generateLoadTests`: nothing without endpoints; otherwise exactly two
      tests, concurrent page loads and concurrent API requests, both with
      the given concurrency. */
  function GenerateLoadTests(pages: seq<PageRecord>, apis: seq<ApiRecord>, concurrency: int): (r: Option<SpecFile>)
    ensures r.None? <==> |pages| == 0 && Count(apis, IsGet) == 0
    ensures r.Some? ==> |r.value.tests| == 2 && r.value.suite == "Load Tests" && r.value.timeoutMs == 120000
                        && r.value.tests[0].ConcurrentPageLoads? && r.value.tests[1].ConcurrentApiRequests?
                        && r.value.tests[0].concurrency == concurrency && r.value.tests[1].concurrency == concurrency
  {
    var eps := LoadEndpoints(pages, apis);
    if |eps| == 0 then None
    else Some(SpecFile("Load Tests", 120000,
                       [ConcurrentPageLoads(concurrency, EndpointUrls(eps, true)),
                        ConcurrentApiRequests(concurrency, EndpointUrls(eps, false))]))
  }

  /** The load tests' URLs: the page loads go over the first ten pages'
      URLs and the API requests over the first ten GET endpoints' URLs, in
      crawl order. */
  lemma LoadTestUrls(pages: seq<PageRecord>, apis: seq<ApiRecord>, concurrency: int)
    requires GenerateLoadTests(pages, apis, concurrency).Some?
    ensures var urls := GenerateLoadTests(pages, apis, concurrency).value.tests[0].urls;
            |urls| == Min(|pages|, 10) && forall i :: 0 <= i < |urls| ==> urls[i] == pages[i].url
    ensures var urls := GenerateLoadTests(pages, apis, concurrency).value.tests[1].urls;
            |urls| == Min(Count(apis, IsGet), 10)
            && forall i :: 0 <= i < |urls| ==> urls[i] == Filter(apis, IsGet)[i].url
  {
    var ps, gets := Prefix(pages, 10), Prefix(Filter(apis, IsGet), 10);
    assert LoadEndpoints(pages, apis) == PageEndpoints(ps) + ApiEndpoints(gets);
    SplitEndpointUrls(ps, gets);
  }

  /** Page endpoints then API endpoints: the page URLs and the API URLs
      come apart again. */
  lemma SplitEndpointUrls(ps: seq<PageRecord>, gets: seq<ApiRecord>)
    ensures var u := EndpointUrls(PageEndpoints(ps) + ApiEndpoints(gets), true);
            |u| == |ps| && forall i :: 0 <= i < |ps| ==> u[i] == ps[i].url
    ensures var u := EndpointUrls(PageEndpoints(ps) + ApiEndpoints(gets), false);
            |u| == |gets| && forall i :: 0 <= i < |gets| ==> u[i] == gets[i].url
  {
    EndpointUrlsAppend(PageEndpoints(ps), ApiEndpoints(gets), true);
    EndpointUrlsAppend(PageEndpoints(ps), ApiEndpoints(gets), false);
    PageEndpointUrls(ps);
    ApiEndpointUrls(gets);
  }

  /** What a load test asserts: fewer than 20% of the requests failed or
      hit a server error, and the 95th percentile time is under ten
      seconds. `errors < results * 0.2` is `5 * errors < results` on
      integers. */
  predicate LoadTestPasses(errors: nat, results: nat, p95: int) {
    5 * errors < results && p95 < 10000
  }

  /** A load test that made no requests fails (0 < 0 * 0.2 is false); this
      happens when the concurrency is zero. */
  lemma LoadTestNeedsResults(errors: nat, p95: int)
    ensures !LoadTestPasses(errors, 0, p95)
  {
  }
}
