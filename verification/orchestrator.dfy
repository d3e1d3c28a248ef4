/** The scan pipeline (engine/discovery-orchestrator.js, `runDiscovery`):
    authenticate, intercept, crawl, analyse every page, probe the common
    API paths, classify, store, and report progress as server-sent events.
    The browser, the network and the login endpoint are the environment's
    answers; the database is the `stored` rows and the final scan status. */
module Orchestrator {
  import opened Wrappers
  import opened Text
  import opened Seqs
  import opened Json
  import opened Urls
  import opened Records
  import opened Crawler
  import opened ApiInterceptor
  import opened FormDetector
  import opened AuthDetector
  import opened Classifier
  import opened DiscoveryAuth

  /** The scanned target: its base URL as configured and as parsed, its
      auth type, and its auth configuration after `JSON.parse` (an error
      when it does not parse). */
  datatype Target = Target(baseUrl: string, base: RawUrl, authType: string, authConfig: Result<Json>)

  /** What the browser shows when the analysis pass revisits a page: the
      forms and the auth view (None where the DOM query throws). */
  datatype PageView = PageView(forms: Option<seq<FormEl>>, auth: Option<AuthView>)

  /** The environment of one scan. `analysis(url)` is None when navigating
      to `url` throws; `responses` are those observed while the interceptor
      listens. */
  datatype Env = Env(
    launchError: Option<string>,
    login: string -> Result<Json>,
    authError: seq<AuthAction> -> Option<string>,
    site: string -> Navigation,
    responses: seq<Response>,
    analysis: string -> Option<PageView>,
    probe: string -> ProbeOutcome,
    closeError: Option<string>)

  datatype Stats = Stats(pages: nat, apis: nat, forms: nat, authPages: nat)

  /** The server-sent events of a scan. */
  datatype Event =
    | Progress(percent: int, message: string)
    | PageEvent(url: string, status: int)
    | ApiEvent(httpMethod: string, url: string)
    | FormEvent(pageUrl: string, action: string)
    | Done(stats: Stats)
    | ErrorEvent(message: string)

  /** The rows written for a scan. */
  datatype Stored = Stored(pages: seq<PageRecord>, apis: seq<ApiRecord>, forms: seq<FormRecord>)

  /** The scan row's status: untouched, 'done' with stats, or 'error'. */
  datatype ScanStatus = Running | Finished(stats: Stats) | Failed(message: string)

  /** Everything a scan leaves behind; `thrown` is the error it rethrows. */
  datatype Outcome = Outcome(events: seq<Event>, authPlan: seq<AuthAction>, stored: Stored,
                             status: ScanStatus, thrown: Option<string>)

  const NoRows := Stored([], [], [])

  /** `target.auth_type || 'none'`. */
  function AuthTypeOf(t: Target): (r: string)
    ensures r != ""
    ensures t.authType != "" ==> r == t.authType
  {
    if t.authType == "" then "none" else t.authType
  }

  /** The stats reported for the stored rows. */
  function StatsOf(s: Stored): (st: Stats)
    ensures st.pages == |s.pages| && st.apis == |s.apis| && st.forms == |s.forms|
    ensures st.authPages == |Filter(s.pages, (p: PageRecord) => p.isAuthPage)|
    ensures st.authPages <= st.pages
  {
    Stats(|s.pages|, |s.apis|, |s.forms|, Count(s.pages, (p: PageRecord) => p.isAuthPage))
  }

  /** `Math.round(i / n * 20)` on exact rationals: floor(20i/n + 1/2). */
  function RoundedShare(i: nat, n: nat): nat
    requires n > 0
  {
    (40 * i + n) / (2 * n)
  }

  /** The percentage reported after analysing page `i` of `n`. */
  function AnalysisPercent(i: nat, n: nat): int
    requires n > 0
  {
    50 + RoundedShare(i, n)
  }

  lemma MulMonotone(x: int, y: int, d: int)
    requires d > 0 && x <= y
    ensures d * x <= d * y
  {
    assert d * y - d * x == d * (y - x);
  }

  lemma MulCancel(x: int, y: int, d: int)
    requires d > 0 && d * x < d * y
    ensures x < y
  {
    if x >= y {
      MulMonotone(y, x, d);
    }
  }

  lemma DivMonotone(a: nat, b: nat, d: nat)
    requires a <= b && d > 0
    ensures a / d <= b / d
  {
    var qa := a / d;
    var qb := b / d;
    assert d * qa + a % d == a;
    assert d * qb + b % d == b;
    assert d * (qa - qb) < d * 1 by {
      assert d * (qa - qb) == d * qa - d * qb;
    }
    MulCancel(qa - qb, 1, d);
  }

  /** Later pages report no smaller a share. */
  lemma RoundedShareMonotone(i: nat, j: nat, n: nat)
    requires i <= j && n > 0
    ensures RoundedShare(i, n) <= RoundedShare(j, n)
  {
    DivMonotone(40 * i + n, 40 * j + n, 2 * n);
  }

  /** Before the last page the rounded share never exceeds 20. */
  lemma RoundedShareBound(i: nat, n: nat)
    requires i < n
    ensures RoundedShare(i, n) <= 20
  {
    var x := 40 * i + n;
    var y := 2 * n;
    var q := x / y;
    assert y * q + x % y == x;
    assert y * q < y * 21;
    MulCancel(q, 21, y);
  }

  function AnalyzingMessage(i: nat, n: nat): string {
    "Analyzing page " + NatToString(i + 1) + "/" + NatToString(n) + "..."
  }

  /** The progress event after analysing page `i`, when `i` is a
      multiple of 5. */
  function AnalysisStep(i: nat, n: nat): seq<Event>
    requires i < n
  {
    if i % 5 == 0 then [Progress(AnalysisPercent(i, n), AnalyzingMessage(i, n))] else []
  }

  /** The progress events of the analysis loop from page `i` on. */
  function AnalysisEvents(i: nat, n: nat): seq<Event>
    decreases n - i
  {
    if i >= n then [] else AnalysisStep(i, n) + AnalysisEvents(i + 1, n)
  }

  /** Progress percentages never decrease along `evs`. */
  predicate ProgressOrdered(evs: seq<Event>) {
    forall i, j :: 0 <= i < j < |evs| && evs[i].Progress? && evs[j].Progress? ==> evs[i].percent <= evs[j].percent
  }

  /** Every progress percentage of `evs` lies in [lo, hi]. */
  predicate ProgressWithin(evs: seq<Event>, lo: int, hi: int) {
    forall i :: 0 <= i < |evs| && evs[i].Progress? ==> lo <= evs[i].percent <= hi
  }

  /** Two ordered blocks separated by `m` make an ordered whole. */
  lemma OrderedConcat(a: seq<Event>, b: seq<Event>, lo: int, m: int, hi: int)
    requires ProgressOrdered(a) && ProgressOrdered(b)
    requires lo <= m <= hi
    requires ProgressWithin(a, lo, m) && ProgressWithin(b, m, hi)
    ensures ProgressOrdered(a + b) && ProgressWithin(a + b, lo, hi)
  {
    var ab := a + b;
    forall i, j | 0 <= i < j < |ab| && ab[i].Progress? && ab[j].Progress?
      ensures ab[i].percent <= ab[j].percent
    {
      if j < |a| {
        assert ab[i] == a[i] && ab[j] == a[j];
      } else if i >= |a| {
        assert ab[i] == b[i - |a|] && ab[j] == b[j - |a|];
      } else {
        assert ab[i] == a[i] && ab[j] == b[j - |a|];
      }
    }
    forall i | 0 <= i < |ab| && ab[i].Progress? ensures lo <= ab[i].percent <= hi {
      if i < |a| {
        assert ab[i] == a[i];
      } else {
        assert ab[i] == b[i - |a|];
      }
    }
  }

  /** One step's event carries the step's percentage. */
  lemma AnalysisStepOrdered(i: nat, n: nat)
    requires i < n
    ensures ProgressOrdered(AnalysisStep(i, n))
    ensures ProgressWithin(AnalysisStep(i, n), AnalysisPercent(i, n), AnalysisPercent(i, n))
  {
  }

  /** The analysis loop's progress from page `i` on is ordered and lies
      between the percentage at `i` and 70. */
  lemma {:induction false} AnalysisEventsOrdered(i: nat, n: nat)
    requires i < n
    ensures ProgressOrdered(AnalysisEvents(i, n))
    ensures ProgressWithin(AnalysisEvents(i, n), AnalysisPercent(i, n), 70)
    decreases n - i
  {
    if i + 1 < n {
      AnalysisEventsOrdered(i + 1, n);
      AnalysisStepJoin(i, n);
    } else {
      AnalysisLastStep(i, n);
    }
  }

  /** Page `i` followed by an ordered rest that starts at page `i + 1`'s
      percentage. */
  lemma AnalysisStepJoin(i: nat, n: nat)
    requires i + 1 < n
    requires ProgressOrdered(AnalysisEvents(i + 1, n))
    requires ProgressWithin(AnalysisEvents(i + 1, n), AnalysisPercent(i + 1, n), 70)
    ensures ProgressOrdered(AnalysisEvents(i, n))
    ensures ProgressWithin(AnalysisEvents(i, n), AnalysisPercent(i, n), 70)
  {
    var head := AnalysisStep(i, n);
    var rest := AnalysisEvents(i + 1, n);
    assert AnalysisEvents(i, n) == head + rest;
    AnalysisStepOrdered(i, n);
    RoundedShareMonotone(i, i + 1, n);
    RoundedShareBound(i + 1, n);
    OrderedConcat(head, rest, AnalysisPercent(i, n), AnalysisPercent(i + 1, n), 70);
  }

  /** The last page alone. */
  lemma AnalysisLastStep(i: nat, n: nat)
    requires i + 1 == n
    ensures ProgressOrdered(AnalysisEvents(i, n))
    ensures ProgressWithin(AnalysisEvents(i, n), AnalysisPercent(i, n), 70)
  {
    var head := AnalysisStep(i, n);
    var rest := AnalysisEvents(i + 1, n);
    assert rest == [];
    assert AnalysisEvents(i, n) == head + rest;
    AnalysisStepOrdered(i, n);
    RoundedShareBound(i, n);
    NoProgress(rest, 70, 70);
    OrderedConcat(head, rest, AnalysisPercent(i, n), 70, 70);
  }

  /** The analysis loop's progress lies in [50, 70] and never decreases. */
  lemma AnalysisProgress(n: nat)
    ensures ProgressOrdered(AnalysisEvents(0, n)) && ProgressWithin(AnalysisEvents(0, n), 50, 70)
  {
    if n > 0 {
      AnalysisEventsOrdered(0, n);
    }
  }

  /** One page of the analysis loop: a page that cannot be revisited is
      left as crawled; otherwise its forms are collected, `has_forms` is
      set when there are any (never cleared) and `is_auth_page` is the
      detector's verdict. */
  function AnalyzePage(p: PageRecord, view: Option<PageView>): (r: (PageRecord, seq<FormRecord>))
    ensures view.None? ==> r == (p, [])
    ensures r.0.(hasForms := p.hasForms, isAuthPage := p.isAuthPage) == p
    ensures view.Some? ==> r.0.hasForms == (p.hasForms || |r.1| > 0)
                           && r.0.isAuthPage == DetectAuthPage(view.value.auth)
    ensures forall f :: f in r.1 ==> f.pageUrl == p.url
  {
    match view
    case None => (p, [])
    case Some(v) =>
      var forms := DetectForms(v.forms, p.url);
      (p.(hasForms := p.hasForms || |forms| > 0, isAuthPage := DetectAuthPage(v.auth)), forms)
  }

  /** The analysis loop over all crawled pages: the updated pages and every
      form found, page by page. */
  function AnalyzeAll(pages: seq<PageRecord>, analysis: string -> Option<PageView>): (r: (seq<PageRecord>, seq<FormRecord>))
    ensures |r.0| == |pages|
    ensures forall i :: 0 <= i < |pages| ==> r.0[i] == AnalyzePage(pages[i], analysis(pages[i].url)).0
    ensures forall f :: f in r.1 ==> exists i :: 0 <= i < |pages| && f in AnalyzePage(pages[i], analysis(pages[i].url)).1
    decreases |pages|
  {
    if |pages| == 0 then ([], [])
    else
      var head := AnalyzePage(pages[0], analysis(pages[0].url));
      var rest := AnalyzeAll(pages[1..], analysis);
      var r := ([head.0] + rest.0, head.1 + rest.1);
      forall f | f in r.1 ensures exists i :: 0 <= i < |pages| && f in AnalyzePage(pages[i], analysis(pages[i].url)).1 {
        if f !in head.1 {
          var k :| 0 <= k < |pages[1..]| && f in AnalyzePage(pages[1..][k], analysis(pages[1..][k].url)).1;
          assert pages[1..][k] == pages[k + 1];
        }
      }
      r
  }

  function PageEvents(pages: seq<PageRecord>): seq<Event> {
    seq(|pages|, i requires 0 <= i < |pages| => PageEvent(pages[i].url, pages[i].statusCode))
  }

  function ApiEvents(apis: seq<ApiRecord>): seq<Event> {
    seq(|apis|, i requires 0 <= i < |apis| => ApiEvent(apis[i].httpMethod, apis[i].url))
  }

  function FormEvents(forms: seq<FormRecord>): seq<Event> {
    seq(|forms|, i requires 0 <= i < |forms| => FormEvent(forms[i].pageUrl, forms[i].action))
  }

  /** The endpoints of a scan: those captured while listening, deduplicated
      as `getCaptured` returns them, then the probed common paths. */
  function RawApis(origin: string, env: Env): seq<ApiRecord> {
    DeduplicateApis(Stop(OnResponses(Intercept(origin), env.responses)).captured) + ProbeCommonApis(origin, env.probe)
  }

  /** What is stored: the classified pages, endpoints and forms. */
  function StoredOf(origin: string, env: Env, analyzed: (seq<PageRecord>, seq<FormRecord>)): Stored {
    Stored(ClassifyPages(analyzed.0), ClassifyApis(RawApis(origin, env)), ClassifyForms(analyzed.1))
  }

  /** Events before the crawl. */
  const Launching := Progress(5, "Launching browser...")
  const Intercepting := Progress(10, "Starting API interceptor...")
  const Crawling := Progress(15, "Crawling pages...")
  const Opening: seq<Event> := [Launching, Intercepting, Crawling]

  /** The progress events from "Found N pages" to the classification. */
  function Middle(n: nat): seq<Event> {
    [Progress(50, "Found " + NatToString(n) + " pages. Detecting forms...")]
    + AnalysisEvents(0, n)
    + [Progress(75, "Probing common API paths..."), Progress(85, "Classifying and storing results...")]
  }

  /** One event per stored row, then `done`. */
  function RowEvents(rows: Stored): seq<Event> {
    PageEvents(rows.pages) + ApiEvents(rows.apis) + FormEvents(rows.forms) + [Done(StatsOf(rows))]
  }

  /** The events of a run that crawled `n` pages and stored `rows`. */
  function CompletedEvents(n: nat, rows: Stored): seq<Event> {
    Opening + Middle(n) + RowEvents(rows)
  }

  predicate IsPageEvent(e: Event) { e.PageEvent? }
  predicate IsApiEvent(e: Event) { e.ApiEvent? }
  predicate IsFormEvent(e: Event) { e.FormEvent? }

  /** A failure inside the try block: an `error` event, the scan row set
      to 'error', and the error rethrown. */
  function Fail(events: seq<Event>, plan: seq<AuthAction>, rows: Stored, message: string): (o: Outcome)
    requires WellOrdered(events)
    ensures WellOrdered(o.events)
    ensures o.events == events + [ErrorEvent(message)] && o.status == Failed(message)
    ensures o.thrown == Some(message) && o.stored == rows
  {
    ErrorKeepsOrder(events, message);
    Outcome(events + [ErrorEvent(message)], plan, rows, Failed(message), Some(message))
  }

  /** A well-formed event trace: it opens with progress 5, its progress
      percentages never decrease and stay within [5, 85]. */
  predicate WellOrdered(evs: seq<Event>) {
    |evs| > 0 && evs[0] == Launching && ProgressOrdered(evs) && ProgressWithin(evs, 5, 85)
  }

  lemma NoProgress(evs: seq<Event>, lo: int, hi: int)
    requires forall i :: 0 <= i < |evs| ==> !evs[i].Progress?
    ensures ProgressOrdered(evs) && ProgressWithin(evs, lo, hi)
  {
  }

  /** Appending an error event keeps a trace well ordered. */
  lemma ErrorKeepsOrder(evs: seq<Event>, m: string)
    requires WellOrdered(evs)
    ensures WellOrdered(evs + [ErrorEvent(m)])
  {
    NoProgress([ErrorEvent(m)], 85, 85);
    OrderedConcat(evs, [ErrorEvent(m)], 5, 85, 85);
  }

  /** The middle progress events lie in [50, 85] in order. */
  lemma MiddleOrdered(n: nat)
    ensures ProgressOrdered(Middle(n)) && ProgressWithin(Middle(n), 50, 85)
  {
    var found: seq<Event> := [Progress(50, "Found " + NatToString(n) + " pages. Detecting forms...")];
    var late: seq<Event> := [Progress(75, "Probing common API paths..."), Progress(85, "Classifying and storing results...")];
    AnalysisProgress(n);
    OrderedConcat(found, AnalysisEvents(0, n), 50, 50, 70);
    OrderedConcat(found + AnalysisEvents(0, n), late, 50, 70, 85);
  }

  /** The events of a completed run are well ordered. */
  lemma CompletedOrdered(n: nat, rows: Stored)
    ensures WellOrdered(CompletedEvents(n, rows))
  {
    var rest := RowEvents(rows);
    MiddleOrdered(n);
    NoProgress(rest, 85, 85);
    OrderedConcat(Opening, Middle(n), 5, 15, 85);
    OrderedConcat(Opening + Middle(n), rest, 5, 85, 85);
  }

  /** The analysis loop emits progress events only. */
  lemma {:induction false} AnalysisOnlyProgress(i: nat, n: nat)
    ensures forall k :: 0 <= k < |AnalysisEvents(i, n)| ==> AnalysisEvents(i, n)[k].Progress?
    decreases n - i
  {
    if i < n {
      AnalysisOnlyProgress(i + 1, n);
    }
  }

  /** Everything before the row events is progress. */
  lemma FrontCounts(n: nat)
    ensures Count(Opening + Middle(n), IsPageEvent) == 0
    ensures Count(Opening + Middle(n), IsApiEvent) == 0
    ensures Count(Opening + Middle(n), IsFormEvent) == 0
  {
    AnalysisOnlyProgress(0, n);
    var f := Opening + Middle(n);
    assert forall k :: 0 <= k < |f| ==> f[k].Progress?;
    CountUniform(f, IsPageEvent);
    CountUniform(f, IsApiEvent);
    CountUniform(f, IsFormEvent);
  }

  lemma PageEventsCounts(pages: seq<PageRecord>)
    ensures Count(PageEvents(pages), IsPageEvent) == |pages|
    ensures Count(PageEvents(pages), IsApiEvent) == 0 && Count(PageEvents(pages), IsFormEvent) == 0
  {
    CountUniform(PageEvents(pages), IsPageEvent);
    CountUniform(PageEvents(pages), IsApiEvent);
    CountUniform(PageEvents(pages), IsFormEvent);
  }

  lemma ApiEventsCounts(apis: seq<ApiRecord>)
    ensures Count(ApiEvents(apis), IsApiEvent) == |apis|
    ensures Count(ApiEvents(apis), IsPageEvent) == 0 && Count(ApiEvents(apis), IsFormEvent) == 0
  {
    CountUniform(ApiEvents(apis), IsPageEvent);
    CountUniform(ApiEvents(apis), IsApiEvent);
    CountUniform(ApiEvents(apis), IsFormEvent);
  }

  lemma FormEventsCounts(forms: seq<FormRecord>)
    ensures Count(FormEvents(forms), IsFormEvent) == |forms|
    ensures Count(FormEvents(forms), IsPageEvent) == 0 && Count(FormEvents(forms), IsApiEvent) == 0
  {
    CountUniform(FormEvents(forms), IsPageEvent);
    CountUniform(FormEvents(forms), IsApiEvent);
    CountUniform(FormEvents(forms), IsFormEvent);
  }

  lemma DoneCounts(st: Stats)
    ensures Count([Done(st)], IsPageEvent) == 0 && Count([Done(st)], IsApiEvent) == 0
    ensures Count([Done(st)], IsFormEvent) == 0
  {
    CountUniform([Done(st)], IsPageEvent);
    CountUniform([Done(st)], IsApiEvent);
    CountUniform([Done(st)], IsFormEvent);
  }

  /** Counting over a run's events block by block. */
  lemma CountBlocks(n: nat, rows: Stored, p: Event -> bool)
    ensures Count(CompletedEvents(n, rows), p)
            == Count(Opening + Middle(n), p) + Count(PageEvents(rows.pages), p) + Count(ApiEvents(rows.apis), p)
               + Count(FormEvents(rows.forms), p) + Count([Done(StatsOf(rows))], p)
  {
    var pe, ae, fe, dn := PageEvents(rows.pages), ApiEvents(rows.apis), FormEvents(rows.forms), [Done(StatsOf(rows))];
    CountAppend(Opening + Middle(n), RowEvents(rows), p);
    CountAppend(pe + ae + fe, dn, p);
    CountAppend(pe + ae, fe, p);
    CountAppend(pe, ae, p);
  }

  /** One `page`, `api` and `form` event per stored page, endpoint and
      form. */
  lemma EventCounts(n: nat, rows: Stored)
    ensures Count(CompletedEvents(n, rows), IsPageEvent) == |rows.pages|
    ensures Count(CompletedEvents(n, rows), IsApiEvent) == |rows.apis|
    ensures Count(CompletedEvents(n, rows), IsFormEvent) == |rows.forms|
  {
    FrontCounts(n);
    PageEventsCounts(rows.pages);
    ApiEventsCounts(rows.apis);
    FormEventsCounts(rows.forms);
    DoneCounts(StatsOf(rows));
    CountBlocks(n, rows, IsPageEvent);
    CountBlocks(n, rows, IsApiEvent);
    CountBlocks(n, rows, IsFormEvent);
  }

  /** The stage reached before the crawl: a failure, or the performed
      auth plan and the parsed base URL. */
  datatype Stage = Stopped(outcome: Outcome) | Ready(plan: seq<AuthAction>, base: Url)

  /** Launch, authenticate, start the interceptor. Every failure here
      reports an `error` event after the progress reached so far. */
  function BeforeCrawl(t: Target, env: Env, config: Json): (s: Stage)
    ensures s.Stopped? ==> WellOrdered(s.outcome.events) && s.outcome.thrown.Some?
                           && s.outcome.events[|s.outcome.events| - 1] == ErrorEvent(s.outcome.thrown.value)
                           && s.outcome.status == Failed(s.outcome.thrown.value) && s.outcome.stored == NoRows
    ensures s.Ready? ==> t.base == Parsed(s.base)
                         && Ok(s.plan) == Authenticate(t.baseUrl, t.base, AuthTypeOf(t), config, env.login)
                         && env.launchError.None? && env.authError(s.plan).None?
    ensures env.launchError.Some? ==> s == Stopped(Fail([Launching], [], NoRows, env.launchError.value))
  {
    assert WellOrdered([Launching]);
    if env.launchError.Some? then Stopped(Fail([Launching], [], NoRows, env.launchError.value))
    else
      match Authenticate(t.baseUrl, t.base, AuthTypeOf(t), config, env.login)
      case Err(m) => Stopped(Fail([Launching], [], NoRows, m))
      case Ok(plan) =>
        if env.authError(plan).Some? then Stopped(Fail([Launching], plan, NoRows, env.authError(plan).value))
        else
          match t.base
          case Malformed(_) =>
            OrderedConcat([Launching], [Intercepting], 5, 5, 10);
            assert [Launching] + [Intercepting] == [Launching, Intercepting];
            Stopped(Fail([Launching, Intercepting], plan, NoRows, "Invalid URL"))
          case Parsed(u) => Ready(plan, u)
  }

  /** Reporting and finishing a run that crawled `n` pages and stored
      `rows`: a failing browser close turns the finished scan into an
      error after `done`. */
  function Report(n: nat, rows: Stored, plan: seq<AuthAction>, closeError: Option<string>): (o: Outcome)
    ensures WellOrdered(o.events) && o.stored == rows && o.authPlan == plan
    ensures o.thrown == closeError
    ensures o.thrown.None? ==> o.status == Finished(StatsOf(rows)) && o.events[|o.events| - 1] == Done(StatsOf(rows))
    ensures o.thrown.Some? ==> o.events[|o.events| - 1] == ErrorEvent(o.thrown.value)
                               && o.events[|o.events| - 2] == Done(StatsOf(rows))
                               && o.status == Failed(o.thrown.value)
    ensures o.thrown.None? ==> Count(o.events, IsPageEvent) == |rows.pages|
                               && Count(o.events, IsApiEvent) == |rows.apis|
                               && Count(o.events, IsFormEvent) == |rows.forms|
  {
    var events := CompletedEvents(n, rows);
    CompletedOrdered(n, rows);
    EventCounts(n, rows);
    match closeError
    case Some(m) => Fail(events, plan, rows, m)
    case None => Outcome(events, plan, rows, Finished(StatsOf(rows)), None)
  }

  /** The run after the crawl returned `raw`: analyse, probe, classify,
      store, report. */
  function AfterCrawl(origin: string, env: Env, plan: seq<AuthAction>, raw: seq<PageRecord>): Outcome {
    Report(|raw|, StoredOf(origin, env, AnalyzeAll(raw, env.analysis)), plan, env.closeError)
  }

  /** The crawl's URLs are distinct, so classification stores every
      analysed page, in crawl order: at most the crawl's bound, distinct,
      and on the crawled origin. */
  lemma StoredPages(origin: string, env: Env, raw: seq<PageRecord>)
    requires |raw| <= 100
    requires forall i, j :: 0 <= i < j < |raw| ==> raw[i].url != raw[j].url
    requires forall i :: 0 <= i < |raw| ==> StartsWith(raw[i].url, origin)
    ensures var pages := StoredOf(origin, env, AnalyzeAll(raw, env.analysis)).pages;
            pages == AnalyzeAll(raw, env.analysis).0
            && |pages| <= 100
            && (forall i, j :: 0 <= i < j < |pages| ==> pages[i].url != pages[j].url)
            && (forall i :: 0 <= i < |pages| ==> StartsWith(pages[i].url, origin))
  {
    var analyzed := AnalyzeAll(raw, env.analysis).0;
    assert forall i :: 0 <= i < |raw| ==> analyzed[i].url == raw[i].url;
    DedupFromDistinct(analyzed, PageKey, {});
  }

  /** `runDiscovery`. A configuration that does not parse throws before
      anything is reported; every later failure emits an `error` event,
      marks the scan 'error' and is rethrown; a successful run stores the
      classified rows and reports their counts with `done`. The crawl is
      bounded to depth 3 and 100 pages, and every stored page is one of the
      crawled same-origin pages after analysis. */
  method RunDiscovery(t: Target, env: Env) returns (o: Outcome)
    ensures t.authConfig.Err? ==> o == Outcome([], [], NoRows, Running, Some(t.authConfig.msg))
    ensures t.authConfig.Ok? ==> WellOrdered(o.events)
    ensures t.authConfig.Ok? && o.thrown.Some? ==>
              o.events[|o.events| - 1] == ErrorEvent(o.thrown.value) && o.status == Failed(o.thrown.value)
    ensures o.thrown.None? ==>
              o.status == Finished(StatsOf(o.stored)) && o.events[|o.events| - 1] == Done(StatsOf(o.stored))
              && Count(o.events, IsPageEvent) == |o.stored.pages|
              && Count(o.events, IsApiEvent) == |o.stored.apis|
              && Count(o.events, IsFormEvent) == |o.stored.forms|
    ensures o.thrown.None? ==>
              t.authConfig.Ok? && t.base.Parsed?
              && Ok(o.authPlan) == Authenticate(t.baseUrl, t.base, AuthTypeOf(t), t.authConfig.value, env.login)
              && o.stored.apis == ClassifyApis(RawApis(t.base.url.origin, env))
              && exists raw: seq<PageRecord> ::
                   o.stored == StoredOf(t.base.url.origin, env, AnalyzeAll(raw, env.analysis))
    ensures |o.stored.pages| <= 100
    ensures forall i, j :: 0 <= i < j < |o.stored.pages| ==> o.stored.pages[i].url != o.stored.pages[j].url
    ensures forall i :: 0 <= i < |o.stored.pages| ==>
              t.base.Parsed? && StartsWith(o.stored.pages[i].url, t.base.url.origin)
  {
    if t.authConfig.Err? {
      return Outcome([], [], NoRows, Running, Some(t.authConfig.msg));
    }
    var stage := BeforeCrawl(t, env, t.authConfig.value);
    if stage.Stopped? {
      return stage.outcome;
    }
    var raw;
    o, raw := CrawlStage(env, stage.base, stage.plan);
    assert o.stored == StoredOf(stage.base.origin, env, AnalyzeAll(raw, env.analysis));
  }

  /** The crawl to depth 3 and 100 pages and everything after it, for an
      authenticated run on `base`; `raw` is what the crawl recorded. */
  method CrawlStage(env: Env, base: Url, plan: seq<AuthAction>) returns (o: Outcome, raw: seq<PageRecord>)
    ensures o == AfterCrawl(base.origin, env, plan, raw)
    ensures |raw| <= 100
    ensures forall i :: 0 <= i < |raw| ==> StartsWith(raw[i].url, base.origin)
    ensures |o.stored.pages| <= 100
    ensures forall i, j :: 0 <= i < j < |o.stored.pages| ==> o.stored.pages[i].url != o.stored.pages[j].url
    ensures forall i :: 0 <= i < |o.stored.pages| ==> StartsWith(o.stored.pages[i].url, base.origin)
  {
    var depths;
    raw, depths := CrawlPages(env.site, base, 3, 100);
    StoredPages(base.origin, env, raw);
    o := AfterCrawl(base.origin, env, plan, raw);
  }
}
