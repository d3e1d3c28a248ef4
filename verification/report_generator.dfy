/** The summary report (helpers/report-generator.js): `generateReport`
    walks Playwright's JSON report and counts every result of every test of
    every spec, at every depth of the suite tree, into passed, failed and
    skipped, collecting the failures and the slow tests. The HTML page it
    writes from those counts is presentation and is not modelled. */
module ReportGenerator {
  import opened Wrappers
  import opened Text
  import opened Seqs
  import opened Json

  /** `for (const x of v || [])`: a missing or falsy value iterates
      nothing, an array its elements, a string its characters; anything
      else throws. */
  function Elements(v: Option<Json>): (r: Result<seq<Json>>)
    ensures !Present(v) ==> r == Ok([])
    ensures r.Err? <==> Present(v) && !v.value.JArr? && !v.value.JStr?
    ensures Present(v) && v.value.JArr? ==> r == Ok(v.value.items)
  {
    if !Present(v) then Ok([])
    else match v.value
      case JArr(items) => Ok(items)
      case JStr(s) => Ok(Chars(s))
      case _ => Err("is not iterable")
  }

  // ---------------------------------------------------------------------
  // The walk: which results are visited, in which order
  // ---------------------------------------------------------------------

  /** One visited result, with the spec and suite it belongs to. */
  datatype Visit = Visit(suite: Json, spec: Json, result: Json)

  /** The results visited so far, and the exception that stopped the walk,
      if any. */
  datatype Walk = Walk(visits: seq<Visit>, error: Option<string>)

  function Then(w: Walk, next: Walk): (r: Walk)
    ensures w.error.None? && next.error.None? ==> r.error.None? && |r.visits| == |w.visits| + |next.visits|
  {
    if w.error.Some? then w else Walk(w.visits + next.visits, next.error)
  }

  function Stop(e: string): Walk {
    Walk([], Some(e))
  }

  /** The results of one test. */
  function ResultVisits(suite: Json, spec: Json, results: seq<Json>): (r: seq<Visit>)
    ensures |r| == |results|
    ensures forall i :: 0 <= i < |results| ==> r[i] == Visit(suite, spec, results[i])
  {
    seq(|results|, i requires 0 <= i < |results| => Visit(suite, spec, results[i]))
  }

  /** `for (const test of spec.tests || [])`. */
  function WalkTests(suite: Json, spec: Json, tests: seq<Json>): Walk
    decreases |tests|
  {
    if |tests| == 0 then Walk([], None)
    else if tests[0].JNull? then Stop(NullRead("results"))
    else match Elements(Member(tests[0], "results"))
      case Err(e) => Stop(e)
      case Ok(results) => Then(Walk(ResultVisits(suite, spec, results), None), WalkTests(suite, spec, tests[1..]))
  }

  /** `for (const spec of suite.specs || [])`. */
  function WalkSpecs(suite: Json, specs: seq<Json>): Walk
    decreases |specs|
  {
    if |specs| == 0 then Walk([], None)
    else if specs[0].JNull? then Stop(NullRead("tests"))
    else match Elements(Member(specs[0], "tests"))
      case Err(e) => Stop(e)
      case Ok(tests) => Then(WalkTests(suite, specs[0], tests), WalkSpecs(suite, specs[1..]))
  }

  /** `walkSpecs(suite)`: the suite's own specs, then its child suites. */
  function WalkSuite(suite: Json): Walk
    decreases suite, 2
  {
    match suite
    case JNull => Stop(NullRead("specs"))
    case JObj(f) =>
      var own := match Elements(Member(suite, "specs"))
        case Err(e) => Stop(e)
        case Ok(specs) => WalkSpecs(suite, specs);
      var children := if "suites" in f && Truthy(f["suites"]) then WalkSuites(f["suites"]) else Walk([], None);
      Then(own, children)
    case _ => Walk([], None)
  }

  /** `for (const child of suites)` on a truthy value. A string iterates
      as characters, which have neither specs nor suites. */
  function WalkSuites(suites: Json): Walk
    decreases suites, 1
  {
    match suites
    case JArr(_) => WalkSuiteItems(suites, 0)
    case JStr(_) => Walk([], None)
    case _ => Stop("is not iterable")
  }

  function WalkSuiteItems(suites: Json, i: nat): Walk
    requires suites.JArr?
    decreases suites, 0, |suites.items| - i
  {
    if i >= |suites.items| then Walk([], None)
    else Then(WalkSuite(suites.items[i]), WalkSuiteItems(suites, i + 1))
  }

  /** The whole report: `raw.suites || []`. */
  function WalkReport(raw: Json): Walk {
    if raw.JNull? then Stop(NullRead("suites"))
    else
      var suites := Member(raw, "suites");
      if Present(suites) then WalkSuites(suites.value) else Walk([], None)
  }

  // ---------------------------------------------------------------------
  // Counting one result
  // ---------------------------------------------------------------------

  datatype Verdict = Passed | Failed | Skipped

  /** `passed` passes; `failed` and `timedOut` fail; anything else (a
      missing status included) is skipped. */
  function VerdictOf(result: Json): (v: Verdict)
    ensures v == Passed <==> Member(result, "status") == Some(JStr("passed"))
    ensures v == Failed <==> Member(result, "status") == Some(JStr("failed")) || Member(result, "status") == Some(JStr("timedOut"))
  {
    var status := Member(result, "status");
    if status == Some(JStr("passed")) then Passed
    else if status == Some(JStr("failed")) || status == Some(JStr("timedOut")) then Failed
    else Skipped
  }

  /** `result.duration || 0`. */
  function DurationOf(result: Json): (d: Json)
    ensures !Present(Member(result, "duration")) ==> d == JNum(0)
    ensures Present(Member(result, "duration")) ==> d == Member(result, "duration").value
  {
    var d := Member(result, "duration");
    if Present(d) then d.value else JNum(0)
  }

  const SlowThreshold: int := 3000

  /** `duration > 3000` for a numeric duration. */
  predicate IsSlow(duration: Json) {
    duration.JNum? && duration.n > SlowThreshold
  }

  const MaxFailureText: nat := 300

  /** `e.message || e.snippet || ''` for one entry of `result.errors`. */
  function ErrorEntry(e: Json): Result<string> {
    if e.JNull? then Err(NullRead("message"))
    else
      var message := Member(e, "message");
      var snippet := Member(e, "snippet");
      Ok(if Present(message) then ToJsString(message.value)
         else if Present(snippet) then ToJsString(snippet.value) else "")
  }

  /** `errors.map(e => e.message || e.snippet || '')`: entry i gives
      message i, and the first entry that throws stops the map. */
  function ErrorEntries(errors: seq<Json>): (r: Result<seq<string>>)
    ensures r.Ok? ==> |r.value| == |errors|
    ensures r.Ok? ==> forall i :: 0 <= i < |errors| ==> ErrorEntry(errors[i]) == Ok(r.value[i])
    ensures r.Err? <==> exists i :: 0 <= i < |errors| && ErrorEntry(errors[i]).Err?
    decreases |errors|
  {
    if |errors| == 0 then Ok([])
    else match ErrorEntry(errors[0])
      case Err(e) => Err(e)
      case Ok(m) =>
        match ErrorEntries(errors[1..])
        case Err(e) => Err(e)
        case Ok(rest) => Ok([m] + rest)
  }

  /** The failure text: the entries' messages joined by line feeds, cut to
      300 characters. Only arrays have `map`. */
  function FailureText(result: Json): (r: Result<string>)
    ensures r.Ok? ==> |r.value| <= MaxFailureText
    ensures !Present(Member(result, "errors")) ==> r == Ok("")
    ensures Present(Member(result, "errors")) ==>
              (r.Ok? <==> Member(result, "errors").value.JArr? && ErrorEntries(Member(result, "errors").value.items).Ok?)
    ensures r.Ok? && Present(Member(result, "errors")) ==>
              var all := Join(ErrorEntries(Member(result, "errors").value.items).value, "\n");
              StartsWith(all, r.value) && (|all| <= MaxFailureText ==> r.value == all)
  {
    var errors := Member(result, "errors");
    if !Present(errors) then Ok("")
    else if !errors.value.JArr? then Err("map is not a function")
    else match ErrorEntries(errors.value.items)
      case Err(e) => Err(e)
      case Ok(messages) => Ok(Take(Join(messages, "\n"), MaxFailureText))
  }

  datatype Failure = Failure(title: Option<Json>, file: Option<Json>, error: string)

  datatype SlowTest = SlowTest(title: Option<Json>, duration: Json)

  /** The counters and lists `generateReport` builds. */
  datatype Tally = Tally(total: nat, passed: nat, failed: nat, skipped: nat,
                         slow: seq<SlowTest>, failures: seq<Failure>)

  /** What the source promises of its counters: the three statuses
      partition the results, there is one failure per failed result, and
      every failure text fits the cut. */
  predicate Consistent(t: Tally) {
    t.total == t.passed + t.failed + t.skipped
    && |t.failures| == t.failed
    && forall f :: f in t.failures ==> |f.error| <= MaxFailureText
  }

  predicate IsPassedVisit(v: Visit) { VerdictOf(v.result) == Passed }
  predicate IsFailedVisit(v: Visit) { VerdictOf(v.result) == Failed }
  predicate IsSlowVisit(v: Visit) { IsSlow(DurationOf(v.result)) }

  /** The counters after one result. A null result throws reading its
      duration; a failure's errors can throw too. */
  function Step(v: Visit): (r: Result<Tally>)
    ensures r.Err? ==> v.result.JNull? || IsFailedVisit(v)
    ensures r.Ok? ==> Consistent(r.value) && r.value.total == 1
    ensures r.Ok? ==> r.value.passed == (if IsPassedVisit(v) then 1 else 0)
    ensures r.Ok? ==> r.value.failed == (if IsFailedVisit(v) then 1 else 0)
    ensures r.Ok? ==> |r.value.slow| == (if IsSlowVisit(v) then 1 else 0)
  {
    if v.result.JNull? then Err(NullRead("duration"))
    else
      var duration := DurationOf(v.result);
      var title := Member(v.spec, "title");
      var slow := if IsSlow(duration) then [SlowTest(title, duration)] else [];
      match VerdictOf(v.result)
      case Passed => Ok(Tally(1, 1, 0, 0, slow, []))
      case Skipped => Ok(Tally(1, 0, 0, 1, slow, []))
      case Failed =>
        match FailureText(v.result)
        case Err(e) => Err(e)
        case Ok(text) =>
          var file := Member(v.spec, "file");
          var source := if Present(file) then file else Member(v.suite, "title");
          Ok(Tally(1, 0, 1, 0, slow, [Failure(title, source, text)]))
  }

  function Add(a: Tally, b: Tally): (r: Tally)
    ensures Consistent(a) && Consistent(b) ==> Consistent(r)
  {
    Tally(a.total + b.total, a.passed + b.passed, a.failed + b.failed, a.skipped + b.skipped,
          a.slow + b.slow, a.failures + b.failures)
  }

  /** Counting the visited results in order; the first result that throws
      ends the report. */
  function TallyAll(visits: seq<Visit>): (r: Result<Tally>)
    ensures r.Ok? ==> Consistent(r.value) && r.value.total == |visits|
    decreases |visits|
  {
    if |visits| == 0 then Ok(Tally(0, 0, 0, 0, [], []))
    else
      match Step(visits[0])
      case Err(e) => Err(e)
      case Ok(t) =>
        match TallyAll(visits[1..])
        case Err(e) => Err(e)
        case Ok(u) =>
          assert Consistent(t) && Consistent(u) && t.total + u.total == |visits|;
          Ok(Add(t, u))
  }

  /** One step of counting: the first result adds one to the counter of
      its status, and to the slow list when it is slow. */
  lemma TallyAllUnfold(visits: seq<Visit>)
    requires |visits| > 0 && TallyAll(visits).Ok?
    ensures TallyAll(visits[1..]).Ok?
    ensures TallyAll(visits).value.passed
            == (if IsPassedVisit(visits[0]) then 1 else 0) + TallyAll(visits[1..]).value.passed
    ensures TallyAll(visits).value.failed
            == (if IsFailedVisit(visits[0]) then 1 else 0) + TallyAll(visits[1..]).value.failed
    ensures |TallyAll(visits).value.slow|
            == (if IsSlowVisit(visits[0]) then 1 else 0) + |TallyAll(visits[1..]).value.slow|
  {
    TallyAllIsAdd(visits);
  }

  lemma TallyAllIsAdd(visits: seq<Visit>)
    requires |visits| > 0 && TallyAll(visits).Ok?
    ensures Step(visits[0]).Ok? && TallyAll(visits[1..]).Ok?
    ensures TallyAll(visits).value == Add(Step(visits[0]).value, TallyAll(visits[1..]).value)
  {
  }

  /** The counters count the visited results by status, and the slow
      list holds one entry per slow result. */
  lemma TallyAllCounts(visits: seq<Visit>)
    requires TallyAll(visits).Ok?
    ensures TallyAll(visits).value.passed == Count(visits, IsPassedVisit)
    ensures TallyAll(visits).value.failed == Count(visits, IsFailedVisit)
    ensures |TallyAll(visits).value.slow| == Count(visits, IsSlowVisit)
  {
    PassedCounts(visits);
    FailedCounts(visits);
    SlowCounts(visits);
  }

  lemma {:induction false} PassedCounts(visits: seq<Visit>)
    requires TallyAll(visits).Ok?
    ensures TallyAll(visits).value.passed == Count(visits, IsPassedVisit)
    decreases |visits|
  {
    if |visits| > 0 {
      var b := if IsPassedVisit(visits[0]) then 1 else 0;
      calc {
        TallyAll(visits).value.passed;
        == { TallyAllUnfold(visits); }
        b + TallyAll(visits[1..]).value.passed;
        == { PassedCounts(visits[1..]); }
        b + Count(visits[1..], IsPassedVisit);
        ==
        Count(visits, IsPassedVisit);
      }
    }
  }

  lemma {:induction false} FailedCounts(visits: seq<Visit>)
    requires TallyAll(visits).Ok?
    ensures TallyAll(visits).value.failed == Count(visits, IsFailedVisit)
    decreases |visits|
  {
    if |visits| > 0 {
      var b := if IsFailedVisit(visits[0]) then 1 else 0;
      calc {
        TallyAll(visits).value.failed;
        == { TallyAllUnfold(visits); }
        b + TallyAll(visits[1..]).value.failed;
        == { FailedCounts(visits[1..]); }
        b + Count(visits[1..], IsFailedVisit);
        ==
        Count(visits, IsFailedVisit);
      }
    }
  }

  lemma {:induction false} SlowCounts(visits: seq<Visit>)
    requires TallyAll(visits).Ok?
    ensures |TallyAll(visits).value.slow| == Count(visits, IsSlowVisit)
    decreases |visits|
  {
    if |visits| > 0 {
      var b := if IsSlowVisit(visits[0]) then 1 else 0;
      calc {
        |TallyAll(visits).value.slow|;
        == { TallyAllUnfold(visits); }
        b + |TallyAll(visits[1..]).value.slow|;
        == { SlowCounts(visits[1..]); }
        b + Count(visits[1..], IsSlowVisit);
        ==
        Count(visits, IsSlowVisit);
      }
    }
  }

  /** Counting fails exactly when some visited result throws. */
  lemma {:induction false} TallyAllOk(visits: seq<Visit>)
    ensures TallyAll(visits).Ok? <==> forall v :: v in visits ==> Step(v).Ok?
    decreases |visits|
  {
    if |visits| > 0 {
      TallyAllOk(visits[1..]);
      assert forall v :: v in visits <==> v == visits[0] || v in visits[1..];
    }
  }

  /** `generateReport` up to the page it writes: a throw anywhere, whether
      while walking or while counting, is the error of the whole report. */
  function GenerateReport(raw: Json): (r: Result<Tally>)
    ensures r.Ok? ==> Consistent(r.value)
    ensures r.Ok? <==> WalkReport(raw).error.None? && TallyAll(WalkReport(raw).visits).Ok?
    ensures r.Ok? ==> r.value.total == |WalkReport(raw).visits|
  {
    var w := WalkReport(raw);
    match TallyAll(w.visits)
    case Err(e) => Err(e)
    case Ok(t) => if w.error.Some? then Err(w.error.value) else Ok(t)
  }

  // ---------------------------------------------------------------------
  // Every result is counted once
  // ---------------------------------------------------------------------

  /** An iterable list of the given elements: absent, or an array. */
  predicate ArrayOrAbsent(v: Option<Json>) {
    !Present(v) || v.value.JArr?
  }

  function ItemsOf(v: Option<Json>): seq<Json> {
    if Present(v) && v.value.JArr? then v.value.items else []
  }

  /** A result Playwright writes: an object whose `errors` are objects. */
  predicate WellFormedResult(result: Json) {
    result.JObj?
    && ArrayOrAbsent(Member(result, "errors"))
    && forall e :: e in ItemsOf(Member(result, "errors")) ==> e.JObj?
  }

  predicate WellFormedTest(test: Json) {
    test.JObj?
    && ArrayOrAbsent(Member(test, "results"))
    && forall r :: r in ItemsOf(Member(test, "results")) ==> WellFormedResult(r)
  }

  predicate WellFormedSpec(spec: Json) {
    spec.JObj?
    && ArrayOrAbsent(Member(spec, "tests"))
    && forall t :: t in ItemsOf(Member(spec, "tests")) ==> WellFormedTest(t)
  }

  predicate WellFormedSuite(suite: Json)
    decreases suite, 2
  {
    match suite
    case JObj(f) =>
      ArrayOrAbsent(Member(suite, "specs"))
      && (forall s :: s in ItemsOf(Member(suite, "specs")) ==> WellFormedSpec(s))
      && ("suites" in f && Truthy(f["suites"]) ==> WellFormedSuites(f["suites"]))
    case _ => false
  }

  predicate WellFormedSuites(suites: Json)
    decreases suites, 1
  {
    suites.JArr? && WellFormedSuiteItems(suites, 0)
  }

  predicate WellFormedSuiteItems(suites: Json, i: nat)
    requires suites.JArr?
    decreases suites, 0, |suites.items| - i
  {
    i >= |suites.items| || (WellFormedSuite(suites.items[i]) && WellFormedSuiteItems(suites, i + 1))
  }

  /** Playwright's report: an object whose `suites`, if any, are
      well-formed. */
  predicate WellFormedReport(raw: Json) {
    raw.JObj? && ("suites" in raw.fields && Truthy(raw.fields["suites"]) ==> WellFormedSuites(raw.fields["suites"]))
  }

  /** The number of results in the tree, counted level by level. */
  function TestResults(tests: seq<Json>): nat
    decreases |tests|
  {
    if |tests| == 0 then 0 else |ItemsOf(Member(tests[0], "results"))| + TestResults(tests[1..])
  }

  function SpecResults(specs: seq<Json>): nat
    decreases |specs|
  {
    if |specs| == 0 then 0 else TestResults(ItemsOf(Member(specs[0], "tests"))) + SpecResults(specs[1..])
  }

  function SuiteResults(suite: Json): nat
    decreases suite, 2
  {
    match suite
    case JObj(f) =>
      SpecResults(ItemsOf(Member(suite, "specs")))
      + (if "suites" in f && f["suites"].JArr? then SuiteItemsResults(f["suites"], 0) else 0)
    case _ => 0
  }

  function SuiteItemsResults(suites: Json, i: nat): nat
    requires suites.JArr?
    decreases suites, 0, |suites.items| - i
  {
    if i >= |suites.items| then 0 else SuiteResults(suites.items[i]) + SuiteItemsResults(suites, i + 1)
  }

  function ReportResults(raw: Json): nat {
    if raw.JObj? && "suites" in raw.fields && raw.fields["suites"].JArr?
    then SuiteItemsResults(raw.fields["suites"], 0) else 0
  }

  /** Every visited result of a well-formed report is well-formed. */
  predicate AllWellFormed(visits: seq<Visit>) {
    forall v :: v in visits ==> WellFormedResult(v.result)
  }

  lemma AllWellFormedAppend(a: seq<Visit>, b: seq<Visit>)
    requires AllWellFormed(a) && AllWellFormed(b)
    ensures AllWellFormed(a + b)
  {
  }

  lemma {:induction false} TestsVisited(suite: Json, spec: Json, tests: seq<Json>)
    requires forall t :: t in tests ==> WellFormedTest(t)
    ensures WalkTests(suite, spec, tests).error.None?
    ensures |WalkTests(suite, spec, tests).visits| == TestResults(tests)
    ensures AllWellFormed(WalkTests(suite, spec, tests).visits)
    decreases |tests|
  {
    if |tests| > 0 {
      assert tests[0] in tests;
      assert forall t :: t in tests[1..] ==> t in tests;
      TestsVisited(suite, spec, tests[1..]);
      var results := ItemsOf(Member(tests[0], "results"));
      var here := ResultVisits(suite, spec, results);
      assert forall v :: v in here ==> v.result in results;
      AllWellFormedAppend(here, WalkTests(suite, spec, tests[1..]).visits);
    }
  }

  lemma {:induction false} SpecsVisited(suite: Json, specs: seq<Json>)
    requires forall s :: s in specs ==> WellFormedSpec(s)
    ensures WalkSpecs(suite, specs).error.None?
    ensures |WalkSpecs(suite, specs).visits| == SpecResults(specs)
    ensures AllWellFormed(WalkSpecs(suite, specs).visits)
    decreases |specs|
  {
    if |specs| > 0 {
      assert specs[0] in specs;
      assert forall s :: s in specs[1..] ==> s in specs;
      SpecsVisited(suite, specs[1..]);
      TestsVisited(suite, specs[0], ItemsOf(Member(specs[0], "tests")));
      AllWellFormedAppend(WalkTests(suite, specs[0], ItemsOf(Member(specs[0], "tests"))).visits,
                          WalkSpecs(suite, specs[1..]).visits);
    }
  }

  lemma {:induction false} SuiteVisited(suite: Json)
    requires WellFormedSuite(suite)
    ensures WalkSuite(suite).error.None?
    ensures |WalkSuite(suite).visits| == SuiteResults(suite)
    ensures AllWellFormed(WalkSuite(suite).visits)
    decreases suite, 2
  {
    var f := suite.fields;
    var specs := ItemsOf(Member(suite, "specs"));
    SpecsVisited(suite, specs);
    if "suites" in f && Truthy(f["suites"]) {
      SuitesVisited(f["suites"], 0);
      AllWellFormedAppend(WalkSpecs(suite, specs).visits, WalkSuites(f["suites"]).visits);
    } else {
      assert WalkSpecs(suite, specs).visits + [] == WalkSpecs(suite, specs).visits;
    }
  }

  lemma {:induction false} SuitesVisited(suites: Json, i: nat)
    requires suites.JArr? && WellFormedSuiteItems(suites, i)
    ensures WalkSuiteItems(suites, i).error.None?
    ensures |WalkSuiteItems(suites, i).visits| == SuiteItemsResults(suites, i)
    ensures AllWellFormed(WalkSuiteItems(suites, i).visits)
    decreases suites, 0, |suites.items| - i
  {
    if i < |suites.items| {
      SuiteVisited(suites.items[i]);
      SuitesVisited(suites, i + 1);
      AllWellFormedAppend(WalkSuite(suites.items[i]).visits, WalkSuiteItems(suites, i + 1).visits);
    }
  }

  /** A well-formed result never throws while being counted. */
  lemma WellFormedStep(v: Visit)
    requires WellFormedResult(v.result)
    ensures Step(v).Ok?
  {
    var errors := Member(v.result, "errors");
    if Present(errors) {
      EntriesOk(errors.value.items);
    }
  }

  lemma {:induction false} EntriesOk(errors: seq<Json>)
    requires forall e :: e in errors ==> e.JObj?
    ensures ErrorEntries(errors).Ok?
    decreases |errors|
  {
    if |errors| > 0 {
      assert errors[0] in errors;
      assert forall e :: e in errors[1..] ==> e in errors;
      EntriesOk(errors[1..]);
    }
  }

  /** A well-formed report is counted without error, every result of every
      test of every spec at every depth exactly once. */
  lemma ReportCountsEveryResult(raw: Json)
    requires WellFormedReport(raw)
    ensures GenerateReport(raw).Ok?
    ensures GenerateReport(raw).value.total == ReportResults(raw)
  {
    var w := WalkReport(raw);
    if "suites" in raw.fields && Truthy(raw.fields["suites"]) {
      SuitesVisited(raw.fields["suites"], 0);
    }
    forall v | v in w.visits ensures Step(v).Ok? {
      WellFormedStep(v);
    }
    TallyAllOk(w.visits);
  }
}
