/** The result collector (runner/result-collector.js): it reads the results
    file the runner left, turns every spec of Playwright's JSON report (or
    the fallback counts) into a stored result row, and closes the run with
    a summary counted from those rows. The database becomes the returned
    rows and run outcome. */
module ResultCollector {
  import opened Wrappers
  import opened Text
  import opened Seqs
  import opened Json
  import TestRunner

  datatype RowStatus = Pass | Fail | Skip

  /** One `test_results` row. The name and duration are whatever JSON
      value the report held. */
  datatype Row = Row(category: string, name: Json, status: RowStatus, duration: Json, error: Option<string>)

  /** Rows inserted so far, and the exception that stopped the walk, if
      any. */
  datatype Walk = Walk(rows: seq<Row>, error: Option<string>)

  // ---------------------------------------------------------------------
  // One spec
  // ---------------------------------------------------------------------

  /** A result's status: the three known ones map to themselves, anything
      else (such as `timedOut` or `interrupted`) counts as failed. */
  function StatusOf(result: Json): (r: RowStatus)
    ensures r == Pass <==> Member(result, "status") == Some(JStr("passed"))
    ensures r == Skip <==> Member(result, "status") == Some(JStr("skipped"))
  {
    var st := Member(result, "status");
    if st == Some(JStr("passed")) then Pass
    else if st == Some(JStr("failed")) then Fail
    else if st == Some(JStr("skipped")) then Skip
    else Fail
  }

  const MaxErrorLength: nat := 500

  /** Long error messages keep their first 500 characters and gain an
      ellipsis. */
  function Truncate(m: string): (r: string)
    ensures |r| <= MaxErrorLength + 3
    ensures StartsWith(r, Take(m, MaxErrorLength))
    ensures |m| <= MaxErrorLength ==> r == m
    ensures |m| > MaxErrorLength ==> |r| == MaxErrorLength + 3 && EndsWith(r, "...")
  {
    if |m| > MaxErrorLength then
      var r := m[..MaxErrorLength] + "...";
      assert r[..MaxErrorLength] == m[..MaxErrorLength];
      r
    else m
  }

  /** `error.message || error.toString()`, truncated. */
  function ErrorMessage(error: Json): string {
    var message := Member(error, "message");
    Truncate(if Present(message) then ToJsString(message.value) else ToJsString(error))
  }

  /** `mapCategory`: the first keyword the lower-cased title contains
      decides; a title with none of them is kept as it is. */
  function MapCategory(title: string): (r: string)
    ensures r in TestRunner.KnownCategories || r == title
    ensures ContainsCI(title, "page") ==> r == "pages"
    ensures !ContainsCI(title, "page") && ContainsCI(title, "api") ==> r == "apis"
    ensures r !in TestRunner.KnownCategories ==>
              !ContainsCI(title, "page") && !ContainsCI(title, "api") && !ContainsCI(title, "security")
              && !ContainsCI(title, "form") && !ContainsCI(title, "load")
  {
    var lower := Lower(title);
    if Contains(lower, "page") then "pages"
    else if Contains(lower, "api") then "apis"
    else if Contains(lower, "security") then "security"
    else if Contains(lower, "form") then "forms"
    else if Contains(lower, "load") then "load"
    else title
  }

  /** Every category name maps to itself. */
  lemma KnownCategoryFixed(c: string)
    requires c in TestRunner.KnownCategories
    ensures MapCategory(c) == c
  {
    LowerOfLowercase(c);
    if c == "pages" {
      OccurrenceContains(c, "page", 0);
    } else if c == "apis" {
      MissingCharNotContained(c, "page", 2);
      OccurrenceContains(c, "api", 0);
    } else if c == "security" {
      MissingCharNotContained(c, "page", 0);
      MissingCharNotContained(c, "api", 1);
      OccurrenceContains(c, "security", 0);
    } else if c == "forms" {
      MissingCharNotContained(c, "page", 0);
      MissingCharNotContained(c, "api", 1);
      MissingCharNotContained(c, "security", 7);
      OccurrenceContains(c, "form", 0);
    } else {
      MissingCharNotContained(c, "page", 0);
      MissingCharNotContained(c, "api", 1);
      MissingCharNotContained(c, "security", 7);
      MissingCharNotContained(c, "form", 0);
      OccurrenceContains(c, "load", 0);
    }
  }

  /** Mapping a category twice is mapping it once. */
  lemma MapCategoryIdempotent(title: string)
    ensures MapCategory(MapCategory(title)) == MapCategory(title)
  {
    var r := MapCategory(title);
    if r in TestRunner.KnownCategories {
      KnownCategoryFixed(r);
    }
  }

  /** `mapCategory(category)`: only strings have `toLowerCase`. */
  function CategoryOf(category: Json): (r: Result<string>)
    ensures r.Ok? <==> category.JStr?
  {
    match category
    case JStr(t) => Ok(MapCategory(t))
    case _ => Err("title.toLowerCase is not a function")
  }

  /** The result that decides a spec's row: `spec.tests[0].results[0]`
      when `spec.tests` is truthy with a positive length, and only when it
      is truthy; reading `results` of a missing or null first test
      throws. */
  function FirstResult(spec: Json): (r: Result<Option<Json>>)
    ensures r.Ok? && r.value.Some? ==> Truthy(r.value.value)
    ensures r.Err? ==> Present(Member(spec, "tests"))
    ensures !Present(Member(spec, "tests")) ==> r == Ok(None)
  {
    var tests := Member(spec, "tests");
    if Present(tests) && Get(tests.value, "length").Some? && Get(tests.value, "length").value.JNum?
       && Get(tests.value, "length").value.n > 0 then
      match Get(tests.value, "0")
      case None => Err("Cannot read properties of undefined (reading 'results')")
      case Some(test) =>
        if test.JNull? then Err(NullRead("results"))
        else
          var results := Member(test, "results");
          var result := if Present(results) then Get(results.value, "0") else None;
          Ok(if Present(result) then result else None)
    else Ok(None)
  }

  /** The row for one spec: named by its title or "unnamed"; skipped with
      duration 0 and no error when there is no first result; otherwise the
      first result's status, its duration or 0, and its truncated error
      message when that is non-empty. A null spec, a first result that
      cannot be read and a non-string category throw. */
  function SpecRow(spec: Json, category: Json): (r: Result<Row>)
    ensures spec.JNull? || !category.JStr? ==> r.Err?
    ensures r.Ok? <==> !spec.JNull? && FirstResult(spec).Ok? && category.JStr?
    ensures r.Ok? ==> r.value.category == MapCategory(category.s)
    ensures r.Ok? ==> r.value.name == (if Present(Member(spec, "title")) then Member(spec, "title").value else JStr("unnamed"))
    ensures r.Ok? && FirstResult(spec).value.None? ==>
              r.value.status == Skip && r.value.duration == JNum(0) && r.value.error.None?
    ensures r.Ok? && FirstResult(spec).value.Some? ==>
              var res := FirstResult(spec).value.value;
              r.value.status == StatusOf(res)
              && r.value.duration == (if Present(Member(res, "duration")) then Member(res, "duration").value else JNum(0))
              && (r.value.error.Some? <==> Present(Member(res, "error")) && ErrorMessage(Member(res, "error").value) != "")
              && (r.value.error.Some? ==> r.value.error.value == ErrorMessage(Member(res, "error").value)
                                          && |r.value.error.value| <= MaxErrorLength + 3)
  {
    if spec.JNull? then Err(NullRead("title"))
    else
      var title := Member(spec, "title");
      var name := if Present(title) then title.value else JStr("unnamed");
      match FirstResult(spec)
      case Err(e) => Err(e)
      case Ok(result) =>
        match CategoryOf(category)
        case Err(e) => Err(e)
        case Ok(cat) =>
          match result
          case None => Ok(Row(cat, name, Skip, JNum(0), None))
          case Some(res) =>
            var duration := Member(res, "duration");
            var error := Member(res, "error");
            var message := if Present(error) then ErrorMessage(error.value) else "";
            Ok(Row(cat, name, StatusOf(res), if Present(duration) then duration.value else JNum(0),
                   if message != "" then Some(message) else None))
  }

  // ---------------------------------------------------------------------
  // The suite tree
  // ---------------------------------------------------------------------

  /** The specs of one suite, in order, until one throws. */
  function WalkSpecItems(items: seq<Json>, category: Json): (w: Walk)
    ensures w.error.None? ==> |w.rows| == |items|
    ensures |w.rows| > 0 ==> category.JStr?
    ensures forall i :: 0 <= i < |w.rows| ==> w.rows[i].category == MapCategory(category.s)
  {
    if |items| == 0 then Walk([], None)
    else match SpecRow(items[0], category)
      case Err(e) => Walk([], Some(e))
      case Ok(row) =>
        var rest := WalkSpecItems(items[1..], category);
        Walk([row] + rest.rows, rest.error)
  }

  /** Row i of a walk is the row of spec i, and the walk stops, with that
      spec's error, at the first spec whose row throws. */
  lemma {:induction false} WalkSpecItemsRows(items: seq<Json>, category: Json)
    ensures var w := WalkSpecItems(items, category);
            |w.rows| <= |items|
            && (forall i :: 0 <= i < |w.rows| ==> SpecRow(items[i], category) == Ok(w.rows[i]))
            && (w.error.None? <==> forall i :: 0 <= i < |items| ==> SpecRow(items[i], category).Ok?)
            && (w.error.Some? ==> |w.rows| < |items| && SpecRow(items[|w.rows|], category) == Err(w.error.value))
  {
    WalkSpecItemsOrder(items, category);
    WalkSpecItemsStop(items, category);
  }

  lemma {:induction false} WalkSpecItemsOrder(items: seq<Json>, category: Json)
    ensures var w := WalkSpecItems(items, category);
            |w.rows| <= |items|
            && forall i :: 0 <= i < |w.rows| ==> SpecRow(items[i], category) == Ok(w.rows[i])
    decreases |items|
  {
    if |items| > 0 && SpecRow(items[0], category).Ok? {
      WalkSpecItemsOrder(items[1..], category);
      var w, rest := WalkSpecItems(items, category), WalkSpecItems(items[1..], category);
      assert w.rows == [SpecRow(items[0], category).value] + rest.rows;
      forall i | 1 <= i < |w.rows| ensures SpecRow(items[i], category) == Ok(w.rows[i]) {
        assert w.rows[i] == rest.rows[i - 1] && items[i] == items[1..][i - 1];
      }
    }
  }

  lemma {:induction false} WalkSpecItemsStop(items: seq<Json>, category: Json)
    ensures var w := WalkSpecItems(items, category);
            (w.error.None? <==> forall i :: 0 <= i < |items| ==> SpecRow(items[i], category).Ok?)
            && (w.error.Some? ==> |w.rows| < |items| && SpecRow(items[|w.rows|], category) == Err(w.error.value))
    decreases |items|
  {
    if |items| > 0 && SpecRow(items[0], category).Ok? {
      WalkSpecItemsStop(items[1..], category);
      var w, rest := WalkSpecItems(items, category), WalkSpecItems(items[1..], category);
      assert |w.rows| == 1 + |rest.rows| && w.error == rest.error;
      forall i | 1 <= i < |items| ensures items[i] == items[1..][i - 1] {
      }
      if w.error.Some? {
        assert items[|w.rows|] == items[1..][|rest.rows|];
      }
    }
  }

  /** `for (const spec of suite.specs)` on a truthy value. */
  function WalkSpecs(specs: Json, category: Json): (w: Walk)
    ensures !specs.JArr? && !specs.JStr? ==> w == Walk([], Some("suite.specs is not iterable"))
    ensures |w.rows| > 0 ==> category.JStr?
    ensures forall i :: 0 <= i < |w.rows| ==> w.rows[i].category == MapCategory(category.s)
  {
    match specs
    case JArr(items) => WalkSpecItems(items, category)
    case JStr(s) => WalkSpecItems(Chars(s), category)
    case _ => Walk([], Some("suite.specs is not iterable"))
  }

  /** The rows of `suite.specs`: for an array, row i is the row of spec i,
      and the walk fails exactly when some spec's row throws; a string
      iterates as characters, each a spec with no title and no tests, so
      each gives a skipped "unnamed" row. */
  lemma WalkSpecsRows(specs: Json, category: Json)
    ensures var w := WalkSpecs(specs, category);
            (specs.JArr? ==>
               |w.rows| <= |specs.items|
               && (forall i :: 0 <= i < |w.rows| ==> SpecRow(specs.items[i], category) == Ok(w.rows[i]))
               && (w.error.None? <==> forall i :: 0 <= i < |specs.items| ==> SpecRow(specs.items[i], category).Ok?))
            && (specs.JStr? && category.JStr? ==>
                  w.error.None? && |w.rows| == |specs.s|
                  && forall i :: 0 <= i < |w.rows| ==>
                       w.rows[i] == Row(MapCategory(category.s), JStr("unnamed"), Skip, JNum(0), None))
  {
    match specs
    case JArr(items) => WalkSpecItemsRows(items, category);
    case JStr(t) =>
      var cs := Chars(t);
      WalkSpecItemsRows(cs, category);
      if category.JStr? {
        forall i | 0 <= i < |cs|
          ensures SpecRow(cs[i], category) == Ok(Row(MapCategory(category.s), JStr("unnamed"), Skip, JNum(0), None))
        {
          CharSpecRow(t[i], category);
        }
      }
    case _ =>
  }

  /** A one-character string read as a spec has no title and no tests. */
  lemma CharSpecRow(c: char, category: Json)
    requires category.JStr?
    ensures SpecRow(JStr([c]), category) == Ok(Row(MapCategory(category.s), JStr("unnamed"), Skip, JNum(0), None))
  {
    assert Member(JStr([c]), "title").None? && Member(JStr([c]), "tests").None?;
  }

  /** `collectFromSuites(suites, parentTitle)` on a truthy value. A string
      iterates as characters, which have no title, specs or suites. */
  function WalkSuites(suites: Json, parent: Json): Walk
    decreases suites, 1
  {
    match suites
    case JArr(items) => WalkSuiteItems(suites, 0, parent)
    case JStr(_) => Walk([], None)
    case _ => Walk([], Some("suites is not iterable"))
  }

  function WalkSuiteItems(suites: Json, i: nat, parent: Json): Walk
    requires suites.JArr?
    decreases suites, 0, |suites.items| - i
  {
    if i >= |suites.items| then Walk([], None)
    else
      var w := WalkSuite(suites.items[i], parent);
      if w.error.Some? then w
      else
        var rest := WalkSuiteItems(suites, i + 1, parent);
        Walk(w.rows + rest.rows, rest.error)
  }

  /** One suite: its own specs under `title || parentTitle || 'general'`,
      then its nested suites with `title || parentTitle` as their
      parent. */
  function WalkSuite(suite: Json, parent: Json): Walk
    decreases suite, 2
  {
    match suite
    case JNull => Walk([], Some(NullRead("title")))
    case JObj(f) =>
      var title := Member(suite, "title");
      var category := if Present(title) then title.value else if Truthy(parent) then parent else JStr("general");
      var own := if "specs" in f && Truthy(f["specs"]) then WalkSpecs(f["specs"], category) else Walk([], None);
      if own.error.Some? then own
      else
        var nested := if "suites" in f && Truthy(f["suites"])
                      then WalkSuites(f["suites"], if Present(title) then title.value else parent)
                      else Walk([], None);
        Walk(own.rows + nested.rows, nested.error)
    case _ => Walk([], None)
  }

  /** `suite.title || parentTitle || 'general'`: the category a suite's
      own specs are stored under. */
  function SuiteCategory(suite: Json, parent: Json): Json {
    var title := Member(suite, "title");
    if Present(title) then title.value else if Truthy(parent) then parent else JStr("general")
  }

  /** `suite.title || parentTitle`: the parent title nested suites get. */
  function ChildParent(suite: Json, parent: Json): Json {
    var title := Member(suite, "title");
    if Present(title) then title.value else parent
  }

  /** A suite's rows: first its own specs, each under the mapped
      `SuiteCategory`; then, unless those threw, the rows of its nested
      suites, walked with `ChildParent` as their parent title. */
  lemma WalkSuiteCategories(suite: Json, parent: Json)
    requires suite.JObj?
    ensures var w := WalkSuite(suite, parent);
            var f := suite.fields;
            var own := if "specs" in f && Truthy(f["specs"]) then WalkSpecs(f["specs"], SuiteCategory(suite, parent)) else Walk([], None);
            |own.rows| <= |w.rows| && w.rows[..|own.rows|] == own.rows
            && (|own.rows| > 0 ==> SuiteCategory(suite, parent).JStr?)
            && (forall i :: 0 <= i < |own.rows| ==> w.rows[i].category == MapCategory(SuiteCategory(suite, parent).s))
            && (own.error.None? && "suites" in f && Truthy(f["suites"]) ==>
                  w.rows[|own.rows|..] == WalkSuites(f["suites"], ChildParent(suite, parent)).rows)
            && (own.error.None? && !("suites" in f && Truthy(f["suites"])) ==> w.rows == own.rows)
  {
    var w := WalkSuite(suite, parent);
    var f := suite.fields;
    var own := if "specs" in f && Truthy(f["specs"]) then WalkSpecs(f["specs"], SuiteCategory(suite, parent)) else Walk([], None);
    if own.error.None? {
      var nested := if "suites" in f && Truthy(f["suites"]) then WalkSuites(f["suites"], ChildParent(suite, parent)) else Walk([], None);
      assert w.rows == own.rows + nested.rows;
      assert w.rows[..|own.rows|] == own.rows;
      assert w.rows[|own.rows|..] == nested.rows;
    }
  }

  // ---------------------------------------------------------------------
  // A well-formed report
  // ---------------------------------------------------------------------

  /** The shape Playwright's JSON reporter writes: suites are objects with
      string titles, `specs` and `suites` are arrays, specs are objects,
      and a spec's first test is an object. */
  predicate WellFormedSuites(suites: Json)
    decreases suites, 1
  {
    suites.JArr? && WellFormedSuiteItems(suites, 0)
  }

  predicate WellFormedSuiteItems(suites: Json, i: nat)
    requires suites.JArr?
    decreases suites, 0, |suites.items| - i
  {
    i >= |suites.items| || (WellFormedSuite(suites.items[i]) && WellFormedSuiteItems(suites, i + 1))
  }

  predicate WellFormedSpec(spec: Json) {
    spec.JObj?
    && ("tests" in spec.fields && Truthy(spec.fields["tests"]) ==>
          spec.fields["tests"].JArr? && forall t :: t in spec.fields["tests"].items ==> t.JObj?)
  }

  predicate WellFormedSuite(suite: Json)
    decreases suite, 2
  {
    match suite
    case JObj(f) =>
      ("title" in f ==> f["title"].JStr?)
      && ("specs" in f && Truthy(f["specs"]) ==>
            f["specs"].JArr? && forall s :: s in f["specs"].items ==> WellFormedSpec(s))
      && ("suites" in f && Truthy(f["suites"]) ==> WellFormedSuites(f["suites"]))
    case _ => false
  }

  /** How many specs the tree holds: the length of every suite's `specs`
      array, at every depth. */
  function SuitesSpecCount(suites: Json): nat
    decreases suites, 1
  {
    match suites
    case JArr(_) => SuiteItemsSpecCount(suites, 0)
    case _ => 0
  }

  function SuiteItemsSpecCount(suites: Json, i: nat): nat
    requires suites.JArr?
    decreases suites, 0, |suites.items| - i
  {
    if i >= |suites.items| then 0
    else SuiteSpecCount(suites.items[i]) + SuiteItemsSpecCount(suites, i + 1)
  }

  function SuiteSpecCount(suite: Json): nat
    decreases suite, 2
  {
    match suite
    case JObj(f) =>
      (if "specs" in f && f["specs"].JArr? then |f["specs"].items| else 0)
      + (if "suites" in f then SuitesSpecCount(f["suites"]) else 0)
    case _ => 0
  }

  /** A well-formed spec under a string category always gives a row. */
  lemma WellFormedSpecRow(spec: Json, category: Json)
    requires WellFormedSpec(spec) && category.JStr?
    ensures SpecRow(spec, category).Ok?
  {
    var tests := Member(spec, "tests");
    if Present(tests) {
      var items := tests.value.items;
      assert ArrayIndex("0") == Some(0) by {
        assert AllDigits("0");
        assert DecimalValue("0") == 0;
      }
      if |items| > 0 {
        assert items[0] in items;
        assert Get(tests.value, "0") == Some(items[0]);
      }
    }
  }

  /** In a well-formed spec list nothing throws, so every spec gives a
      row. */
  lemma {:induction false} WellFormedSpecItems(items: seq<Json>, category: Json)
    requires category.JStr?
    requires forall s :: s in items ==> WellFormedSpec(s)
    ensures WalkSpecItems(items, category).error.None?
    decreases |items|
  {
    if |items| > 0 {
      assert items[0] in items;
      WellFormedSpecRow(items[0], category);
      assert forall s :: s in items[1..] ==> s in items;
      WellFormedSpecItems(items[1..], category);
    }
  }

  /** In a well-formed report the walk never throws and stores exactly one
      row per spec. */
  lemma {:induction false} WellFormedSuitesRows(suites: Json, parent: Json)
    requires WellFormedSuites(suites) && parent.JStr?
    ensures WalkSuites(suites, parent).error.None?
    ensures |WalkSuites(suites, parent).rows| == SuitesSpecCount(suites)
    decreases suites, 1
  {
    WellFormedSuiteItemsRows(suites, 0, parent);
  }

  lemma {:induction false} WellFormedSuiteItemsRows(suites: Json, i: nat, parent: Json)
    requires suites.JArr? && WellFormedSuiteItems(suites, i) && parent.JStr?
    ensures WalkSuiteItems(suites, i, parent).error.None?
    ensures |WalkSuiteItems(suites, i, parent).rows| == SuiteItemsSpecCount(suites, i)
    decreases suites, 0, |suites.items| - i
  {
    if i < |suites.items| {
      WellFormedSuiteRows(suites.items[i], parent);
      WellFormedSuiteItemsRows(suites, i + 1, parent);
    }
  }

  lemma {:induction false} WellFormedSuiteRows(suite: Json, parent: Json)
    requires WellFormedSuite(suite) && parent.JStr?
    ensures WalkSuite(suite, parent).error.None?
    ensures |WalkSuite(suite, parent).rows| == SuiteSpecCount(suite)
    decreases suite, 2
  {
    var f := suite.fields;
    var title := Member(suite, "title");
    var category := if Present(title) then title.value else if Truthy(parent) then parent else JStr("general");
    if "specs" in f && Truthy(f["specs"]) {
      WellFormedSpecItems(f["specs"].items, category);
    }
    if "suites" in f && Truthy(f["suites"]) {
      WellFormedSuitesRows(f["suites"], if Present(title) then title.value else parent);
    }
  }

  // ---------------------------------------------------------------------
  // Fallback rows and the summary
  // ---------------------------------------------------------------------

  /** `stats.k || 0` for a numeric count. */
  function StatCount(stats: Json, k: string): int {
    match Member(stats, k)
    case Some(JNum(n)) => n
    case _ => 0
  }

  function PassedRows(n: nat): (rows: seq<Row>)
    ensures |rows| == n
    ensures forall i :: 0 <= i < n ==> rows[i] == Row("general", JStr("Test " + NatToString(i + 1)), Pass, JNum(0), None)
  {
    seq(n, i requires 0 <= i < n => Row("general", JStr("Test " + NatToString(i + 1)), Pass, JNum(0), None))
  }

  function FailedRows(n: nat): (rows: seq<Row>)
    ensures |rows| == n
    ensures forall i :: 0 <= i < n ==> rows[i] == Row("general", JStr("Failed Test " + NatToString(i + 1)), Fail, JNum(0), None)
  {
    seq(n, i requires 0 <= i < n => Row("general", JStr("Failed Test " + NatToString(i + 1)), Fail, JNum(0), None))
  }

  function Clamp(n: int): nat {
    if n < 0 then 0 else n
  }

  /** The rows a fallback summary stands for: one passed row per expected
      test, then one failed row per unexpected test; skipped tests get no
      row. */
  function FallbackRows(data: Json): (rows: seq<Row>)
  {
    var stats := match Member(data, "stats") case Some(s) => if Truthy(s) then s else JObj(map[]) case None => JObj(map[]);
    var expected := StatCount(stats, "expected");
    var unexpected := StatCount(stats, "unexpected");
    var skipped := StatCount(stats, "skipped");
    if expected + unexpected + skipped > 0 then PassedRows(Clamp(expected)) + FailedRows(Clamp(unexpected))
    else []
  }

  datatype Summary = Summary(total: nat, passed: nat, failed: nat, skipped: nat)

  predicate IsPass(r: Row) { r.status == Pass }
  predicate IsFail(r: Row) { r.status == Fail }
  predicate IsSkip(r: Row) { r.status == Skip }

  /** The run's summary, counted from its rows. */
  function Summarize(rows: seq<Row>): (s: Summary)
    ensures s.total == |rows| == s.passed + s.failed + s.skipped
  {
    SummaryPartition(rows);
    Summary(|rows|, Count(rows, IsPass), Count(rows, IsFail), Count(rows, IsSkip))
  }

  /** Every row has exactly one of the three statuses. */
  lemma {:induction false} SummaryPartition(rows: seq<Row>)
    ensures Count(rows, IsPass) + Count(rows, IsFail) + Count(rows, IsSkip) == |rows|
  {
    if |rows| > 0 {
      SummaryPartition(rows[1..]);
    }
  }

  /** How a run ends after collection. */
  datatype Collected =
    | ParseFailed(message: string)
    | Threw(rows: seq<Row>, message: string)
    | Done(rows: seq<Row>, summary: Summary)

  /** What the collector does with the parsed results object. */
  function CollectData(data: Json): (r: Collected)
    ensures !r.ParseFailed?
    ensures r.Done? ==> r.summary == Summarize(r.rows)
  {
    if data.JNull? then Threw([], NullRead("suites"))
    else
      var suites := Member(data, "suites");
      var walk := if Present(suites) then WalkSuites(suites.value, JStr("")) else Walk([], None);
      if walk.error.Some? then Threw(walk.rows, walk.error.value)
      else
        var fallback := Member(data, "_fallback");
        var rows := walk.rows + (if Present(fallback) then FallbackRows(data) else []);
        Done(rows, Summarize(rows))
  }

  /** `collectResults`: `parse` is `JSON.parse` of the reporter's file; the
      fallback file holds the fallback object. Only a parse failure ends
      the run as "Failed to parse test results". */
  function CollectResults(file: TestRunner.ResultsFile, parse: string -> Result<Json>): (r: Collected)
    ensures r.ParseFailed? <==> file.ReporterFile? && parse(file.text).Err?
    ensures r.ParseFailed? ==> r.message == "Failed to parse test results: " + parse(file.text).msg
    ensures r.Done? ==> r.summary == Summarize(r.rows)
  {
    var parsed := match file
      case ReporterFile(text) => parse(text)
      case FallbackFile(stats) => Ok(TestRunner.FallbackJson(stats));
    match parsed
    case Err(msg) => ParseFailed("Failed to parse test results: " + msg)
    case Ok(data) => CollectData(data)
  }

  /** A well-formed report stores one row per spec and closes the run. */
  lemma ReportCollected(text: string, parse: string -> Result<Json>, data: Json)
    requires parse(text) == Ok(data) && data.JObj?
    requires "suites" in data.fields && WellFormedSuites(data.fields["suites"])
    requires "_fallback" !in data.fields
    ensures CollectResults(TestRunner.ReporterFile(text), parse).Done?
    ensures |CollectResults(TestRunner.ReporterFile(text), parse).rows| == SuitesSpecCount(data.fields["suites"])
  {
    assert CollectResults(TestRunner.ReporterFile(text), parse) == CollectData(data);
    WellFormedSuitesRows(data.fields["suites"], JStr(""));
  }

  /** The fallback object becomes one passed row per expected test
      followed by one failed row per unexpected test. */
  lemma FallbackRowsOfStats(stats: TestRunner.FallbackStats)
    ensures FallbackRows(TestRunner.FallbackJson(stats))
            == PassedRows(stats.expected) + FailedRows(stats.unexpected)
  {
    var data := TestRunner.FallbackJson(stats);
    var st := data.fields["stats"];
    assert Member(data, "stats") == Some(st);
    assert StatCount(st, "expected") == stats.expected;
    assert StatCount(st, "unexpected") == stats.unexpected;
    assert StatCount(st, "skipped") == stats.skipped;
  }

  /** The fallback file is not parsed: its object goes to the collector
      as it is. */
  lemma FallbackFileRead(stats: TestRunner.FallbackStats, parse: string -> Result<Json>)
    ensures CollectResults(TestRunner.FallbackFile(stats), parse) == CollectData(TestRunner.FallbackJson(stats))
  {
  }

  /** An object with no suites and a `_fallback` flag gives exactly its
      fallback rows. */
  lemma FallbackDataDone(data: Json)
    requires Member(data, "suites") == Some(JArr([]))
    requires Present(Member(data, "_fallback"))
    ensures CollectData(data) == Done(FallbackRows(data), Summarize(FallbackRows(data)))
  {
    assert WalkSuites(JArr([]), JStr("")) == Walk([], None);
    assert [] + FallbackRows(data) == FallbackRows(data);
  }

  /** The fallback object walks no suites and closes the run. */
  lemma FallbackDone(stats: TestRunner.FallbackStats, parse: string -> Result<Json>)
    ensures var rows := FallbackRows(TestRunner.FallbackJson(stats));
            CollectResults(TestRunner.FallbackFile(stats), parse) == Done(rows, Summarize(rows))
  {
    var data := TestRunner.FallbackJson(stats);
    FallbackFileRead(stats, parse);
    assert Member(data, "suites") == Some(JArr([]));
    assert Member(data, "_fallback") == Some(JBool(true));
    FallbackDataDone(data);
  }

  /** Passed rows followed by failed rows are summarised as exactly that
      many passes and failures, with nothing skipped. */
  lemma {:induction false} FallbackSummary(expected: nat, unexpected: nat)
    ensures Summarize(PassedRows(expected) + FailedRows(unexpected))
            == Summary(expected + unexpected, expected, unexpected, 0)
  {
    var passed := PassedRows(expected);
    var failed := FailedRows(unexpected);
    CountAppend(passed, failed, IsPass);
    CountAppend(passed, failed, IsFail);
    CountUniform(passed, IsPass);
    CountUniform(passed, IsFail);
    CountUniform(failed, IsPass);
    CountUniform(failed, IsFail);
  }

  /** The fallback file stores its passed and failed counts as rows and
      closes the run with them; skipped tests are lost. */
  lemma FallbackCollected(stats: TestRunner.FallbackStats, parse: string -> Result<Json>)
    ensures var r := CollectResults(TestRunner.FallbackFile(stats), parse);
            r.Done? && r.rows == PassedRows(stats.expected) + FailedRows(stats.unexpected)
            && r.summary == Summary(stats.expected + stats.unexpected, stats.expected, stats.unexpected, 0)
  {
    FallbackRowsOfStats(stats);
    FallbackDone(stats, parse);
    FallbackSummary(stats.expected, stats.unexpected);
  }
}
