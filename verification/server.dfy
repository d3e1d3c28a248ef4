/** The server's bookkeeping (server.js): the registry of server-sent-event
    clients, the live progress counters a run keeps while Playwright
    reports results, the per-file test counts those counters start from,
    the empty-generation shortcut, and the target update that keeps fields
    the request leaves out. HTTP routing, sockets and timers are not part
    of this model. */
module Server {
  import opened Wrappers
  import opened Text
  import opened Seqs
  import opened Json
  import TestRunner
  import ResultCollector

  // ---------------------------------------------------------------------
  // The SSE client registry
  // ---------------------------------------------------------------------

  /** A connected response, by identity. */
  type Client = nat

  /** `sseClients`: the responses listening under each `type:id` key. */
  type Registry = map<string, seq<Client>>

  function ClientKey(kind: string, id: string): string {
    kind + ":" + id
  }

  /** The registry never keeps a key without listeners. */
  predicate NoEmptyLists(reg: Registry) {
    forall k :: k in reg ==> |reg[k]| > 0
  }

  /** `addSseClient`: the response joins the end of its key's list. */
  function AddClient(reg: Registry, key: string, c: Client): (r: Registry)
    ensures key in r && r[key] == (if key in reg then reg[key] else []) + [c]
    ensures forall k :: k != key ==> (k in r <==> k in reg) && (k in reg ==> r[k] == reg[k])
    ensures NoEmptyLists(reg) ==> NoEmptyLists(r)
  {
    reg[key := (if key in reg then reg[key] else []) + [c]]
  }

  /** `arr.indexOf(x)`. */
  function IndexOf<T(==)>(xs: seq<T>, x: T): (r: Option<nat>)
    ensures r.Some? ==> r.value < |xs| && xs[r.value] == x && x !in xs[..r.value]
    ensures r.None? <==> x !in xs
    decreases |xs|
  {
    if |xs| == 0 then None
    else if xs[0] == x then Some(0)
    else match IndexOf(xs[1..], x)
      case None => None
      case Some(i) =>
        assert xs[..i + 1] == [xs[0]] + xs[1..][..i];
        Some(i + 1)
  }

  /** `idx !== -1 && arr.splice(idx, 1)`: the list without the first
      occurrence of `c`, or the list itself when `c` is absent. */
  function WithoutFirst(arr: seq<Client>, c: Client): (rest: seq<Client>)
    ensures c !in arr ==> rest == arr
    ensures IndexOf(arr, c).Some? ==>
              var i := IndexOf(arr, c).value;
              rest == arr[..i] + arr[i + 1..]
    ensures c in arr ==> multiset(rest) + multiset{c} == multiset(arr)
  {
    match IndexOf(arr, c)
    case None => arr
    case Some(i) =>
      assert arr == arr[..i] + [c] + arr[i + 1..];
      arr[..i] + arr[i + 1..]
  }

  /** The response's `close` handler: it leaves its key's list, and a key
      whose list becomes empty is deleted. */
  function CloseClient(reg: Registry, key: string, c: Client): (r: Registry)
    ensures key !in reg ==> r == reg
    ensures forall k :: k != key ==> (k in r <==> k in reg) && (k in reg ==> r[k] == reg[k])
    ensures key in reg && c !in reg[key] && |reg[key]| > 0 ==> r == reg
    ensures key in reg && c in reg[key] ==>
              multiset(if key in r then r[key] else []) + multiset{c} == multiset(reg[key])
    ensures key in r ==> |r[key]| > 0
    ensures NoEmptyLists(reg) ==> NoEmptyLists(r)
  {
    if key !in reg then reg
    else
      var rest := WithoutFirst(reg[key], c);
      if |rest| == 0 then reg - {key} else reg[key := rest]
  }

  /** Closing a response that was just added restores the registry. */
  lemma CloseUndoesAdd(reg: Registry, key: string, c: Client)
    requires NoEmptyLists(reg)
    requires key in reg ==> c !in reg[key]
    ensures CloseClient(AddClient(reg, key, c), key, c) == reg
  {
    if key in reg {
      CloseUndoesAppend(reg, key, c);
    } else {
      CloseUndoesFirst(reg, key, c);
    }
  }

  lemma CloseUndoesAppend(reg: Registry, key: string, c: Client)
    requires key in reg && |reg[key]| > 0 && c !in reg[key]
    ensures CloseClient(reg[key := reg[key] + [c]], key, c) == reg
  {
    var arr := reg[key] + [c];
    assert WithoutFirst(arr, c) == reg[key] by {
      IndexOfAfter(reg[key], c);
    }
    assert reg[key := arr][key := reg[key]] == reg;
  }

  lemma CloseUndoesFirst(reg: Registry, key: string, c: Client)
    requires key !in reg
    ensures CloseClient(reg[key := [c]], key, c) == reg
  {
    assert WithoutFirst([c], c) == [];
    assert reg[key := [c]] - {key} == reg;
  }

  /** What closing takes away: the first occurrence of the response in its
      key's list, and the key itself when that was the list's only entry. */
  lemma CloseRemovesFirst(reg: Registry, key: string, c: Client)
    requires key in reg && c in reg[key]
    ensures var i := IndexOf(reg[key], c).value;
            var r := CloseClient(reg, key, c);
            (|reg[key]| > 1 ==> key in r && r[key] == reg[key][..i] + reg[key][i + 1..])
            && (|reg[key]| == 1 ==> r == reg - {key})
  {
    var arr := reg[key];
    var i := IndexOf(arr, c).value;
    assert WithoutFirst(arr, c) == arr[..i] + arr[i + 1..];
    assert |arr[..i] + arr[i + 1..]| == |arr| - 1;
  }

  lemma IndexOfAfter<T>(xs: seq<T>, x: T)
    requires x !in xs
    ensures IndexOf(xs + [x], x) == Some(|xs|)
    ensures (xs + [x])[..|xs|] + (xs + [x])[|xs| + 1..] == xs
  {
    var r := IndexOf(xs + [x], x);
    assert x in xs + [x];
    assert (xs + [x])[..r.value] == xs[..r.value];
  }

  /** One write to one response. */
  datatype Write = Write(client: Client, text: string)

  /** The text of one server-sent event; `data` is the JSON text of the
      payload. */
  function Frame(event: string, data: string): string {
    "event: " + event + "\ndata: " + data + "\n\n"
  }

  /** `emitSse`: every listener of the key, in order, receives the frame;
      an unknown key is a no-op. */
  function Emit(reg: Registry, key: string, event: string, data: string): (writes: seq<Write>)
    ensures key !in reg ==> writes == []
    ensures key in reg ==> |writes| == |reg[key]|
    ensures key in reg ==> forall i :: 0 <= i < |writes| ==> writes[i] == Write(reg[key][i], Frame(event, data))
  {
    if key !in reg then []
    else
      var clients := reg[key];
      seq(|clients|, i requires 0 <= i < |clients| => Write(clients[i], Frame(event, data)))
  }

  /** A frame is the two field lines followed by a blank line, so a client
      reads back the event name and the data unchanged. */
  lemma FrameLines(event: string, data: string)
    requires '\n' !in event && '\n' !in data
    ensures Frame(event, data) == Join(["event: " + event, "data: " + data, "", ""], "\n")
    ensures forall l :: l in ["event: " + event, "data: " + data, "", ""] ==> '\n' !in l
  {
    var parts := ["event: " + event, "data: " + data, "", ""];
    assert parts[1..][1..][1..] == [""];
    assert Join(parts[1..][1..], "\n") == "" + "\n" + "";
    assert Join(parts[1..], "\n") == "data: " + data + "\n" + ("" + "\n" + "");
  }

  // ---------------------------------------------------------------------
  // Counting the generated tests
  // ---------------------------------------------------------------------

  /** A generated file: its name and its text, or None when reading it
      fails. */
  datatype SpecFile = SpecFile(name: string, content: Option<string>)

  const SpecSuffix: string := ".spec.js"

  /** `content.match(/test\(/g)`, counted. */
  function TestCount(content: string): nat {
    CountOccurrences(content, "test(")
  }

  /** `s.replace(t, '')` for a string pattern: the first occurrence goes. */
  function RemoveFirst(s: string, t: string): (r: string)
    ensures IndexOfFrom(s, t, 0).None? ==> r == s
    ensures IndexOfFrom(s, t, 0).Some? ==> |r| == |s| - |t|
  {
    match IndexOfFrom(s, t, 0)
    case None => s
    case Some(k) => s[..k] + s[k + |t|..]
  }

  /** The category a spec file counts under: its name without `.spec.js`. */
  function FileCategory(name: string): string {
    RemoveFirst(name, SpecSuffix)
  }

  /** For a file name whose stem has no dot, the category is the stem. */
  lemma FileCategoryOfStem(stem: string)
    requires '.' !in stem
    ensures FileCategory(stem + SpecSuffix) == stem
  {
    var s := stem + SpecSuffix;
    assert OccursAt(s, SpecSuffix, |stem|) by {
      assert s[|stem|..|stem| + |SpecSuffix|] == SpecSuffix;
    }
    forall k: nat | k < |stem| ensures !OccursAt(s, SpecSuffix, k) {
      assert s[k] == stem[k];
    }
    match IndexOfFrom(s, SpecSuffix, 0)
    case Some(k) =>
      assert k == |stem|;
      assert s[..k] == stem;
    case None =>
  }

  /** `testCounts` and `totalTests`: the object's keys in insertion order,
      its values, and the running total. */
  datatype Counts = Counts(order: seq<string>, counts: map<string, nat>, total: nat)

  predicate WellFormedCounts(c: Counts) {
    Distinct(c.order) && (forall k :: k in c.counts ==> k in c.order) && (forall k :: k in c.order ==> k in c.counts)
  }

  /** `testCounts[category] = count; totalTests += count`. */
  function Record(c: Counts, category: string, n: nat): (r: Counts)
    ensures WellFormedCounts(c) ==> WellFormedCounts(r)
    ensures r.counts == c.counts[category := n] && r.total == c.total + n
  {
    var order := if category in c.counts then c.order else c.order + [category];
    assert WellFormedCounts(c) && category !in c.counts ==> Distinct(order) by {
      if WellFormedCounts(c) && category !in c.counts {
        assert forall i :: 0 <= i < |c.order| ==> order[i] == c.order[i] && order[i] in c.order;
      }
    }
    Counts(order, c.counts[category := n], c.total + n)
  }

  /** The files the loop reads, in order, up to the first unreadable one:
      the exception ends the loop and the counts so far stand. */
  function Readable(files: seq<SpecFile>): (r: seq<SpecFile>)
    ensures IsPrefixOf(r, files)
    ensures forall f :: f in r ==> f.content.Some?
    decreases |files|
  {
    if |files| == 0 || files[0].content.None? then []
    else [files[0]] + Readable(files[1..])
  }

  predicate IsPrefixOf<T(==)>(xs: seq<T>, ys: seq<T>) {
    |xs| <= |ys| && xs == ys[..|xs|]
  }

  /** The counting loop over readable files. */
  function CountFiles(files: seq<SpecFile>, acc: Counts): (r: Counts)
    requires forall f :: f in files ==> f.content.Some?
    ensures WellFormedCounts(acc) ==> WellFormedCounts(r)
    decreases |files|
  {
    if |files| == 0 then acc
    else
      assert files[0] in files;
      assert forall f :: f in files[1..] ==> f in files;
      CountFiles(files[1..], Record(acc, FileCategory(files[0].name), TestCount(files[0].content.value)))
  }

  /** The spec files of the directory listing; a listing that cannot be
      read leaves the counts empty. */
  function CountSpecs(listing: Option<seq<SpecFile>>): (r: Counts)
    ensures WellFormedCounts(r)
    ensures listing.None? ==> r == Counts([], map[], 0)
  {
    var empty := Counts([], map[], 0);
    match listing
    case None => empty
    case Some(files) => CountFiles(Readable(Filter(files, IsSpecFile)), empty)
  }

  predicate IsSpecFile(f: SpecFile) {
    EndsWith(f.name, SpecSuffix)
  }

  /** The sum of the tests in the given files. */
  function SumTests(files: seq<SpecFile>): nat
    requires forall f :: f in files ==> f.content.Some?
    decreases |files|
  {
    if |files| == 0 then 0
    else
      assert files[0] in files;
      assert forall f :: f in files[1..] ==> f in files;
      TestCount(files[0].content.value) + SumTests(files[1..])
  }

  /** The sum of the recorded counts, over the object's keys. */
  function SumCounts(order: seq<string>, counts: map<string, nat>): nat
    requires forall k :: k in order ==> k in counts
    decreases |order|
  {
    if |order| == 0 then 0
    else
      assert order[0] in order;
      assert forall k :: k in order[1..] ==> k in order;
      counts[order[0]] + SumCounts(order[1..], counts)
  }

  /** The total is the sum of every counted file's tests. */
  lemma {:induction false} CountFilesTotal(files: seq<SpecFile>, acc: Counts)
    requires forall f :: f in files ==> f.content.Some?
    ensures CountFiles(files, acc).total == acc.total + SumTests(files)
    decreases |files|
  {
    if |files| > 0 {
      assert forall f :: f in files[1..] ==> f in files;
      CountFilesTotal(files[1..], Record(acc, FileCategory(files[0].name), TestCount(files[0].content.value)));
    }
  }

  /** The announced total counts every test of every readable spec file
      the listing names. */
  lemma CountSpecsTotal(files: seq<SpecFile>)
    ensures CountSpecs(Some(files)).total == SumTests(Readable(Filter(files, IsSpecFile)))
  {
    CountFilesTotal(Readable(Filter(files, IsSpecFile)), Counts([], map[], 0));
  }

  /** Changing one key's value changes the sum by the difference. */
  lemma {:induction false} SumCountsUpdate(order: seq<string>, counts: map<string, nat>, k: string, n: nat)
    requires Distinct(order) && forall j :: j in order ==> j in counts
    ensures forall j :: j in order ==> j in counts[k := n]
    ensures k in order ==> SumCounts(order, counts[k := n]) + counts[k] == SumCounts(order, counts) + n
    ensures k !in order ==> SumCounts(order, counts[k := n]) == SumCounts(order, counts)
    decreases |order|
  {
    if |order| > 0 {
      assert forall j :: j in order[1..] ==> j in order;
      assert Distinct(order[1..]) by {
        assert forall i, j :: 0 <= i < j < |order[1..]| ==> order[1..][i] == order[i + 1] && order[1..][j] == order[j + 1];
      }
      assert order[0] in order;
      assert k == order[0] ==> k !in order[1..];
      SumCountsUpdate(order[1..], counts, k, n);
    }
  }

  lemma SumCountsSnoc(order: seq<string>, counts: map<string, nat>, k: string)
    requires forall j :: j in order + [k] ==> j in counts
    ensures forall j :: j in order ==> j in counts
    ensures SumCounts(order + [k], counts) == SumCounts(order, counts) + counts[k]
    decreases |order|
  {
    if |order| == 0 {
      assert order + [k] == [k];
    } else {
      assert (order + [k])[1..] == order[1..] + [k];
      SumCountsSnoc(order[1..], counts, k);
    }
  }

  /** When every file counts under its own category, the counts in the
      object add up to the announced total. */
  lemma {:induction false} CountsAddUp(files: seq<SpecFile>, acc: Counts)
    requires forall f :: f in files ==> f.content.Some?
    requires WellFormedCounts(acc) && acc.total == SumCounts(acc.order, acc.counts)
    requires forall i :: 0 <= i < |files| ==> FileCategory(files[i].name) !in acc.counts
    requires forall i, j :: 0 <= i < j < |files| ==> FileCategory(files[i].name) != FileCategory(files[j].name)
    ensures var r := CountFiles(files, acc); WellFormedCounts(r) && r.total == SumCounts(r.order, r.counts)
    decreases |files|
  {
    if |files| > 0 {
      assert files[0] in files;
      var cat := FileCategory(files[0].name);
      var n := TestCount(files[0].content.value);
      var next := Record(acc, cat, n);
      assert next.order == acc.order + [cat];
      SumCountsUpdate(acc.order, acc.counts, cat, n);
      SumCountsSnoc(acc.order, next.counts, cat);
      assert forall f :: f in files[1..] ==> f in files;
      assert forall i :: 0 <= i < |files[1..]| ==> files[1..][i] == files[i + 1];
      CountsAddUp(files[1..], next);
    }
  }

  // ---------------------------------------------------------------------
  // Live progress
  // ---------------------------------------------------------------------

  datatype CategoryProgress = CategoryProgress(done: nat, total: nat, passed: nat, failed: nat)

  /** `completedCount` and `categoryProgress`, with the object's key
      order. */
  datatype Progress = Progress(completed: nat, order: seq<string>, categories: map<string, CategoryProgress>)

  /** What `onTestResult` emits. */
  datatype Notice =
    | TestTotal(total: nat, workers: nat)
    | TestResult(name: string, category: string, status: TestRunner.Status, duration: nat,
                 completed: nat, total: nat, categories: map<string, CategoryProgress>)

  /** One entry per counted category, nothing done yet. */
  function InitProgress(c: Counts): (p: Progress)
    ensures p.completed == 0 && p.order == c.order && p.categories.Keys == c.counts.Keys
    ensures forall k :: k in p.categories ==> p.categories[k] == CategoryProgress(0, c.counts[k], 0, 0)
  {
    Progress(0, c.order, map k | k in c.counts :: CategoryProgress(0, c.counts[k], 0, 0))
  }

  function Tick(cp: CategoryProgress, status: TestRunner.Status): CategoryProgress {
    if status == TestRunner.Passed then cp.(done := cp.done + 1, passed := cp.passed + 1)
    else cp.(done := cp.done + 1, failed := cp.failed + 1)
  }

  /** `onTestResult`: a total event only announces itself; a result is
      counted, and also under its category when that category was
      counted in advance. */
  function OnTestResult(p: Progress, e: TestRunner.Event, totalTests: nat): (r: (Progress, Notice))
    ensures e.TotalEvent? ==> r.0 == p && r.1 == TestTotal(e.total, e.workers)
    ensures e.ResultEvent? ==> r.0.completed == p.completed + 1 && r.0.order == p.order
    ensures e.ResultEvent? && e.category !in p.categories ==> r.0.categories == p.categories
    ensures e.ResultEvent? ==> r.0.categories.Keys == p.categories.Keys
    ensures e.ResultEvent? ==> forall k :: k in p.categories && k != e.category ==> r.0.categories[k] == p.categories[k]
    ensures e.ResultEvent? && e.category in p.categories ==>
              var before, after := p.categories[e.category], r.0.categories[e.category];
              after.done == before.done + 1 && after.total == before.total
              && (e.status == TestRunner.Passed ==> after.passed == before.passed + 1 && after.failed == before.failed)
              && (e.status == TestRunner.Failed ==> after.failed == before.failed + 1 && after.passed == before.passed)
    ensures e.ResultEvent? ==> r.1 == TestResult(e.name, e.category, e.status, e.duration, r.0.completed, totalTests, r.0.categories)
  {
    match e
    case TotalEvent(total, workers) => (p, TestTotal(total, workers))
    case ResultEvent(name, cat, status, duration) =>
      var categories := if cat in p.categories then p.categories[cat := Tick(p.categories[cat], status)] else p.categories;
      var q := Progress(p.completed + 1, p.order, categories);
      (q, TestResult(name, cat, status, duration, q.completed, totalTests, categories))
  }

  /** Sum of `done` over the categories. */
  function SumDone(order: seq<string>, m: map<string, CategoryProgress>): nat
    requires forall k :: k in order ==> k in m
    decreases |order|
  {
    if |order| == 0 then 0
    else
      assert order[0] in order;
      assert forall k :: k in order[1..] ==> k in order;
      m[order[0]].done + SumDone(order[1..], m)
  }

  /** The progress invariant: per category, done is passed plus failed;
      and no more results are done per category than were completed. */
  predicate ValidProgress(p: Progress) {
    Distinct(p.order)
    && (forall k :: k in p.categories ==> k in p.order) && (forall k :: k in p.order ==> k in p.categories)
    && (forall k :: k in p.categories ==> p.categories[k].done == p.categories[k].passed + p.categories[k].failed)
    && SumDone(p.order, p.categories) <= p.completed
  }

  lemma {:induction false} SumDoneZero(order: seq<string>, m: map<string, CategoryProgress>)
    requires forall k :: k in order ==> k in m && m[k].done == 0
    ensures SumDone(order, m) == 0
    decreases |order|
  {
    if |order| > 0 {
      assert order[0] in order;
      assert forall k :: k in order[1..] ==> k in order;
      SumDoneZero(order[1..], m);
    }
  }

  /** Ticking one category raises the sum by one. */
  lemma {:induction false} SumDoneTick(order: seq<string>, m: map<string, CategoryProgress>, k: string, v: CategoryProgress)
    requires Distinct(order) && (forall j :: j in order ==> j in m) && k in order
    requires v.done == m[k].done + 1
    ensures forall j :: j in order ==> j in m[k := v]
    ensures SumDone(order, m[k := v]) == SumDone(order, m) + 1
    decreases |order|
  {
    assert order[0] in order;
    assert forall j :: j in order[1..] ==> j in order;
    assert Distinct(order[1..]) by {
      assert forall i, j :: 0 <= i < j < |order[1..]| ==> order[1..][i] == order[i + 1] && order[1..][j] == order[j + 1];
    }
    if order[0] == k {
      assert k !in order[1..];
      SumDoneOther(order[1..], m, k, v);
    } else {
      SumDoneTick(order[1..], m, k, v);
    }
  }

  lemma {:induction false} SumDoneOther(order: seq<string>, m: map<string, CategoryProgress>, k: string, v: CategoryProgress)
    requires (forall j :: j in order ==> j in m) && k !in order
    ensures forall j :: j in order ==> j in m[k := v]
    ensures SumDone(order, m[k := v]) == SumDone(order, m)
    decreases |order|
  {
    if |order| > 0 {
      assert order[0] in order;
      assert forall j :: j in order[1..] ==> j in order;
      SumDoneOther(order[1..], m, k, v);
    }
  }

  /** Progress starts valid. */
  lemma InitValid(c: Counts)
    requires WellFormedCounts(c)
    ensures ValidProgress(InitProgress(c))
  {
    var p := InitProgress(c);
    SumDoneZero(p.order, p.categories);
  }

  /** Every event keeps the progress valid. */
  lemma OnTestResultValid(p: Progress, e: TestRunner.Event, totalTests: nat)
    requires ValidProgress(p)
    ensures ValidProgress(OnTestResult(p, e, totalTests).0)
  {
    if e.ResultEvent? && e.category in p.categories {
      var cat := e.category;
      SumDoneTick(p.order, p.categories, cat, Tick(p.categories[cat], e.status));
    }
  }

  /** Feeding a whole event stream. */
  function Replay(p: Progress, events: seq<TestRunner.Event>, totalTests: nat): (r: Progress)
    ensures r.order == p.order && r.categories.Keys == p.categories.Keys
    decreases |events|
  {
    if |events| == 0 then p
    else Replay(OnTestResult(p, events[0], totalTests).0, events[1..], totalTests)
  }

  /** The invariant holds after any stream of events. */
  lemma {:induction false} ReplayValid(p: Progress, events: seq<TestRunner.Event>, totalTests: nat)
    requires ValidProgress(p)
    ensures ValidProgress(Replay(p, events, totalTests))
    decreases |events|
  {
    if |events| > 0 {
      OnTestResultValid(p, events[0], totalTests);
      ReplayValid(OnTestResult(p, events[0], totalTests).0, events[1..], totalTests);
    }
  }

  /** After a stream of events, one result is completed per result event. */
  lemma {:induction false} ReplayCompleted(p: Progress, events: seq<TestRunner.Event>, totalTests: nat)
    ensures Replay(p, events, totalTests).completed == p.completed + Count(events, IsResult)
    decreases |events|
  {
    if |events| > 0 {
      ReplayCompleted(OnTestResult(p, events[0], totalTests).0, events[1..], totalTests);
    }
  }

  predicate IsResult(e: TestRunner.Event) {
    e.ResultEvent?
  }

  // ---------------------------------------------------------------------
  // The run's start and the target update
  // ---------------------------------------------------------------------

  /** A stored run summary as JSON. */
  function SummaryJson(s: ResultCollector.Summary): Json {
    JObj(map["total" := JNum(s.total), "passed" := JNum(s.passed),
             "failed" := JNum(s.failed), "skipped" := JNum(s.skipped)])
  }

  /** What the run records and emits when generation produced nothing:
      status done with an all-zero summary, and a `done` event. */
  datatype Shortcut = Shortcut(status: string, summary: Json, event: string, data: Json)

  function AfterGeneration(generated: seq<string>): (r: Option<Shortcut>)
    ensures r.Some? <==> |generated| == 0
    ensures r.Some? ==> r.value.status == "done" && r.value.event == "done"
  {
    if |generated| == 0 then
      Some(Shortcut("done", SummaryJson(ResultCollector.Summary(0, 0, 0, 0)),
                    "done", JObj(map["summary" := JObj(map["total" := JNum(0)])])))
    else None
  }

  /** The shortcut's summary is the one collecting no rows would give. */
  lemma EmptyGenerationSummary()
    ensures AfterGeneration([]).value.summary == SummaryJson(ResultCollector.Summarize([]))
  {
  }

  /** A target row as stored: the two JSON columns hold JSON text. */
  datatype TargetRow = TargetRow(name: Json, baseUrl: Json, authType: Json, authConfig: Json, settings: Json)

  /** `body.k || existing.k`. */
  function Keep(v: Option<Json>, existing: Json): (r: Json)
    ensures Present(v) ==> r == v.value
    ensures !Present(v) ==> r == existing
  {
    if Present(v) then v.value else existing
  }

  /** `JSON.stringify(body.k || JSON.parse(existing.k || '{}'))`. */
  function KeepJson(v: Option<Json>, existing: Json, parse: string -> Result<Json>, stringify: Json -> string): (r: Result<Json>)
    ensures Present(v) ==> r == Ok(JStr(stringify(v.value)))
    ensures !Present(v) && existing.JStr? && existing.s != "" && parse(existing.s).Ok? ==>
              r == Ok(JStr(stringify(parse(existing.s).value)))
    ensures !Present(v) && !Truthy(existing) ==> r == (match parse("{}") case Ok(j) => Ok(JStr(stringify(j))) case Err(e) => Err(e))
    ensures !Present(v) && Truthy(existing) ==>
              (r.Err? <==> parse(ToJsString(existing)).Err?)
              && (r.Ok? ==> r == Ok(JStr(stringify(parse(ToJsString(existing)).value))))
  {
    if Present(v) then Ok(JStr(stringify(v.value)))
    else
      var text := if Truthy(existing) then ToJsString(existing) else "{}";
      match parse(text)
      case Ok(j) => Ok(JStr(stringify(j)))
      case Err(e) => Err(e)
  }

  /** `PUT /api/targets/:id`: a missing target is an error; otherwise each
      field the body leaves falsy keeps its stored value, the two JSON
      columns re-serialised, and the update fails only when a stored JSON
      column the body does not replace cannot be parsed. */
  function UpdateTarget(existing: Option<TargetRow>, body: Json,
                        parse: string -> Result<Json>, stringify: Json -> string): (r: Result<TargetRow>)
    ensures existing.None? ==> r == Err("Target not found")
    ensures existing.Some? ==>
              (r.Ok? <==> KeepJson(Member(body, "auth_config"), existing.value.authConfig, parse, stringify).Ok?
                          && KeepJson(Member(body, "settings"), existing.value.settings, parse, stringify).Ok?)
    ensures r.Ok? ==> existing.Some?
                      && r.value.name == Keep(Member(body, "name"), existing.value.name)
                      && r.value.baseUrl == Keep(Member(body, "base_url"), existing.value.baseUrl)
                      && r.value.authType == Keep(Member(body, "auth_type"), existing.value.authType)
                      && Ok(r.value.authConfig) == KeepJson(Member(body, "auth_config"), existing.value.authConfig, parse, stringify)
                      && Ok(r.value.settings) == KeepJson(Member(body, "settings"), existing.value.settings, parse, stringify)
  {
    match existing
    case None => Err("Target not found")
    case Some(t) =>
      match KeepJson(Member(body, "auth_config"), t.authConfig, parse, stringify)
      case Err(e) => Err(e)
      case Ok(authConfig) =>
        match KeepJson(Member(body, "settings"), t.settings, parse, stringify)
        case Err(e) => Err(e)
        case Ok(settings) =>
          Ok(TargetRow(Keep(Member(body, "name"), t.name), Keep(Member(body, "base_url"), t.baseUrl),
                       Keep(Member(body, "auth_type"), t.authType), authConfig, settings))
  }

  /** JSON text that parsing and printing reproduce. */
  predicate Canonical(v: Json, parse: string -> Result<Json>, stringify: Json -> string) {
    v.JStr? && v.s != "" && parse(v.s).Ok? && stringify(parse(v.s).value) == v.s
  }

  /** An update whose body sets nothing leaves a target with canonical
      JSON columns as it was. */
  lemma EmptyUpdateKeepsTarget(t: TargetRow, body: Json, parse: string -> Result<Json>, stringify: Json -> string)
    requires forall k :: k in ["name", "base_url", "auth_type", "auth_config", "settings"] ==> !Present(Member(body, k))
    requires Canonical(t.authConfig, parse, stringify) && Canonical(t.settings, parse, stringify)
    ensures UpdateTarget(Some(t), body, parse, stringify) == Ok(t)
  {
    assert "auth_config" in ["name", "base_url", "auth_type", "auth_config", "settings"];
    assert "settings" in ["name", "base_url", "auth_type", "auth_config", "settings"];
  }
}
