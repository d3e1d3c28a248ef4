/** The breadth-first page crawler (engine/crawler.js). The browser is an
    oracle `site` mapping a URL to what navigating there yields. */
module Crawler {
  import opened Wrappers
  import opened Text
  import opened Urls
  import opened Records
  import opened Seqs

  /** What `page.goto(url)` and the queries after it yield: the navigation
      throws, or the page loads with a status (0 when there is no response),
      an elapsed time, a title ('' when it cannot be read), a form count
      (0 when it cannot be counted) and the resolved `a[href]` targets
      (empty when they cannot be read). */
  datatype Navigation =
    | NavError(message: string)
    | Loaded(status: int, elapsed: int, title: string, formCount: nat, anchors: seq<Url>)

  /** A queue entry. */
  datatype Entry = Entry(url: string, depth: int)

  /** The record pushed for a visited URL: the loaded page's facts, or the
      degraded record of a failed navigation. */
  function PageFor(url: string, nav: Navigation): (p: PageRecord)
    ensures p.url == url && !p.isAuthPage && p.ui == EmptySnapshot
    ensures nav.NavError? ==> p.statusCode == 0 && p.responseTime == 0 && !p.hasForms
                              && p.title == "" && p.error == Some(nav.message)
    ensures nav.Loaded? ==> p.statusCode == nav.status && p.responseTime == nav.elapsed
                            && p.title == nav.title && (p.hasForms <==> nav.formCount > 0)
                            && p.error.None?
  {
    match nav
    case NavError(m) => PageRecord(url, "", 0, 0, false, false, Some(m), EmptySnapshot)
    case Loaded(status, elapsed, title, forms, _) =>
      PageRecord(url, title, status, elapsed, forms > 0, false, None, EmptySnapshot)
  }

  /** What one anchor contributes: its normalised href, when both the raw
      href and the normalised one start with the base origin. */
  function AnchorTarget(a: Url, origin: string): Option<string> {
    if StartsWith(Href(a), origin) && StartsWith(Href(Normalize(a)), origin) then Some(Href(Normalize(a))) else None
  }

  /** The normalised targets of the anchors, in document order, that pass
      both origin filters: the raw href and its normalised form must start
      with the base origin. */
  function Targets(anchors: seq<Url>, origin: string): (r: seq<string>)
    ensures forall t :: t in r ==> StartsWith(t, origin)
    ensures forall a :: a in anchors && StartsWith(Href(a), origin)
                        && StartsWith(Href(Normalize(a)), origin)
                        ==> Href(Normalize(a)) in r
  {
    if |anchors| == 0 then []
    else
      var a := anchors[0];
      var n := Href(Normalize(a));
      var rest := Targets(anchors[1..], origin);
      if StartsWith(Href(a), origin) && StartsWith(n, origin) then [n] + rest else rest
  }

  /** The targets are exactly the anchors' contributions, in document
      order, and each comes from some anchor passing both filters. */
  lemma {:induction false} TargetsFromAnchors(anchors: seq<Url>, origin: string)
    ensures Targets(anchors, origin) == FilterMap(anchors, a => AnchorTarget(a, origin))
    ensures forall t :: t in Targets(anchors, origin) ==> exists a :: a in anchors && AnchorTarget(a, origin) == Some(t)
    decreases |anchors|
  {
    if |anchors| > 0 {
      TargetsFromAnchors(anchors[1..], origin);
      var r := Targets(anchors, origin);
      forall t | t in r ensures exists a :: a in anchors && AnchorTarget(a, origin) == Some(t) {
        if t !in Targets(anchors[1..], origin) {
          assert AnchorTarget(anchors[0], origin) == Some(t);
        } else {
          var a :| a in anchors[1..] && AnchorTarget(a, origin) == Some(t);
          assert a in anchors;
        }
      }
    }
  }

  /** The targets a recorded URL contributes: none when its navigation
      failed. */
  function TargetsOf(site: string -> Navigation, url: string, origin: string): (r: seq<string>)
    ensures forall t :: t in r ==> StartsWith(t, origin)
  {
    match site(url)
    case NavError(_) => []
    case Loaded(_, _, _, _, anchors) => Targets(anchors, origin)
  }

  /** The entries pushed for the targets not yet visited, at `depth + 1`,
      in order. */
  function NewEntries(targets: seq<string>, visited: set<string>, depth: int): (r: seq<Entry>)
    ensures forall e :: e in r ==> e.depth == depth + 1 && e.url in targets && e.url !in visited
    ensures forall t :: t in targets && t !in visited ==> Entry(t, depth + 1) in r
  {
    if |targets| == 0 then []
    else
      var rest := NewEntries(targets[1..], visited, depth);
      if targets[0] !in visited then [Entry(targets[0], depth + 1)] + rest else rest
  }

  function ResultUrls(results: seq<PageRecord>): set<string> {
    set i | 0 <= i < |results| :: results[i].url
  }

  /** Entry `e` was found as a link of recorded page `j` one level up. */
  ghost predicate LinkedFrom(site: string -> Navigation, origin: string, results: seq<PageRecord>,
                       depths: seq<int>, e: Entry, j: int)
    requires |results| == |depths|
  {
    0 <= j < |results| && depths[j] == e.depth - 1 && e.url in TargetsOf(site, results[j].url, origin)
  }

  /** Every recorded page after the first was linked from an earlier
      recorded page one level up. */
  ghost predicate ReachedByLinks(site: string -> Navigation, origin: string, results: seq<PageRecord>, depths: seq<int>)
    requires |results| == |depths|
  {
    forall i :: 0 < i < |results| ==> ReachedAt(site, origin, results, depths, i)
  }

  /** Record `i` was linked from an earlier record one level up. */
  ghost predicate ReachedAt(site: string -> Navigation, origin: string, results: seq<PageRecord>, depths: seq<int>, i: int)
    requires |results| == |depths| && 0 <= i < |results|
  {
    exists j :: 0 <= j < i && LinkedFrom(site, origin, results, depths, Entry(results[i].url, depths[i]), j)
  }

  /** Target `t` is still waiting in the queue at a depth the crawl will
      accept. */
  ghost predicate Pending(queue: seq<Entry>, t: string, maxDepth: int) {
    exists k :: 0 <= k < |queue| && queue[k].url == t && queue[k].depth <= maxDepth
  }

  /** The crawl's state between iterations: the records so far, the depth
      each was recorded at, and the queue. */
  datatype Crawl = Crawl(results: seq<PageRecord>, depths: seq<int>, queue: seq<Entry>)

  /** What the records satisfy: one per distinct URL, same origin, in
      non-decreasing depth within the limit, each what the site yields. */
  predicate RecordsOk(site: string -> Navigation, origin: string, maxDepth: int, c: Crawl) {
    |c.results| == |c.depths|
    && (forall i, j :: 0 <= i < j < |c.results| ==> c.results[i].url != c.results[j].url)
    && (forall i :: 0 <= i < |c.results| ==> 0 <= c.depths[i] <= maxDepth)
    && (forall i, j :: 0 <= i < j < |c.results| ==> c.depths[i] <= c.depths[j])
    && (forall i :: 0 <= i < |c.results| ==> StartsWith(c.results[i].url, origin))
    && (forall i :: 0 <= i < |c.results| ==> c.results[i] == PageFor(c.results[i].url, site(c.results[i].url)))
  }

  /** What the queue satisfies: same origin, depths sorted and within one
      level of its head, never behind a recorded depth. */
  predicate QueueOk(origin: string, c: Crawl) {
    |c.results| == |c.depths|
    && (forall k :: 0 <= k < |c.queue| ==> StartsWith(c.queue[k].url, origin) && c.queue[k].depth >= 0)
    && (forall k, l :: 0 <= k < l < |c.queue| ==> c.queue[k].depth <= c.queue[l].depth)
    && (forall k :: 0 <= k < |c.queue| ==> c.queue[k].depth <= c.queue[0].depth + 1)
    && (|c.queue| > 0 ==> forall i :: 0 <= i < |c.results| ==> c.depths[i] <= c.queue[0].depth)
  }

  /** Every queued entry is the start or a link of a recorded page. */
  ghost predicate QueueLinked(site: string -> Navigation, origin: string, start: string, c: Crawl)
    requires |c.results| == |c.depths|
  {
    forall k :: 0 <= k < |c.queue| ==>
      c.queue[k] == Entry(start, 0) || exists j :: LinkedFrom(site, origin, c.results, c.depths, c.queue[k], j)
  }

  /** Every link of a page recorded below the depth limit is visited or
      still pending. */
  ghost predicate LinksCovered(site: string -> Navigation, origin: string, maxDepth: int, c: Crawl)
    requires |c.results| == |c.depths|
  {
    forall j, t :: 0 <= j < |c.results| && c.depths[j] < maxDepth
                   && t in TargetsOf(site, c.results[j].url, origin)
                   ==> t in ResultUrls(c.results) || Pending(c.queue, t, maxDepth)
  }

  /** Once the queue is drained, every covered link was visited. */
  lemma DrainedCovered(site: string -> Navigation, origin: string, maxDepth: int, c: Crawl)
    requires |c.results| == |c.depths| && |c.queue| == 0
    requires LinksCovered(site, origin, maxDepth, c)
    ensures forall j, t :: 0 <= j < |c.results| && c.depths[j] < maxDepth
                           && t in TargetsOf(site, c.results[j].url, origin)
                           ==> t in ResultUrls(c.results)
  {
  }

  lemma AppendUrls(results: seq<PageRecord>, p: PageRecord)
    ensures ResultUrls(results + [p]) == ResultUrls(results) + {p.url}
  {
    var r := results + [p];
    assert r[|results|].url == p.url;
    forall u | u in ResultUrls(r) ensures u in ResultUrls(results) + {p.url} {
      var i :| 0 <= i < |r| && r[i].url == u;
      if i < |results| {
        assert results[i].url == u;
      }
    }
    forall u | u in ResultUrls(results) ensures u in ResultUrls(r) {
      var i :| 0 <= i < |results| && results[i].url == u;
      assert r[i].url == u;
    }
  }

  /** Recording a new same-origin URL at the head's depth keeps the
      records' invariant. */
  lemma {:induction false} RecordKeepsRecords(site: string -> Navigation, origin: string, maxDepth: int,
                                              c: Crawl, e: Entry, q: seq<Entry>)
    requires RecordsOk(site, origin, maxDepth, c)
    requires e.url !in ResultUrls(c.results) && 0 <= e.depth <= maxDepth && StartsWith(e.url, origin)
    requires forall i :: 0 <= i < |c.depths| ==> c.depths[i] <= e.depth
    ensures RecordsOk(site, origin, maxDepth, Crawl(c.results + [PageFor(e.url, site(e.url))], c.depths + [e.depth], q))
  {
    forall i | 0 <= i < |c.results| ensures c.results[i].url != e.url {
      assert c.results[i].url in ResultUrls(c.results);
    }
  }

  /** Dropping the head, and after a record appending entries one level
      deeper, keeps the queue's invariant. */
  lemma {:induction false} StepKeepsQueue(origin: string, c: Crawl, recorded: bool, p: PageRecord, pushed: seq<Entry>)
    requires |c.queue| > 0 && QueueOk(origin, c)
    requires forall m :: 0 <= m < |pushed| ==> pushed[m].depth == c.queue[0].depth + 1 && StartsWith(pushed[m].url, origin)
    requires !recorded ==> pushed == []
    ensures QueueOk(origin, if recorded then Crawl(c.results + [p], c.depths + [c.queue[0].depth], c.queue[1..] + pushed)
                            else Crawl(c.results, c.depths, c.queue[1..]))
  {
    var rest := c.queue[1..];
    var q := rest + pushed;
    forall k | 0 <= k < |q| ensures q[k] == if k < |rest| then c.queue[k + 1] else pushed[k - |rest|] {
    }
    if |q| > 0 {
      assert q[0].depth >= c.queue[0].depth;
    }
  }

  /** Dropping the head leaves every other queued entry linked. */
  lemma {:induction false} SkipKeepsQueueLinked(site: string -> Navigation, origin: string, start: string, c: Crawl)
    requires |c.queue| > 0 && |c.results| == |c.depths|
    requires QueueLinked(site, origin, start, c)
    ensures QueueLinked(site, origin, start, Crawl(c.results, c.depths, c.queue[1..]))
  {
    var n := Crawl(c.results, c.depths, c.queue[1..]);
    forall k | 0 <= k < |n.queue|
      ensures n.queue[k] == Entry(start, 0) || exists j :: LinkedFrom(site, origin, n.results, n.depths, n.queue[k], j)
    {
      assert n.queue[k] == c.queue[k + 1];
      if n.queue[k] != Entry(start, 0) {
        var j :| LinkedFrom(site, origin, c.results, c.depths, c.queue[k + 1], j);
        assert LinkedFrom(site, origin, n.results, n.depths, n.queue[k], j);
      }
    }
  }

  /** Dropping a head that is visited or too deep leaves every link still
      covered: a pending entry other than the head stays in the queue. */
  lemma {:induction false} SkipKeepsCovered(site: string -> Navigation, origin: string, maxDepth: int, c: Crawl)
    requires |c.queue| > 0 && |c.results| == |c.depths|
    requires c.queue[0].url in ResultUrls(c.results) || c.queue[0].depth > maxDepth
    requires LinksCovered(site, origin, maxDepth, c)
    ensures LinksCovered(site, origin, maxDepth, Crawl(c.results, c.depths, c.queue[1..]))
  {
    var n := Crawl(c.results, c.depths, c.queue[1..]);
    forall j, t | 0 <= j < |n.results| && n.depths[j] < maxDepth && t in TargetsOf(site, n.results[j].url, origin)
      ensures t in ResultUrls(n.results) || Pending(n.queue, t, maxDepth)
    {
      if t !in ResultUrls(c.results) {
        assert Pending(c.queue, t, maxDepth);
        var k :| 0 <= k < |c.queue| && c.queue[k].url == t && c.queue[k].depth <= maxDepth;
        assert k != 0;
        assert n.queue[k - 1] == c.queue[k];
      }
    }
  }

  /** After recording the head `e`, queued entries are still the start or
      linked, and the pushed entries are links of the new record. */
  lemma {:induction false} RecordKeepsQueueLinked(site: string -> Navigation, origin: string, start: string,
                                                  c: Crawl, p: PageRecord, pushed: seq<Entry>)
    requires |c.queue| > 0 && |c.results| == |c.depths| && p.url == c.queue[0].url
    requires QueueLinked(site, origin, start, c)
    requires forall m :: 0 <= m < |pushed| ==>
               pushed[m].depth == c.queue[0].depth + 1 && pushed[m].url in TargetsOf(site, p.url, origin)
    ensures QueueLinked(site, origin, start, Crawl(c.results + [p], c.depths + [c.queue[0].depth], c.queue[1..] + pushed))
  {
    var e := c.queue[0];
    var rest := c.queue[1..];
    var n := Crawl(c.results + [p], c.depths + [e.depth], rest + pushed);
    forall k | 0 <= k < |n.queue|
      ensures n.queue[k] == Entry(start, 0) || exists j :: LinkedFrom(site, origin, n.results, n.depths, n.queue[k], j)
    {
      if k < |rest| {
        assert n.queue[k] == c.queue[k + 1];
        if n.queue[k] != Entry(start, 0) {
          var j :| LinkedFrom(site, origin, c.results, c.depths, c.queue[k + 1], j);
          assert n.results[j] == c.results[j] && n.depths[j] == c.depths[j];
          assert LinkedFrom(site, origin, n.results, n.depths, n.queue[k], j);
        }
      } else {
        assert n.queue[k] == pushed[k - |rest|];
        var last := |c.results|;
        assert n.results[last] == p && n.depths[last] == e.depth;
        assert LinkedFrom(site, origin, n.results, n.depths, n.queue[k], last);
      }
    }
  }

  /** Recording a head that is not the start keeps every record after the
      first linked from an earlier one. */
  lemma {:induction false} RecordKeepsReached(site: string -> Navigation, origin: string, start: string,
                                              c: Crawl, p: PageRecord)
    requires |c.queue| > 0 && |c.results| == |c.depths| && p.url == c.queue[0].url
    requires |c.results| > 0 ==> c.queue[0] != Entry(start, 0)
    requires QueueLinked(site, origin, start, c)
    requires ReachedByLinks(site, origin, c.results, c.depths)
    ensures ReachedByLinks(site, origin, c.results + [p], c.depths + [c.queue[0].depth])
  {
    var e := c.queue[0];
    var rs := c.results + [p];
    var ds := c.depths + [e.depth];
    forall i | 0 < i < |rs|
      ensures ReachedAt(site, origin, rs, ds, i)
    {
      if i < |c.results| {
        assert ReachedAt(site, origin, c.results, c.depths, i);
        var j :| 0 <= j < i && LinkedFrom(site, origin, c.results, c.depths, Entry(c.results[i].url, c.depths[i]), j);
        assert rs[i] == c.results[i] && ds[i] == c.depths[i] && rs[j] == c.results[j] && ds[j] == c.depths[j];
        assert LinkedFrom(site, origin, rs, ds, Entry(rs[i].url, ds[i]), j);
      } else {
        assert |c.results| > 0 && rs[i] == p && ds[i] == e.depth;
        assert e != Entry(start, 0);
        var j :| LinkedFrom(site, origin, c.results, c.depths, e, j);
        assert rs[j] == c.results[j] && ds[j] == c.depths[j];
        assert LinkedFrom(site, origin, rs, ds, Entry(rs[i].url, ds[i]), j);
      }
    }
  }

  /** After recording the head, every link of a shallow record is visited
      or pending: older links keep their queue entry, the new record's
      unvisited links were pushed. */
  lemma {:induction false} RecordKeepsCovered(site: string -> Navigation, origin: string, maxDepth: int,
                                              c: Crawl, p: PageRecord, pushed: seq<Entry>)
    requires |c.queue| > 0 && |c.results| == |c.depths| && p.url == c.queue[0].url
    requires LinksCovered(site, origin, maxDepth, c)
    requires c.queue[0].depth < maxDepth ==>
               forall t :: t in TargetsOf(site, p.url, origin) && t !in ResultUrls(c.results) + {p.url}
                           ==> Entry(t, c.queue[0].depth + 1) in pushed
    ensures LinksCovered(site, origin, maxDepth, Crawl(c.results + [p], c.depths + [c.queue[0].depth], c.queue[1..] + pushed))
  {
    var e := c.queue[0];
    var rest := c.queue[1..];
    var n := Crawl(c.results + [p], c.depths + [e.depth], rest + pushed);
    AppendUrls(c.results, p);
    forall j, t | 0 <= j < |n.results| && n.depths[j] < maxDepth && t in TargetsOf(site, n.results[j].url, origin)
      ensures t in ResultUrls(n.results) || Pending(n.queue, t, maxDepth)
    {
      if t !in ResultUrls(n.results) {
        if j < |c.results| {
          assert c.results[j] == n.results[j] && c.depths[j] == n.depths[j];
          OldLinkPending(site, origin, maxDepth, c, pushed, j, t);
        } else {
          assert n.results[j] == p && n.depths[j] == e.depth;
          NewLinkPending(rest, pushed, Entry(t, e.depth + 1), maxDepth);
        }
      }
    }
  }

  /** A link of an older record, pending before and not the head, stays
      pending once the head is dropped. */
  lemma OldLinkPending(site: string -> Navigation, origin: string, maxDepth: int, c: Crawl, pushed: seq<Entry>,
                       j: int, t: string)
    requires |c.queue| > 0 && |c.results| == |c.depths| && LinksCovered(site, origin, maxDepth, c)
    requires 0 <= j < |c.results| && c.depths[j] < maxDepth && t in TargetsOf(site, c.results[j].url, origin)
    requires t !in ResultUrls(c.results) && t != c.queue[0].url
    ensures Pending(c.queue[1..] + pushed, t, maxDepth)
  {
    var k :| 0 <= k < |c.queue| && c.queue[k].url == t && c.queue[k].depth <= maxDepth;
    assert (c.queue[1..] + pushed)[k - 1] == c.queue[k];
  }

  /** A pushed entry within the depth limit is pending. */
  lemma NewLinkPending(rest: seq<Entry>, pushed: seq<Entry>, x: Entry, maxDepth: int)
    requires x in pushed && x.depth <= maxDepth
    ensures Pending(rest + pushed, x.url, maxDepth)
  {
    var m :| 0 <= m < |pushed| && pushed[m] == x;
    assert (rest + pushed)[|rest| + m] == x;
  }

  /** The loop invariant of `CrawlPages`. */
  ghost predicate Inv(site: string -> Navigation, origin: string, start: string, maxDepth: int, maxPages: int,
                      c: Crawl, visited: set<string>)
  {
    visited == ResultUrls(c.results)
    && |c.results| <= (if maxPages < 0 then 0 else maxPages)
    && RecordsOk(site, origin, maxDepth, c) && QueueOk(origin, c)
    && (|c.results| > 0 ==> c.results[0].url == start && c.depths[0] == 0)
    && (|c.results| == 0 && maxDepth >= 0 ==> c.queue == [Entry(start, 0)])
    && QueueLinked(site, origin, start, c)
    && ReachedByLinks(site, origin, c.results, c.depths)
    && LinksCovered(site, origin, maxDepth, c)
  }

  /** Skipping a visited or too-deep head keeps the invariant. */
  lemma SkipKeepsInv(site: string -> Navigation, origin: string, start: string, maxDepth: int, maxPages: int,
                     c: Crawl, visited: set<string>)
    requires |c.queue| > 0 && Inv(site, origin, start, maxDepth, maxPages, c, visited)
    requires c.queue[0].url in visited || c.queue[0].depth > maxDepth
    ensures Inv(site, origin, start, maxDepth, maxPages, Crawl(c.results, c.depths, c.queue[1..]), visited)
  {
    SkipKeepsQueueLinked(site, origin, start, c);
    SkipKeepsCovered(site, origin, maxDepth, c);
    StepKeepsQueue(origin, c, false, PageFor(c.queue[0].url, site(c.queue[0].url)), []);
  }

  /** What the entries pushed for a recorded URL are: its own links, one
      level deeper, same-origin, and every unvisited link among them. */
  lemma PushedFacts(site: string -> Navigation, origin: string, maxDepth: int, e: Entry, seen: set<string>,
                    pushed: seq<Entry>)
    requires pushed == NewEntries(if e.depth < maxDepth then TargetsOf(site, e.url, origin) else [], seen, e.depth)
    ensures forall m :: 0 <= m < |pushed| ==> pushed[m].depth == e.depth + 1 && StartsWith(pushed[m].url, origin)
    ensures forall m :: 0 <= m < |pushed| ==> pushed[m].url in TargetsOf(site, e.url, origin)
    ensures e.depth < maxDepth ==>
              forall t :: t in TargetsOf(site, e.url, origin) && t !in seen ==> Entry(t, e.depth + 1) in pushed
  {
    PushedShape(site, origin, maxDepth, e, seen, pushed);
    PushedCover(site, origin, maxDepth, e, seen, pushed);
  }

  lemma PushedShape(site: string -> Navigation, origin: string, maxDepth: int, e: Entry, seen: set<string>,
                    pushed: seq<Entry>)
    requires pushed == NewEntries(if e.depth < maxDepth then TargetsOf(site, e.url, origin) else [], seen, e.depth)
    ensures forall m :: 0 <= m < |pushed| ==> pushed[m].depth == e.depth + 1 && StartsWith(pushed[m].url, origin)
    ensures forall m :: 0 <= m < |pushed| ==> pushed[m].url in TargetsOf(site, e.url, origin)
  {
    if e.depth < maxDepth {
      PushedAreTargets(TargetsOf(site, e.url, origin), origin, seen, e.depth);
    }
  }

  lemma PushedCover(site: string -> Navigation, origin: string, maxDepth: int, e: Entry, seen: set<string>,
                    pushed: seq<Entry>)
    requires pushed == NewEntries(if e.depth < maxDepth then TargetsOf(site, e.url, origin) else [], seen, e.depth)
    ensures e.depth < maxDepth ==>
              forall t :: t in TargetsOf(site, e.url, origin) && t !in seen ==> Entry(t, e.depth + 1) in pushed
  {
  }

  /** Pushed entries are same-origin targets one level deeper. */
  lemma PushedAreTargets(ts: seq<string>, origin: string, seen: set<string>, depth: int)
    requires forall t :: t in ts ==> StartsWith(t, origin)
    ensures var pushed := NewEntries(ts, seen, depth);
            forall m :: 0 <= m < |pushed| ==>
              pushed[m].depth == depth + 1 && StartsWith(pushed[m].url, origin) && pushed[m].url in ts
  {
    var pushed := NewEntries(ts, seen, depth);
    forall m | 0 <= m < |pushed|
      ensures pushed[m].depth == depth + 1 && StartsWith(pushed[m].url, origin) && pushed[m].url in ts
    {
      assert pushed[m] in pushed;
    }
  }

  /** Recording the head and pushing its unvisited links (below the depth
      limit) keeps the invariant. */
  lemma RecordKeepsInv(site: string -> Navigation, origin: string, start: string, maxDepth: int, maxPages: int,
                       c: Crawl, visited: set<string>, pushed: seq<Entry>)
    requires |c.queue| > 0 && |c.results| < maxPages && Inv(site, origin, start, maxDepth, maxPages, c, visited)
    requires c.queue[0].url !in visited && c.queue[0].depth <= maxDepth
    requires forall m :: 0 <= m < |pushed| ==>
               pushed[m].depth == c.queue[0].depth + 1 && StartsWith(pushed[m].url, origin)
               && pushed[m].url in TargetsOf(site, c.queue[0].url, origin)
    requires c.queue[0].depth < maxDepth ==>
               forall t :: t in TargetsOf(site, c.queue[0].url, origin) && t !in visited + {c.queue[0].url}
                           ==> Entry(t, c.queue[0].depth + 1) in pushed
    ensures Inv(site, origin, start, maxDepth, maxPages,
                Crawl(c.results + [PageFor(c.queue[0].url, site(c.queue[0].url))], c.depths + [c.queue[0].depth],
                      c.queue[1..] + pushed),
                visited + {c.queue[0].url})
  {
    var e := c.queue[0];
    var page := PageFor(e.url, site(e.url));
    if |c.results| > 0 {
      assert c.results[0].url in visited;
    }
    RecordKeepsRecords(site, origin, maxDepth, c, e, c.queue[1..] + pushed);
    StepKeepsQueue(origin, c, true, page, pushed);
    RecordKeepsQueueLinked(site, origin, start, c, page, pushed);
    RecordKeepsReached(site, origin, start, c, page);
    RecordKeepsCovered(site, origin, maxDepth, c, page, pushed);
    AppendUrls(c.results, page);
  }

  /** `crawlPages`: breadth-first over same-origin links from the normalised
      base URL. Besides the records it returns the depth at which each was
      recorded. */
  method CrawlPages(site: string -> Navigation, base: Url, maxDepth: int, maxPages: int)
    returns (results: seq<PageRecord>, depths: seq<int>)
    ensures |results| == |depths|
    ensures |results| <= (if maxPages < 0 then 0 else maxPages)
    ensures forall i, j :: 0 <= i < j < |results| ==> results[i].url != results[j].url
    ensures forall i :: 0 <= i < |results| ==> 0 <= depths[i] <= maxDepth
    ensures forall i, j :: 0 <= i < j < |results| ==> depths[i] <= depths[j]
    ensures maxPages > 0 && maxDepth >= 0 ==>
              |results| > 0 && results[0].url == Href(Normalize(base)) && depths[0] == 0
    ensures forall i :: 0 <= i < |results| ==> StartsWith(results[i].url, base.origin)
    ensures forall i :: 0 <= i < |results| ==> results[i] == PageFor(results[i].url, site(results[i].url))
    ensures ReachedByLinks(site, base.origin, results, depths)
    ensures |results| < maxPages ==>
              forall j, t :: 0 <= j < |results| && depths[j] < maxDepth
                             && t in TargetsOf(site, results[j].url, base.origin)
                             ==> t in ResultUrls(results)
  {
    var origin := base.origin;
    var start := Href(Normalize(base));
    NormalizeKeepsOrigin(base);
    var visited: set<string> := {};
    var c := Crawl([], [], [Entry(start, 0)]);

    while |c.queue| > 0 && |c.results| < maxPages
      invariant Inv(site, origin, start, maxDepth, maxPages, c, visited)
      decreases maxPages - |c.results|, |c.queue|
    {
      var e := c.queue[0];
      var rest := c.queue[1..];
      if e.url in visited || e.depth > maxDepth {
        SkipKeepsInv(site, origin, start, maxDepth, maxPages, c, visited);
        c := Crawl(c.results, c.depths, rest);
      } else {
        var nav := site(e.url);
        var page := PageFor(e.url, nav);
        var links := if e.depth < maxDepth then TargetsOf(site, e.url, origin) else [];
        var pushed := NewEntries(links, visited + {e.url}, e.depth);
        PushedFacts(site, origin, maxDepth, e, visited + {e.url}, pushed);
        RecordKeepsInv(site, origin, start, maxDepth, maxPages, c, visited, pushed);
        visited := visited + {e.url};
        c := Crawl(c.results + [page], c.depths + [e.depth], rest + pushed);
      }
    }
    if |c.queue| == 0 {
      DrainedCovered(site, origin, maxDepth, c);
    }
    results, depths := c.results, c.depths;
  }
}
