/** Endpoint capture and probing (engine/api-interceptor.js): XHR/fetch
    responses seen while the browser crawls, and GET probes of a fixed list
    of common API paths. The browser's response events and the HTTP client
    are inputs. */
module ApiInterceptor {
  import opened Wrappers
  import opened Text
  import opened Seqs
  import opened Records

  /** A response event as the listener sees it. `contentType` is None when
      the header is absent. */
  datatype Response = Response(resourceType: string, requestMethod: string, url: string, status: int,
                               contentType: Option<string>)

  /** `response_type`: the media type before the first ';', trimmed; "" when
      the header is missing. */
  function ResponseType(contentType: Option<string>): (r: string)
    ensures !Contains(r, ";")
    ensures |r| > 0 ==> !IsJsSpace(r[0]) && !IsJsSpace(r[|r| - 1])
    ensures contentType.None? ==> r == ""
    ensures exists lo, hi :: 0 <= lo <= hi <= |contentType.GetOr("")| && r == contentType.GetOr("")[lo..hi]
  {
    var ct := contentType.GetOr("");
    var head := BeforeFirst(ct, ";");
    var r := Trim(head);
    var lo := |head| - |TrimStart(head)|;
    TrimIsSlice(head);
    SliceOfPrefix(ct, head, lo, lo + |r|);
    NoSemicolonInSlice(head, lo, lo + |r|);
    r
  }

  /** The trimmed text is the slice after the leading white space. */
  lemma TrimIsSlice(s: string)
    ensures |s| - |TrimStart(s)| + |Trim(s)| <= |s|
    ensures Trim(s) == s[|s| - |TrimStart(s)|..|s| - |TrimStart(s)| + |Trim(s)|]
  {
  }

  /** A slice of a prefix is a slice of the whole. */
  lemma SliceOfPrefix(s: string, head: string, lo: nat, hi: nat)
    requires StartsWith(s, head) && lo <= hi <= |head|
    ensures head[lo..hi] == s[lo..hi]
  {
    assert head == s[..|head|];
  }

  /** A slice of text without ';' has none either. */
  lemma NoSemicolonInSlice(s: string, lo: nat, hi: nat)
    requires lo <= hi <= |s| && !Contains(s, ";")
    ensures !Contains(s[lo..hi], ";")
  {
    ContainsIff(s[lo..hi], ";");
    ContainsIff(s, ";");
    if Contains(s[lo..hi], ";") {
      var k: nat :| OccursAt(s[lo..hi], ";", k);
      assert s[lo..hi][k..k + 1] == [s[lo..hi][k]];
      assert s[lo..hi][k] == s[lo + k];
      assert s[lo + k..lo + k + 1] == [s[lo + k]];
      assert OccursAt(s, ";", lo + k);
    }
  }

  /** The listener keeps XHR and fetch responses from the base origin. */
  predicate Captures(origin: string, resp: Response) {
    (resp.resourceType == "xhr" || resp.resourceType == "fetch") && StartsWith(resp.url, origin)
  }

  /** The endpoint record a captured response becomes. */
  function RecordOf(resp: Response): ApiRecord {
    ApiRecord(resp.requestMethod, resp.url, resp.status, ResponseType(resp.contentType), false)
  }

  /** The interceptor handle: the base origin, what was captured, and
      whether the listener is still attached. */
  datatype Interceptor = Interceptor(origin: string, captured: seq<ApiRecord>, listening: bool)

  /** `interceptApis`: attach a listener with nothing captured. */
  function Intercept(origin: string): (s: Interceptor)
    ensures s.listening && s.captured == [] && s.origin == origin
  {
    Interceptor(origin, [], true)
  }

  /** One response event. */
  function OnResponse(s: Interceptor, resp: Response): (t: Interceptor)
    ensures t.origin == s.origin && t.listening == s.listening
    ensures s.listening && Captures(s.origin, resp) ==> t.captured == s.captured + [RecordOf(resp)]
    ensures !(s.listening && Captures(s.origin, resp)) ==> t.captured == s.captured
  {
    if s.listening && Captures(s.origin, resp) then s.(captured := s.captured + [RecordOf(resp)]) else s
  }

  /** A run of response events, in order. */
  function OnResponses(s: Interceptor, resps: seq<Response>): Interceptor
    decreases |resps|
  {
    if |resps| == 0 then s else OnResponses(OnResponse(s, resps[0]), resps[1..])
  }

  /** `stop`: detach the listener. */
  function Stop(s: Interceptor): (t: Interceptor)
    ensures !t.listening && t.captured == s.captured
  {
    s.(listening := false)
  }

  /** `deduplicateApis`: the first record of every method/url key. */
  function DeduplicateApis(apis: seq<ApiRecord>): (r: seq<ApiRecord>)
    ensures IsSubsequence(r, apis)
    ensures forall i, j :: 0 <= i < j < |r| ==> ApiKey(r[i]) != ApiKey(r[j])
    ensures KeySet(r, ApiKey) == KeySet(apis, ApiKey)
    ensures forall i :: 0 <= i < |r| ==> FirstWithKey(apis, ApiKey, ApiKey(r[i])) == Some(r[i])
  {
    DedupBy(apis, ApiKey)
  }

  /** The records a run of events captures, computed directly. */
  function CapturedFrom(origin: string, resps: seq<Response>): seq<ApiRecord>
    decreases |resps|
  {
    if |resps| == 0 then []
    else (if Captures(origin, resps[0]) then [RecordOf(resps[0])] else []) + CapturedFrom(origin, resps[1..])
  }

  /** While listening, the captured list grows by exactly the records of
      the qualifying responses, in arrival order. */
  lemma {:induction false} ListeningCaptures(s: Interceptor, resps: seq<Response>)
    requires s.listening
    ensures OnResponses(s, resps) == s.(captured := s.captured + CapturedFrom(s.origin, resps))
    decreases |resps|
  {
    if |resps| > 0 {
      var t := OnResponse(s, resps[0]);
      ListeningCaptures(t, resps[1..]);
      var head := if Captures(s.origin, resps[0]) then [RecordOf(resps[0])] else [];
      assert t.captured == s.captured + head;
      ConcatAssoc(s.captured, head, CapturedFrom(s.origin, resps[1..]));
    }
  }

  /** Every captured record is an XHR/fetch response from the origin. */
  lemma {:induction false} CapturedQualify(origin: string, resps: seq<Response>)
    ensures forall a :: a in CapturedFrom(origin, resps) ==>
              exists r :: r in resps && Captures(origin, r) && a == RecordOf(r)
    decreases |resps|
  {
    if |resps| > 0 {
      CapturedQualify(origin, resps[1..]);
      forall a | a in CapturedFrom(origin, resps)
        ensures exists r :: r in resps && Captures(origin, r) && a == RecordOf(r)
      {
        if Captures(origin, resps[0]) && a == RecordOf(resps[0]) {
        } else {
          assert a in CapturedFrom(origin, resps[1..]);
          var r :| r in resps[1..] && Captures(origin, r) && a == RecordOf(r);
          assert r in resps;
        }
      }
    }
  }

  /** After `stop`, response events change nothing. */
  lemma {:induction false} StoppedIgnores(s: Interceptor, resps: seq<Response>)
    requires !s.listening
    ensures OnResponses(s, resps) == s
    decreases |resps|
  {
    if |resps| > 0 {
      StoppedIgnores(OnResponse(s, resps[0]), resps[1..]);
    }
  }

  /** The probed paths, in probing order. */
  const CommonApiPaths: seq<string> :=
    ["/api", "/api/v1", "/api/v2", "/graphql", "/api/health", "/api/status", "/api/users", "/api/auth"]

  /** A GET probe: it throws (unreachable, timeout) or answers. */
  datatype ProbeOutcome = Unreachable | Answered(status: int, contentType: Option<string>)

  /** The probe of one path: a GET endpoint when it answers below 500. */
  function ProbeOne(origin: string, p: string, probe: string -> ProbeOutcome): (r: Option<ApiRecord>)
    ensures r.Some? <==> probe(origin + p).Answered? && probe(origin + p).status < 500
    ensures r.Some? ==> r.value == ApiRecord("GET", origin + p, probe(origin + p).status,
                                             ResponseType(probe(origin + p).contentType), false)
  {
    match probe(origin + p)
    case Unreachable => None
    case Answered(status, ct) =>
      if status < 500 then Some(ApiRecord("GET", origin + p, status, ResponseType(ct), false)) else None
  }

  /** The probes of `paths` under the origin, in order; failures and 5xx
      answers leave no record. */
  function ProbePaths(origin: string, paths: seq<string>, probe: string -> ProbeOutcome): (r: seq<ApiRecord>)
    ensures |r| <= |paths|
    ensures forall a :: a in r ==> exists p :: p in paths && ProbeOne(origin, p, probe) == Some(a)
    ensures r == FilterMap(paths, p => ProbeOne(origin, p, probe))
    decreases |paths|
  {
    if |paths| == 0 then []
    else
      var rest := ProbePaths(origin, paths[1..], probe);
      assert forall p :: p in paths[1..] ==> p in paths;
      match ProbeOne(origin, paths[0], probe)
      case None => rest
      case Some(a) => [a] + rest
  }

  /** Every path that answers below 500 has its record. */
  lemma {:induction false} ProbeComplete(origin: string, paths: seq<string>, probe: string -> ProbeOutcome, p: string)
    requires p in paths && ProbeOne(origin, p, probe).Some?
    ensures ProbeOne(origin, p, probe).value in ProbePaths(origin, paths, probe)
    decreases |paths|
  {
    if paths[0] != p {
      assert p in paths[1..];
      ProbeComplete(origin, paths[1..], probe, p);
    }
  }

  /** `probeCommonApis`: at most one GET record per common path, in the
      fixed probing order, each for an answer below 500 and carrying that
      answer's status and content type. */
  function ProbeCommonApis(origin: string, probe: string -> ProbeOutcome): (r: seq<ApiRecord>)
    ensures |r| <= 8
    ensures r == FilterMap(CommonApiPaths, p => ProbeOne(origin, p, probe))
    ensures forall a :: a in r ==>
              a.httpMethod == "GET" && a.responseStatus < 500 && !a.requiresAuth
              && exists p :: p in CommonApiPaths && a.url == origin + p
    ensures forall a :: a in r ==>
              probe(a.url).Answered? && a.responseStatus == probe(a.url).status
              && a.responseType == ResponseType(probe(a.url).contentType)
    ensures forall p :: p in CommonApiPaths && probe(origin + p).Answered? && probe(origin + p).status < 500
                        ==> exists a :: a in r && a.url == origin + p
  {
    var r := ProbePaths(origin, CommonApiPaths, probe);
    forall p | p in CommonApiPaths && probe(origin + p).Answered? && probe(origin + p).status < 500
      ensures exists a :: a in r && a.url == origin + p
    {
      ProbeComplete(origin, CommonApiPaths, probe, p);
    }
    r
  }

  /** Equal texts with the same prefix have equal remainders. */
  lemma ConcatInjective(origin: string, p: string, q: string)
    requires origin + p == origin + q
    ensures p == q
  {
    assert p == (origin + p)[|origin|..];
    assert q == (origin + q)[|origin|..];
  }

  /** A path not probed yields no record for its URL. */
  lemma UrlNotProbed(origin: string, paths: seq<string>, probe: string -> ProbeOutcome, q: string)
    requires q !in paths
    ensures forall a :: a in ProbePaths(origin, paths, probe) ==> a.url != origin + q
  {
    forall a | a in ProbePaths(origin, paths, probe) ensures a.url != origin + q {
      var p :| p in paths && ProbeOne(origin, p, probe) == Some(a);
      if a.url == origin + q {
        ConcatInjective(origin, p, q);
      }
    }
  }

  /** Prepending a record whose URL the rest lacks keeps URLs distinct. */
  lemma ConsUrlsDistinct(a: ApiRecord, rest: seq<ApiRecord>)
    requires forall i, j :: 0 <= i < j < |rest| ==> rest[i].url != rest[j].url
    requires forall b :: b in rest ==> b.url != a.url
    ensures forall i, j :: 0 <= i < j < |[a] + rest| ==> ([a] + rest)[i].url != ([a] + rest)[j].url
  {
    var r := [a] + rest;
    forall i, j | 0 <= i < j < |r| ensures r[i].url != r[j].url {
      assert r[j] == rest[j - 1] && r[j] in rest;
      if i > 0 {
        assert r[i] == rest[i - 1];
      }
    }
  }

  /** Distinct paths give records with distinct URLs. */
  lemma {:induction false} ProbeUrlsDistinct(origin: string, paths: seq<string>, probe: string -> ProbeOutcome)
    requires Distinct(paths)
    ensures forall i, j :: 0 <= i < j < |ProbePaths(origin, paths, probe)| ==>
              ProbePaths(origin, paths, probe)[i].url != ProbePaths(origin, paths, probe)[j].url
    decreases |paths|
  {
    if |paths| > 0 {
      var rest := ProbePaths(origin, paths[1..], probe);
      assert Distinct(paths[1..]) by {
        forall i, j | 0 <= i < j < |paths[1..]| ensures paths[1..][i] != paths[1..][j] {
          assert paths[1..][i] == paths[i + 1] && paths[1..][j] == paths[j + 1];
        }
      }
      ProbeUrlsDistinct(origin, paths[1..], probe);
      var r := ProbePaths(origin, paths, probe);
      if ProbeOne(origin, paths[0], probe).Some? {
        assert r == [r[0]] + rest && r[0].url == origin + paths[0];
        assert paths[0] !in paths[1..] by {
          forall k | 0 <= k < |paths[1..]| ensures paths[1..][k] != paths[0] {
            assert paths[1..][k] == paths[k + 1];
          }
        }
        UrlNotProbed(origin, paths[1..], probe, paths[0]);
        ConsUrlsDistinct(r[0], rest);
      } else {
        assert r == rest;
      }
    }
  }

  /** The common paths are distinct, so probing yields one record per URL
      at most. */
  lemma CommonProbeUrlsDistinct(origin: string, probe: string -> ProbeOutcome)
    ensures forall i, j :: 0 <= i < j < |ProbeCommonApis(origin, probe)| ==>
              ProbeCommonApis(origin, probe)[i].url != ProbeCommonApis(origin, probe)[j].url
  {
    ProbeUrlsDistinct(origin, CommonApiPaths, probe);
  }
}
