/** Deduplication and tagging of discovered records (engine/classifier.js):
    pages by URL, endpoints by "method:url" with the auth tag, forms by
    "page:action:method" with the login tag. */
module Classifier {
  import opened Wrappers
  import opened Text
  import opened Seqs
  import opened Records

  function PageKey(p: PageRecord): string {
    p.url
  }

  /** `classifyPages`: the first record of every URL, in order. */
  function ClassifyPages(pages: seq<PageRecord>): (r: seq<PageRecord>)
    ensures IsSubsequence(r, pages)
    ensures forall i, j :: 0 <= i < j < |r| ==> r[i].url != r[j].url
    ensures KeySet(r, PageKey) == KeySet(pages, PageKey)
    ensures forall i :: 0 <= i < |r| ==> FirstWithKey(pages, PageKey, r[i].url) == Some(r[i])
  {
    DedupBy(pages, PageKey)
  }

  /** A 401 or 403 response marks the endpoint as requiring auth; an
      endpoint already marked stays marked. */
  function TagAuth(a: ApiRecord): (r: ApiRecord)
    ensures r.requiresAuth <==> a.requiresAuth || a.responseStatus == 401 || a.responseStatus == 403
    ensures r.(requiresAuth := a.requiresAuth) == a
  {
    if a.responseStatus == 401 || a.responseStatus == 403 then a.(requiresAuth := true) else a
  }

  /** `classifyApis`: the first record of every method/url key, tagged. */
  function ClassifyApis(apis: seq<ApiRecord>): (r: seq<ApiRecord>)
    ensures |r| == |DedupBy(apis, ApiKey)|
    ensures forall i, j :: 0 <= i < j < |r| ==> ApiKey(r[i]) != ApiKey(r[j])
    ensures KeySet(r, ApiKey) == KeySet(apis, ApiKey)
    ensures forall i :: 0 <= i < |r| ==>
              exists a :: FirstWithKey(apis, ApiKey, ApiKey(r[i])) == Some(a) && r[i] == TagAuth(a)
  {
    var d := DedupBy(apis, ApiKey);
    var r := seq(|d|, i requires 0 <= i < |d| => TagAuth(d[i]));
    assert forall i :: 0 <= i < |d| ==> ApiKey(r[i]) == ApiKey(d[i]);
    assert KeySet(r, ApiKey) == KeySet(d, ApiKey);
    r
  }

  /** The form key "page_url:action:method". */
  function FormKey(f: FormRecord): string {
    f.pageUrl + ":" + f.action + ":" + f.httpMethod
  }

  /** A field looks like a username: type email, or a name matching
      /user|email|login/i. */
  predicate UsernameLike(fi: FormField) {
    fi.fieldType == "email" || ContainsCI(fi.name, "user") || ContainsCI(fi.name, "email")
    || ContainsCI(fi.name, "login")
  }

  /** A login form has a password field and a username-like field. */
  predicate IsLoginFields(fields: seq<FormField>) {
    (exists i :: 0 <= i < |fields| && fields[i].fieldType == "password")
    && (exists i :: 0 <= i < |fields| && UsernameLike(fields[i]))
  }

  /** The login tag; fields that do not decode tag the form as not login. */
  function TagLogin(f: FormRecord): (r: FormRecord)
    ensures r.(isLoginForm := f.isLoginForm) == f
    ensures r.isLoginForm <==> f.fields.Encoded? && IsLoginFields(f.fields.fields)
  {
    match f.fields
    case Encoded(fs) => f.(isLoginForm := IsLoginFields(fs))
    case Unparseable(_) => f.(isLoginForm := false)
  }

  /** `classifyForms`: the first record of every form key, tagged. */
  function ClassifyForms(forms: seq<FormRecord>): (r: seq<FormRecord>)
    ensures |r| == |DedupBy(forms, FormKey)|
    ensures forall i, j :: 0 <= i < j < |r| ==> FormKey(r[i]) != FormKey(r[j])
    ensures KeySet(r, FormKey) == KeySet(forms, FormKey)
    ensures forall i :: 0 <= i < |r| ==>
              exists f :: FirstWithKey(forms, FormKey, FormKey(r[i])) == Some(f) && r[i] == TagLogin(f)
  {
    var d := DedupBy(forms, FormKey);
    var r := seq(|d|, i requires 0 <= i < |d| => TagLogin(d[i]));
    assert forall i :: 0 <= i < |d| ==> FormKey(r[i]) == FormKey(d[i]);
    assert KeySet(r, FormKey) == KeySet(d, FormKey);
    r
  }

  /** Classifying pages twice changes nothing. */
  lemma ClassifyPagesIdempotent(pages: seq<PageRecord>)
    ensures ClassifyPages(ClassifyPages(pages)) == ClassifyPages(pages)
  {
    DedupIdempotent(pages, PageKey);
  }

  /** The form key is ambiguous: two forms with different pages and
      actions can share a key, and the second is then dropped. */
  lemma FormKeyAmbiguous()
    ensures var f1 := FormRecord("https://a.test/x", "b:c", "GET", Encoded([]), false);
            var f2 := FormRecord("https://a.test/x:b", "c", "GET", Encoded([]), false);
            f1.pageUrl != f2.pageUrl && FormKey(f1) == FormKey(f2)
            && |ClassifyForms([f1, f2])| == 1
  {
    var f1 := FormRecord("https://a.test/x", "b:c", "GET", Encoded([]), false);
    var f2 := FormRecord("https://a.test/x:b", "c", "GET", Encoded([]), false);
    assert FormKey(f1) == FormKey(f2);
    var k := FormKey(f1);
    assert [f1, f2][1..] == [f2] && [f2][1..] == [];
    assert DedupFrom([f2], FormKey, {k}) == [];
    var empty: set<string> := {};
    assert empty + {k} == {k};
    assert DedupFrom([f1, f2], FormKey, empty) == [f1] + DedupFrom([f2], FormKey, empty + {k});
    assert DedupBy([f1, f2], FormKey) == [f1];
  }

  /** A form tagged as login has a password field and a username-like
      field, and every such decodable form is tagged. */
  lemma LoginTagIff(f: FormRecord)
    ensures TagLogin(f).isLoginForm <==>
              f.fields.Encoded?
              && (exists i :: 0 <= i < |f.fields.fields| && f.fields.fields[i].fieldType == "password")
              && (exists i :: 0 <= i < |f.fields.fields| && UsernameLike(f.fields.fields[i]))
  {
  }
}
