/** URLs as the WHATWG parser exposes them. Parsing and serialisation
    themselves are not modelled: a parsed URL is a record of its parts and
    its `href` is their concatenation. */
module Urls {
  import opened Text

  /** `origin` is scheme, host and port ("https://example.com:8080");
      `query` is "" or starts with '?'; `fragment` is "" or starts with '#'. */
  datatype Url = Url(origin: string, hostname: string, path: string, query: string, fragment: string)

  /** A string handed to `new URL(...)`: either it parses or the
      constructor throws. */
  datatype RawUrl = Parsed(url: Url) | Malformed(text: string)

  function Href(u: Url): string {
    u.origin + u.path + u.query + u.fragment
  }

  /** A URL's `href` always starts with its own origin. */
  lemma HrefStartsWithOrigin(u: Url)
    ensures StartsWith(Href(u), u.origin)
  {
    assert Href(u)[..|u.origin|] == u.origin;
  }

  /** The trailing-slash rule of `normalizeUrl`: a path other than "/"
      that ends in '/' loses exactly one '/'. */
  predicate TrimsSlash(path: string) {
    path != "/" && EndsWith(path, "/")
  }

  /** `normalizeUrl` on a parsed URL: the fragment is cleared and one
      trailing '/' is removed from any path but the root. */
  function Normalize(u: Url): (r: Url)
    ensures r.fragment == ""
    ensures r.origin == u.origin && r.hostname == u.hostname && r.query == u.query
    ensures TrimsSlash(u.path) ==> r.path + "/" == u.path
    ensures !TrimsSlash(u.path) ==> r.path == u.path
  {
    var p := if TrimsSlash(u.path) then u.path[..|u.path| - 1] else u.path;
    Url(u.origin, u.hostname, p, u.query, "")
  }

  /** `normalizeUrl(url)`: the normalised href, or the input unchanged
      when it does not parse. */
  function NormalizeUrl(raw: RawUrl): (r: string)
    ensures raw.Malformed? ==> r == raw.text
    ensures raw.Parsed? ==> r == Href(Normalize(raw.url))
  {
    match raw
    case Parsed(u) => Href(Normalize(u))
    case Malformed(s) => s
  }

  /** A normalised URL keeps its origin as a prefix. */
  lemma NormalizeKeepsOrigin(u: Url)
    ensures StartsWith(Href(Normalize(u)), u.origin)
  {
    HrefStartsWithOrigin(Normalize(u));
  }

  /** Normalisation is idempotent exactly when the path does not end in
      "//" with something before it: "/a//" becomes "/a/" and then "/a". */
  lemma NormalizeIdempotentIff(u: Url)
    ensures Normalize(Normalize(u)) == Normalize(u)
            <==> !(|u.path| >= 3 && EndsWith(u.path, "//"))
  {
    var p := u.path;
    var q := Normalize(u).path;
    if |p| >= 3 && EndsWith(p, "//") {
      assert TrimsSlash(p);
      assert q == p[..|p| - 1];
      assert q[|q| - 1] == '/';
      assert q != "/" by {
        assert |q| >= 2;
      }
      assert TrimsSlash(q);
      assert Normalize(Normalize(u)).path != q;
    }
  }

  /** A concrete witness: "/a//" normalises to "/a/" and then to "/a". */
  lemma NormalizeNotIdempotentWitness()
    ensures var u := Url("http://h", "h", "/a//", "", "");
            Normalize(u).path == "/a/" && Normalize(Normalize(u)).path == "/a"
  {
  }
}
