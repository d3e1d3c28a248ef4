/** A small backtracking matcher for the regular expressions the runner
    applies to Playwright's output. A pattern is written as a chain of
    combinators in continuation-passing style: each combinator consumes
    part of the text starting at a position and hands every end position
    it can reach, in the order a JavaScript regex engine tries them, to
    the rest of the pattern. The first continuation that succeeds wins,
    which is exactly the backtracking order of `String.prototype.match`. */
module Matcher {
  import opened Wrappers
  import opened Text

  /** The end of the longest run of characters in `cls` starting at `p`. */
  function RunEnd(s: string, p: nat, cls: char -> bool): (e: nat)
    decreases |s| - p
    ensures p <= e
    ensures p <= |s| ==> e <= |s|
    ensures forall i :: p <= i < e ==> i < |s| && cls(s[i])
    ensures e < |s| ==> !cls(s[e])
  {
    if p < |s| && cls(s[p]) then RunEnd(s, p + 1, cls) else p
  }

  /** Tries `k` at `hi`, `hi - 1`, ..., `lo` and keeps the first success. */
  function TryDown<T>(hi: nat, lo: nat, k: nat -> Option<T>): (r: Option<T>)
    decreases hi
    ensures r.Some? ==> exists i :: lo <= i <= hi && k(i) == r
                                 && forall j :: i < j <= hi ==> k(j).None?
    ensures r.None? <==> forall i :: lo <= i <= hi ==> k(i).None?
  {
    if hi < lo then None
    else if k(hi).Some? then k(hi)
    else if hi == 0 then None
    else TryDown(hi - 1, lo, k)
  }

  /** Tries `k` at `lo`, `lo + 1`, ..., `hi` and keeps the first success. */
  function TryUp<T>(lo: nat, hi: nat, k: nat -> Option<T>): (r: Option<T>)
    decreases hi - lo
    ensures r.Some? ==> exists i :: lo <= i <= hi && k(i) == r
                                 && forall j :: lo <= j < i ==> k(j).None?
    ensures r.None? <==> forall i :: lo <= i <= hi ==> k(i).None?
  {
    if hi < lo then None
    else if k(lo).Some? then k(lo)
    else TryUp(lo + 1, hi, k)
  }

  /** `cls{min,}`, greedy: the longest run first. */
  function Greedy<T>(s: string, p: nat, cls: char -> bool, min: nat, k: nat -> Option<T>): Option<T> {
    TryDown(RunEnd(s, p, cls), p + min, k)
  }

  /** `cls{min,}?`, lazy: the shortest run first. */
  function Lazy<T>(s: string, p: nat, cls: char -> bool, min: nat, k: nat -> Option<T>): Option<T> {
    TryUp(p + min, RunEnd(s, p, cls), k)
  }

  /** `cls?`, greedy. */
  function Opt<T>(s: string, p: nat, cls: char -> bool, k: nat -> Option<T>): Option<T> {
    if p < |s| && cls(s[p]) && k(p + 1).Some? then k(p + 1) else k(p)
  }

  /** A literal. */
  function Lit<T>(s: string, p: nat, lit: string, k: nat -> Option<T>): Option<T> {
    if OccursAt(s, lit, p) then k(p + |lit|) else None
  }

  /** `(?:lit)?`, greedy. */
  function OptLit<T>(s: string, p: nat, lit: string, k: nat -> Option<T>): Option<T> {
    if OccursAt(s, lit, p) && k(p + |lit|).Some? then k(p + |lit|) else k(p)
  }

  /** A literal under the `i` flag; `lit` is given in lower case. Without the
      `u` flag JavaScript never folds a non-ASCII character onto an ASCII
      one, so ASCII folding decides every comparison with an ASCII
      literal. */
  function LitCI<T>(s: string, p: nat, lit: string, k: nat -> Option<T>): Option<T> {
    if p + |lit| <= |s| && Lower(s[p..p + |lit|]) == lit then k(p + |lit|) else None
  }

  /** `s[a..b]`, empty when the bounds are out of order; every capture the
      patterns take lies within bounds. */
  function Slice(s: string, a: nat, b: nat): (r: string)
    ensures a <= b <= |s| ==> r == s[a..b]
  {
    if a <= b <= |s| then s[a..b] else ""
  }

  /** The leftmost start position in `from..last` at which the pattern
      `at` matches: `String.prototype.match` without the `g` flag. */
  function SearchFrom<T>(last: nat, from: nat, at: nat -> Option<T>): (r: Option<T>)
    decreases last + 1 - from
    ensures r.Some? ==> exists i :: from <= i <= last && at(i) == r
                                 && forall j :: from <= j < i ==> at(j).None?
    ensures r.None? <==> forall i :: from <= i <= last ==> at(i).None?
  {
    if from > last then None
    else if at(from).Some? then at(from)
    else SearchFrom(last, from + 1, at)
  }

  /** The first match is at `i` when the pattern matches there and nowhere
      before. */
  lemma SearchFindsFirst<T>(last: nat, at: nat -> Option<T>, i: nat)
    requires i <= last && at(i).Some?
    requires forall j :: 0 <= j < i ==> at(j).None?
    ensures SearchFrom(last, 0, at) == at(i)
  {
  }

  /** `parseInt` of a string that starts with a digit run: the value of
      that run. */
  function LeadingValue(s: string): (n: nat)
    ensures AllDigits(s) ==> n == DecimalValue(s)
  {
    var e := RunEnd(s, 0, IsDigit);
    assert AllDigits(s) ==> e == |s|;
    assert AllDigits(s) ==> s[..e] == s;
    assert AllDigits(s[..e]);
    DecimalValue(s[..e])
  }
}
