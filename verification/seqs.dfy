/** Sequence vocabulary shared by the pipeline: order-preserving filters,
    `slice(0, n)`, and the first-occurrence deduplication that every
    `seen = new Set()` filter in the source performs. */
module Seqs {
  import opened Wrappers

  /** Concatenation is associative; stated on its own so that callers need
      no extensional reasoning about their particular sequences. */
  lemma ConcatAssoc<T>(h: seq<T>, x: seq<T>, y: seq<T>)
    ensures h + (x + y) == (h + x) + y
  {
  }

  /** `xs` is `ys` with some elements dropped, order preserved. */
  predicate IsSubsequence<T(==)>(xs: seq<T>, ys: seq<T>)
    decreases |ys|
  {
    if |xs| == 0 then true
    else if |ys| == 0 then false
    else if xs[0] == ys[0] then IsSubsequence(xs[1..], ys[1..])
    else IsSubsequence(xs, ys[1..])
  }

  lemma {:induction false} SubsequenceRefl<T>(xs: seq<T>)
    ensures IsSubsequence(xs, xs)
    decreases |xs|
  {
    if |xs| > 0 {
      SubsequenceRefl(xs[1..]);
    }
  }

  /** Every element of a subsequence is an element of the whole. */
  lemma {:induction false} SubsequenceMembers<T>(xs: seq<T>, ys: seq<T>)
    requires IsSubsequence(xs, ys)
    ensures forall x :: x in xs ==> x in ys
    decreases |ys|
  {
    if |xs| > 0 && |ys| > 0 {
      if xs[0] == ys[0] {
        SubsequenceMembers(xs[1..], ys[1..]);
        forall x | x in xs ensures x in ys {
          if x != xs[0] {
            assert x in xs[1..];
          }
        }
      } else {
        SubsequenceMembers(xs, ys[1..]);
      }
    }
  }

  /** A subsequence is never longer than the whole. */
  lemma {:induction false} SubsequenceLength<T>(xs: seq<T>, ys: seq<T>)
    requires IsSubsequence(xs, ys)
    ensures |xs| <= |ys|
    decreases |ys|
  {
    if |xs| > 0 && |ys| > 0 {
      if xs[0] == ys[0] {
        SubsequenceLength(xs[1..], ys[1..]);
      } else {
        SubsequenceLength(xs, ys[1..]);
      }
    }
  }

  /** Dropping the head of a subsequence keeps it a subsequence. */
  lemma {:induction false} SubsequenceTail<T>(xs: seq<T>, ys: seq<T>)
    requires |xs| > 0 && IsSubsequence(xs, ys)
    ensures IsSubsequence(xs[1..], ys)
    decreases |ys|, 0
  {
    if xs[0] == ys[0] {
      SubsequenceCons(xs[1..], ys[0], ys[1..]);
      assert [ys[0]] + ys[1..] == ys;
    } else {
      SubsequenceTail(xs, ys[1..]);
      SubsequenceCons(xs[1..], ys[0], ys[1..]);
      assert [ys[0]] + ys[1..] == ys;
    }
  }

  /** A subsequence of `ys` is a subsequence of `ys` with one more element
      in front. */
  lemma {:induction false} SubsequenceCons<T>(xs: seq<T>, y: T, ys: seq<T>)
    requires IsSubsequence(xs, ys)
    ensures IsSubsequence(xs, [y] + ys)
    decreases |ys|, 1
  {
    var zs := [y] + ys;
    assert zs[1..] == ys;
    if |xs| > 0 && xs[0] == y {
      SubsequenceTail(xs, ys);
    }
  }

  /** A subsequence of a suffix is a subsequence of the whole. */
  lemma {:induction false} SubsequenceOfSuffix<T>(xs: seq<T>, ys: seq<T>, k: nat)
    requires k <= |ys| && IsSubsequence(xs, ys[k..])
    ensures IsSubsequence(xs, ys)
    decreases k
  {
    if k > 0 {
      assert ys[k - 1..] == [ys[k - 1]] + ys[k..];
      SubsequenceCons(xs, ys[k - 1], ys[k..]);
      SubsequenceOfSuffix(xs, ys, k - 1);
    }
  }

  /** Putting a non-empty sequence's head back in front of its tail. */
  lemma ConsTail<T>(xs: seq<T>, ys: seq<T>)
    requires |xs| > 0
    ensures [xs[0]] + (xs[1..] + ys) == xs + ys
  {
  }

  lemma AppendSnoc<T>(xs: seq<T>, ys: seq<T>, z: T)
    ensures xs + (ys + [z]) == (xs + ys) + [z]
  {
  }

  /** Sequences that agree after one element is appended to each agree
      before. */
  lemma SnocInjective<T>(xs: seq<T>, x: T, ys: seq<T>, y: T)
    requires xs + [x] == ys + [y]
    ensures xs == ys && x == y
  {
    assert xs == (xs + [x])[..|xs|];
    assert ys == (ys + [y])[..|ys|];
  }

  /** Distinct elements. */
  predicate Distinct<T(==)>(xs: seq<T>) {
    forall i, j :: 0 <= i < j < |xs| ==> xs[i] != xs[j]
  }

  /** `xs.filter(p)`. */
  function Filter<T>(xs: seq<T>, p: T -> bool): (r: seq<T>)
    ensures |r| <= |xs|
    ensures forall x :: x in r ==> x in xs && p(x)
    ensures forall x :: x in xs && p(x) ==> x in r
  {
    if |xs| == 0 then []
    else if p(xs[0]) then [xs[0]] + Filter(xs[1..], p)
    else Filter(xs[1..], p)
  }

  lemma {:induction false} FilterIsSubsequence<T>(xs: seq<T>, p: T -> bool)
    ensures IsSubsequence(Filter(xs, p), xs)
  {
    if |xs| > 0 {
      FilterIsSubsequence(xs[1..], p);
    }
  }

  /** Number of elements satisfying `p`: `xs.filter(p).length`. */
  function Count<T>(xs: seq<T>, p: T -> bool): (n: nat)
    ensures n == |Filter(xs, p)|
    ensures n <= |xs|
  {
    if |xs| == 0 then 0
    else (if p(xs[0]) then 1 else 0) + Count(xs[1..], p)
  }

  /** Counting distributes over concatenation. */
  lemma {:induction false} CountAppend<T>(xs: seq<T>, ys: seq<T>, p: T -> bool)
    ensures Count(xs + ys, p) == Count(xs, p) + Count(ys, p)
    decreases |xs|
  {
    if |xs| == 0 {
      assert xs + ys == ys;
    } else {
      assert (xs + ys)[0] == xs[0] && (xs + ys)[1..] == xs[1..] + ys;
      CountAppend(xs[1..], ys, p);
    }
  }

  /** Filtering distributes over concatenation. */
  lemma {:induction false} FilterAppend<T>(xs: seq<T>, ys: seq<T>, p: T -> bool)
    ensures Filter(xs + ys, p) == Filter(xs, p) + Filter(ys, p)
    decreases |xs|
  {
    if |xs| == 0 {
      assert xs + ys == ys;
    } else {
      assert (xs + ys)[0] == xs[0] && (xs + ys)[1..] == xs[1..] + ys;
      FilterAppend(xs[1..], ys, p);
    }
  }

  /** A sequence all of whose elements satisfy `p` counts fully; one none
      of whose elements do counts zero. */
  lemma {:induction false} CountUniform<T>(xs: seq<T>, p: T -> bool)
    ensures (forall i :: 0 <= i < |xs| ==> p(xs[i])) ==> Count(xs, p) == |xs|
    ensures (forall i :: 0 <= i < |xs| ==> !p(xs[i])) ==> Count(xs, p) == 0
    decreases |xs|
  {
    if |xs| > 0 {
      assert forall i :: 0 <= i < |xs[1..]| ==> xs[1..][i] == xs[i + 1];
      CountUniform(xs[1..], p);
    }
  }

  /** The values `f` produces along `xs`, in order, skipping its Nones. */
  function FilterMap<A, B>(xs: seq<A>, f: A -> Option<B>): (r: seq<B>)
    ensures |r| <= |xs|
  {
    if |xs| == 0 then []
    else (if f(xs[0]).Some? then [f(xs[0]).value] else []) + FilterMap(xs[1..], f)
  }

  /** Extending the input by one element extends the output by at most
      that element's value. */
  lemma {:induction false} FilterMapSnoc<A, B>(xs: seq<A>, x: A, f: A -> Option<B>)
    ensures FilterMap(xs + [x], f) == FilterMap(xs, f) + (if f(x).Some? then [f(x).value] else [])
    decreases |xs|
  {
    if |xs| == 0 {
      assert xs + [x] == [x];
      assert [x][1..] == [];
    } else {
      var h := if f(xs[0]).Some? then [f(xs[0]).value] else [];
      var t := if f(x).Some? then [f(x).value] else [];
      assert (xs + [x])[0] == xs[0] && (xs + [x])[1..] == xs[1..] + [x];
      calc {
        FilterMap(xs + [x], f);
        h + FilterMap(xs[1..] + [x], f);
        { FilterMapSnoc(xs[1..], x, f); }
        h + (FilterMap(xs[1..], f) + t);
        { ConcatAssoc(h, FilterMap(xs[1..], f), t); }
        (h + FilterMap(xs[1..], f)) + t;
        FilterMap(xs, f) + t;
      }
    }
  }

  /** `xs.slice(0, n)`. */
  function Prefix<T>(xs: seq<T>, n: nat): (r: seq<T>)
    ensures |r| == if n < |xs| then n else |xs|
    ensures r == xs[..|r|]
  {
    if n < |xs| then xs[..n] else xs
  }

  /** The keys occurring in `xs`. */
  function KeySet<T, K>(xs: seq<T>, key: T -> K): set<K> {
    set i | 0 <= i < |xs| :: key(xs[i])
  }

  /** The first element of `xs` whose key is `k`. */
  function FirstWithKey<T, K(==)>(xs: seq<T>, key: T -> K, k: K): Option<T> {
    if |xs| == 0 then None
    else if key(xs[0]) == k then Some(xs[0])
    else FirstWithKey(xs[1..], key, k)
  }

  /** The `seen`-set filter: keep an element when its key has not been seen
      yet, then mark the key as seen. The result keeps, in order, exactly the
      first element of every key not in `seen`. */
  function DedupFrom<T(==), K(==)>(xs: seq<T>, key: T -> K, seen: set<K>): (r: seq<T>)
    decreases |xs|
    ensures IsSubsequence(r, xs)
    ensures forall i, j :: 0 <= i < j < |r| ==> key(r[i]) != key(r[j])
    ensures forall i :: 0 <= i < |r| ==> key(r[i]) !in seen
    ensures KeySet(r, key) == KeySet(xs, key) - seen
    ensures forall i :: 0 <= i < |r| ==> FirstWithKey(xs, key, key(r[i])) == Some(r[i])
  {
    if |xs| == 0 then []
    else
      var rest := DedupFrom(xs[1..], key, if key(xs[0]) in seen then seen else seen + {key(xs[0])});
      assert KeySet(xs, key) == {key(xs[0])} + KeySet(xs[1..], key) by {
        forall k | k in KeySet(xs, key) ensures k in {key(xs[0])} + KeySet(xs[1..], key) {
          var i :| 0 <= i < |xs| && key(xs[i]) == k;
          if i > 0 {
            assert key(xs[1..][i - 1]) == k;
          }
        }
      }
      if key(xs[0]) in seen then
        rest
      else
        var r := [xs[0]] + rest;
        assert KeySet(r, key) == {key(xs[0])} + KeySet(rest, key) by {
          forall k | k in KeySet(r, key) ensures k in {key(xs[0])} + KeySet(rest, key) {
            var i :| 0 <= i < |r| && key(r[i]) == k;
            if i > 0 {
              assert key(rest[i - 1]) == k;
            }
          }
          forall k | k in KeySet(rest, key) ensures k in KeySet(r, key) {
            var i :| 0 <= i < |rest| && key(rest[i]) == k;
            assert key(r[i + 1]) == k;
          }
          assert key(r[0]) == key(xs[0]);
        }
        r
  }

  /** First-occurrence deduplication by key (`seen` starts empty). */
  function DedupBy<T(==), K(==)>(xs: seq<T>, key: T -> K): seq<T> {
    DedupFrom(xs, key, {})
  }

  /** The position of the first element of `xs` whose key is `k`; `|xs|`
      when there is none. */
  function IndexOfKey<T, K(==)>(xs: seq<T>, key: T -> K, k: K): (n: nat)
    ensures n <= |xs|
    ensures n < |xs| ==> key(xs[n]) == k
    ensures forall j :: 0 <= j < n ==> key(xs[j]) != k
    decreases |xs|
  {
    if |xs| == 0 then 0
    else if key(xs[0]) == k then 0
    else 1 + IndexOfKey(xs[1..], key, k)
  }

  /** Elements listed in the order of their keys' first occurrence in
      `xs`. */
  predicate KeyOrdered<T, K(==)>(r: seq<T>, xs: seq<T>, key: T -> K) {
    forall i, j :: 0 <= i < j < |r| ==> IndexOfKey(xs, key, key(r[i])) < IndexOfKey(xs, key, key(r[j]))
  }

  /** The filter keeps keys in the order of their first occurrence. */
  lemma {:induction false} DedupFromOrdered<T, K>(xs: seq<T>, key: T -> K, seen: set<K>)
    ensures KeyOrdered(DedupFrom(xs, key, seen), xs, key)
    decreases |xs|
  {
    if |xs| > 0 {
      var seen' := if key(xs[0]) in seen then seen else seen + {key(xs[0])};
      var rest := DedupFrom(xs[1..], key, seen');
      DedupFromOrdered(xs[1..], key, seen');
      assert key(xs[0]) in seen';
      OrderedAfterHead(xs, key, rest);
      if key(xs[0]) in seen {
        assert DedupFrom(xs, key, seen) == rest;
      } else {
        assert DedupFrom(xs, key, seen) == [xs[0]] + rest;
      }
    }
  }

  /** A list ordered by first occurrence in the tail, none of whose keys is
      the head's, stays ordered in the whole, with or without the head in
      front. */
  lemma OrderedAfterHead<T, K>(xs: seq<T>, key: T -> K, rest: seq<T>)
    requires |xs| > 0 && KeyOrdered(rest, xs[1..], key)
    requires forall m :: 0 <= m < |rest| ==> key(rest[m]) != key(xs[0])
    ensures KeyOrdered(rest, xs, key) && KeyOrdered([xs[0]] + rest, xs, key)
  {
    forall m | 0 <= m < |rest| ensures IndexOfKey(xs, key, key(rest[m])) == 1 + IndexOfKey(xs[1..], key, key(rest[m])) {
      IndexOfKeyTail(xs, key, key(rest[m]));
    }
    var r := [xs[0]] + rest;
    forall i, j | 0 <= i < j < |r|
      ensures IndexOfKey(xs, key, key(r[i])) < IndexOfKey(xs, key, key(r[j]))
    {
      assert r[j] == rest[j - 1];
      if i > 0 {
        assert r[i] == rest[i - 1];
      }
    }
  }

  lemma IndexOfKeyTail<T, K>(xs: seq<T>, key: T -> K, k: K)
    requires |xs| > 0 && key(xs[0]) != k
    ensures IndexOfKey(xs, key, k) == 1 + IndexOfKey(xs[1..], key, k)
  {
  }

  /** A list whose keys are already distinct and unseen passes the filter
      unchanged. */
  lemma {:induction false} DedupFromDistinct<T, K>(xs: seq<T>, key: T -> K, seen: set<K>)
    requires forall i, j :: 0 <= i < j < |xs| ==> key(xs[i]) != key(xs[j])
    requires forall i :: 0 <= i < |xs| ==> key(xs[i]) !in seen
    ensures DedupFrom(xs, key, seen) == xs
    decreases |xs|
  {
    if |xs| > 0 {
      var seen' := seen + {key(xs[0])};
      forall i | 0 <= i < |xs[1..]| ensures key(xs[1..][i]) !in seen' {
        assert xs[1..][i] == xs[i + 1];
      }
      DedupFromDistinct(xs[1..], key, seen');
    }
  }

  /** Deduplicating twice is deduplicating once. */
  lemma DedupIdempotent<T, K>(xs: seq<T>, key: T -> K)
    ensures DedupBy(DedupBy(xs, key), key) == DedupBy(xs, key)
  {
    DedupFromDistinct(DedupBy(xs, key), key, {});
  }

  /** Deduplication never lengthens its input. */
  lemma DedupShorter<T, K>(xs: seq<T>, key: T -> K)
    ensures |DedupBy(xs, key)| <= |xs|
  {
    SubsequenceLength(DedupBy(xs, key), xs);
  }
}
