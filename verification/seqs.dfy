/** Order-preserving selection over sequences: the model of
    `Array.prototype.filter`, used by every query over the restaurant list. */
module Seqs {

  /** `a` can be obtained from `b` by deleting elements, keeping the order of
      the rest. Greedy matching decides this. */
  ghost predicate IsSubsequence<T>(a: seq<T>, b: seq<T>)
    decreases |b|
  {
    |a| == 0 || (|b| > 0 && if a[0] == b[0] then IsSubsequence(a[1..], b[1..]) else IsSubsequence(a, b[1..]))
  }

  /** `r` keeps every occurrence in `s` of the elements satisfying `p` and no
      occurrence of any other element. */
  ghost predicate KeepsExactly<T(!new)>(r: seq<T>, s: seq<T>, p: T -> bool) {
    forall x :: multiset(r)[x] == if p(x) then multiset(s)[x] else 0
  }

  /** `r` is the order-preserving subsequence of `s` made of the elements
      satisfying `p` (by `FilterUnique`, there is exactly one). */
  ghost predicate SelectionOf<T(!new)>(r: seq<T>, s: seq<T>, p: T -> bool) {
    IsSubsequence(r, s) && KeepsExactly(r, s, p)
  }

  /** `s.filter(p)`. */
  function Filter<T(!new)>(s: seq<T>, p: T -> bool): (r: seq<T>)
    ensures forall x :: x in r <==> x in s && p(x)
    ensures SelectionOf(r, s, p)
    ensures |r| <= |s|
    decreases |s|
  {
    if |s| == 0 then []
    else
      assert s == [s[0]] + s[1..];
      var rest := Filter(s[1..], p);
      if p(s[0]) then
        assert ([s[0]] + rest)[1..] == rest;
        [s[0]] + rest
      else
        rest
  }

  lemma {:induction false} SubsequenceMultiset<T>(a: seq<T>, b: seq<T>)
    requires IsSubsequence(a, b)
    ensures multiset(a) <= multiset(b)
    decreases |b|
  {
    if |a| > 0 {
      assert b == [b[0]] + b[1..];
      if a[0] == b[0] {
        assert a == [a[0]] + a[1..];
        SubsequenceMultiset(a[1..], b[1..]);
      } else {
        SubsequenceMultiset(a, b[1..]);
      }
    }
  }

  /** The filter is the ONLY order-preserving selection that keeps exactly the
      elements satisfying `p`: any such `r` equals `Filter(s, p)`. */
  lemma {:induction false} FilterUnique<T(!new)>(r: seq<T>, s: seq<T>, p: T -> bool)
    requires SelectionOf(r, s, p)
    ensures r == Filter(s, p)
    decreases |s|
  {
    if |r| == 0 {
      NothingKeptMeansEmptyFilter(r, s, p);
    } else if |s| > 0 {
      if r[0] == s[0] {
        KeepsExactlyHead(r, s, p);
        FilterUnique(r[1..], s[1..], p);
        assert r == [r[0]] + r[1..];
      } else {
        KeepsExactlySkip(r, s, p);
        FilterUnique(r, s[1..], p);
      }
    }
  }

  lemma NothingKeptMeansEmptyFilter<T(!new)>(r: seq<T>, s: seq<T>, p: T -> bool)
    requires |r| == 0 && KeepsExactly(r, s, p)
    ensures Filter(s, p) == []
  {
  }

  lemma KeepsExactlyHead<T(!new)>(r: seq<T>, s: seq<T>, p: T -> bool)
    requires |r| > 0 && |s| > 0 && r[0] == s[0]
    requires IsSubsequence(r, s) && KeepsExactly(r, s, p)
    ensures p(s[0])
    ensures IsSubsequence(r[1..], s[1..]) && KeepsExactly(r[1..], s[1..], p)
  {
    assert r == [r[0]] + r[1..];
    assert s == [s[0]] + s[1..];
    assert multiset(r)[s[0]] > 0;
    forall x ensures multiset(r[1..])[x] == if p(x) then multiset(s[1..])[x] else 0 {
      assert multiset(r)[x] == if p(x) then multiset(s)[x] else 0;
    }
  }

  lemma KeepsExactlySkip<T(!new)>(r: seq<T>, s: seq<T>, p: T -> bool)
    requires |r| > 0 && |s| > 0 && r[0] != s[0]
    requires IsSubsequence(r, s) && KeepsExactly(r, s, p)
    ensures !p(s[0])
    ensures IsSubsequence(r, s[1..]) && KeepsExactly(r, s[1..], p)
  {
    assert s == [s[0]] + s[1..];
    SubsequenceMultiset(r, s[1..]);
    assert multiset(r)[s[0]] <= multiset(s[1..])[s[0]] < multiset(s)[s[0]];
    forall x ensures multiset(r)[x] == if p(x) then multiset(s[1..])[x] else 0 {
      assert multiset(r)[x] == if p(x) then multiset(s)[x] else 0;
    }
  }

  /** A filter whose predicate holds of every element returns the input unchanged. */
  lemma {:induction false} FilterAll<T(!new)>(s: seq<T>, p: T -> bool)
    requires forall x :: x in s ==> p(x)
    ensures Filter(s, p) == s
    decreases |s|
  {
    if |s| > 0 {
      FilterAll(s[1..], p);
    }
  }

  /** Two predicates that agree on the elements of `s` select the same subsequence. */
  lemma {:induction false} FilterExtensional<T(!new)>(s: seq<T>, p: T -> bool, q: T -> bool)
    requires forall x :: x in s ==> p(x) == q(x)
    ensures Filter(s, p) == Filter(s, q)
    decreases |s|
  {
    if |s| > 0 {
      FilterExtensional(s[1..], p, q);
    }
  }

  /** Filtering twice keeps the elements that pass both predicates, in order. */
  lemma {:induction false} FilterTwice<T(!new)>(s: seq<T>, p: T -> bool, q: T -> bool, pq: T -> bool)
    requires forall x :: x in s ==> pq(x) == (p(x) && q(x))
    ensures Filter(Filter(s, p), q) == Filter(s, pq)
    decreases |s|
  {
    if |s| > 0 {
      FilterTwice(s[1..], p, q, pq);
      var rest := Filter(s[1..], p);
      if p(s[0]) {
        assert ([s[0]] + rest)[1..] == rest;
      }
    }
  }
}
