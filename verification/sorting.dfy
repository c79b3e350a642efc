/** `[...new Set(xs)].sort()` on strings: the distinct values of a list in
    ascending string order. */
module Sorting {
  import opened Strings

  /** Every element is strictly below every later one. */
  ghost predicate StrictlySorted(s: seq<string>) {
    forall i, j :: 0 <= i < j < |s| ==> StrLess(s[i], s[j])
  }

  /** A strictly sorted sequence has no repeated element. */
  lemma StrictlySortedDistinct(s: seq<string>)
    requires StrictlySorted(s)
    ensures forall i, j :: 0 <= i < j < |s| ==> s[i] != s[j]
  {
    forall i, j | 0 <= i < j < |s| ensures s[i] != s[j] {
      StrLessIrreflexive(s[i]);
    }
  }

  /** Inserts `x` into its place in a strictly sorted sequence, unless present. */
  function Insert(x: string, s: seq<string>): (r: seq<string>)
    requires StrictlySorted(s)
    ensures StrictlySorted(r)
    ensures forall y :: y in r <==> y == x || y in s
    decreases |s|
  {
    if |s| == 0 then [x]
    else if x == s[0] then s
    else if StrLess(x, s[0]) then
      assert forall j :: 0 < j < |s| ==> StrLess(s[0], s[j]);
      StrLessTransitivity();
      [x] + s
    else
      StrLessTotal(x, s[0]);
      var rest := Insert(x, s[1..]);
      assert forall y :: y in rest ==> StrLess(s[0], y) by {
        forall y | y in rest ensures StrLess(s[0], y) {
          if y != x {
            var k :| 1 <= k < |s| && s[k] == y;
          }
        }
      }
      [s[0]] + rest
  }

  lemma StrLessTransitivity()
    ensures forall a, b, c :: StrLess(a, b) && StrLess(b, c) ==> StrLess(a, c)
  {
    forall a, b, c | StrLess(a, b) && StrLess(b, c) ensures StrLess(a, c) {
      StrLessTransitive(a, b, c);
    }
  }

  /** The distinct elements of `xs`, in ascending order. */
  function SortedDistinct(xs: seq<string>): (r: seq<string>)
    ensures StrictlySorted(r)
    ensures forall y :: y in r <==> y in xs
    decreases |xs|
  {
    if |xs| == 0 then []
    else Insert(xs[0], SortedDistinct(xs[1..]))
  }

  lemma NoMembersMeansEmpty(s: seq<string>)
    ensures (forall y :: y !in s) ==> s == []
  {
    if |s| > 0 {
      assert s[0] in s;
    }
  }

  /** A strictly sorted sequence is determined by its elements alone, so
      `SortedDistinct` is the one listing `Set` followed by `sort` can produce. */
  lemma {:induction false} StrictlySortedUnique(a: seq<string>, b: seq<string>)
    requires StrictlySorted(a) && StrictlySorted(b)
    requires forall y :: y in a <==> y in b
    ensures a == b
    decreases |a|
  {
    if |a| == 0 {
      NoMembersMeansEmpty(b);
    } else {
      assert a[0] in b;
      assert b[0] in a;
      if a[0] != b[0] {
        var i :| 0 < i < |a| && a[i] == b[0];
        var j :| 0 < j < |b| && b[j] == a[0];
        StrLessAsymmetric(a[0], b[0]);
      }
      StrLessIrreflexive(a[0]);
      forall y ensures y in a[1..] <==> y in b[1..] {
        if y in a[1..] {
          var i :| 1 <= i < |a| && a[i] == y;
          assert StrLess(a[0], a[i]);
          assert y in a && y in b;
          var j :| 0 <= j < |b| && b[j] == y;
          assert j > 0;
          assert b[1..][j - 1] == y;
        }
        if y in b[1..] {
          var j :| 1 <= j < |b| && b[j] == y;
          assert StrLess(b[0], b[j]);
          assert y in b && y in a;
          var i :| 0 <= i < |a| && a[i] == y;
          assert i > 0;
          assert a[1..][i - 1] == y;
        }
      }
      StrictlySortedUnique(a[1..], b[1..]);
      assert a == [a[0]] + a[1..] && b == [b[0]] + b[1..];
    }
  }
}
