/** Text primitives the query layer relies on: ASCII case folding
    (`toLowerCase`), substring search (`includes`) and the default string
    order used by `Array.prototype.sort`. */
module Strings {

  predicate IsUpper(c: char) {
    'A' <= c <= 'Z'
  }

  /** Lower-cases one ASCII letter; every other character is left alone. */
  function LowerChar(c: char): char {
    if IsUpper(c) then (c as int - 'A' as int + 'a' as int) as char else c
  }

  /** `toLowerCase`, restricted to ASCII letters. */
  function Lower(s: string): (r: string)
    ensures |r| == |s|
    ensures forall i :: 0 <= i < |s| ==> r[i] == LowerChar(s[i])
  {
    seq(|s|, i requires 0 <= i < |s| => LowerChar(s[i]))
  }

  /** Lowering leaves no upper-case ASCII letter behind and changes nothing else. */
  lemma LowerRemovesUpper(s: string)
    ensures forall i :: 0 <= i < |s| ==> !IsUpper(Lower(s)[i])
    ensures forall i :: 0 <= i < |s| && !IsUpper(s[i]) ==> Lower(s)[i] == s[i]
  {
  }

  /** Lowering twice is lowering once. */
  lemma LowerIdempotent(s: string)
    ensures Lower(Lower(s)) == Lower(s)
  {
  }

  /** `needle` starts at offset `i` of `hay`. */
  ghost predicate OccursAt(needle: string, hay: string, i: int) {
    0 <= i && i + |needle| <= |hay| && hay[i..i + |needle|] == needle
  }

  /** `needle` occurs in `hay` at some offset (the specification of `includes`). */
  ghost predicate IsSubstring(needle: string, hay: string) {
    exists i :: OccursAt(needle, hay, i)
  }

  /** `hay.includes(needle)`: scans `hay` for a position at which `needle` starts. */
  function Contains(hay: string, needle: string): (r: bool)
    ensures |needle| == 0 ==> r
    ensures r ==> |needle| <= |hay|
    decreases |hay|
  {
    if needle <= hay then true
    else if |hay| == 0 then false
    else Contains(hay[1..], needle)
  }

  /** The scan finds `needle` exactly when it occurs at some offset. */
  lemma {:induction false} ContainsIffSubstring(hay: string, needle: string)
    ensures Contains(hay, needle) <==> IsSubstring(needle, hay)
    decreases |hay|
  {
    if needle <= hay {
      assert OccursAt(needle, hay, 0);
    } else if |hay| > 0 {
      ContainsIffSubstring(hay[1..], needle);
      SubstringOfTail(hay, needle);
      SubstringAfterHead(hay, needle);
    }
  }

  lemma SubstringOfTail(hay: string, needle: string)
    requires |hay| > 0
    ensures IsSubstring(needle, hay[1..]) ==> IsSubstring(needle, hay)
  {
    if IsSubstring(needle, hay[1..]) {
      var i :| OccursAt(needle, hay[1..], i);
      assert hay[1..][i..i + |needle|] == hay[i + 1..i + 1 + |needle|];
      assert OccursAt(needle, hay, i + 1);
    }
  }

  lemma SubstringAfterHead(hay: string, needle: string)
    requires |hay| > 0 && !(needle <= hay)
    ensures IsSubstring(needle, hay) ==> IsSubstring(needle, hay[1..])
  {
    if IsSubstring(needle, hay) {
      var i :| OccursAt(needle, hay, i);
      assert i > 0;
      assert hay[1..][i - 1..i - 1 + |needle|] == hay[i..i + |needle|];
      assert OccursAt(needle, hay[1..], i - 1);
    }
  }

  /** Every character of a needle that is found occurs in the haystack; so a
      needle holding a character the haystack lacks is not found. */
  lemma FoundNeedleCharsInHay(hay: string, needle: string, c: char)
    requires c in needle
    ensures Contains(hay, needle) ==> c in hay
  {
    ContainsIffSubstring(hay, needle);
    if Contains(hay, needle) {
      var i :| OccursAt(needle, hay, i);
      var k :| 0 <= k < |needle| && needle[k] == c;
      assert hay[i + k] == needle[k];
    }
  }

  /** Lexicographic order on characters, the order `Array.prototype.sort`
      applies to strings when no comparator is given. */
  predicate StrLess(a: string, b: string)
    decreases |a|
  {
    if |a| == 0 then |b| > 0
    else if |b| == 0 then false
    else if a[0] != b[0] then a[0] < b[0]
    else StrLess(a[1..], b[1..])
  }

  lemma {:induction false} StrLessIrreflexive(a: string)
    ensures !StrLess(a, a)
    decreases |a|
  {
    if |a| > 0 {
      StrLessIrreflexive(a[1..]);
    }
  }

  lemma {:induction false} StrLessTransitive(a: string, b: string, c: string)
    requires StrLess(a, b) && StrLess(b, c)
    ensures StrLess(a, c)
    decreases |a|
  {
    if |a| > 0 && a[0] == b[0] && b[0] == c[0] {
      StrLessTransitive(a[1..], b[1..], c[1..]);
    }
  }

  lemma {:induction false} StrLessTotal(a: string, b: string)
    ensures a == b || StrLess(a, b) || StrLess(b, a)
    decreases |a|
  {
    if |a| > 0 && |b| > 0 && a[0] == b[0] {
      StrLessTotal(a[1..], b[1..]);
      if a[1..] == b[1..] {
        assert a == [a[0]] + a[1..] && b == [b[0]] + b[1..];
      }
    }
  }

  lemma StrLessAsymmetric(a: string, b: string)
    requires StrLess(a, b)
    ensures !StrLess(b, a)
  {
  }

  /** A string made of `n` copies of `'$'`. */
  function Dollars(n: nat): (r: string)
    ensures |r| == n
    ensures forall i :: 0 <= i < n ==> r[i] == '$'
  {
    seq(n, _ => '$')
  }

  /** On runs of `'$'` the string order is the order of their lengths. */
  lemma {:induction false} DollarsOrder(m: nat, n: nat)
    ensures StrLess(Dollars(m), Dollars(n)) <==> m < n
    decreases m
  {
    if m > 0 && n > 0 {
      assert Dollars(m)[1..] == Dollars(m - 1);
      assert Dollars(n)[1..] == Dollars(n - 1);
      DollarsOrder(m - 1, n - 1);
    }
  }
}
