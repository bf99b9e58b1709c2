/**
 Python's default ordering of `str` values and `sorted(set(...))`: the
 ascending, duplicate-free listing of a collection of strings.
 */
module Ordering {

  /** Reference meaning of `a < b`: the two strings agree on their first `k`
      characters, and then `a` ends while `b` goes on, or `a`'s next character
      has the smaller code point. */
  ghost predicate FirstDifference(a: string, b: string, k: int) {
    0 <= k <= |a| && k < |b| && a[..k] == b[..k] && (k == |a| || a[k] < b[k])
  }

  /** Strings with a common non-empty prefix begin with the same character. */
  lemma PrefixesShareHead(a: string, b: string, k: int)
    ensures 0 < k <= |a| && k <= |b| && a[..k] == b[..k] ==> a[0] == b[0]
  {
    if 0 < k <= |a| && k <= |b| && a[..k] == b[..k] {
      assert a[..k][0] == b[..k][0];
    }
  }

  /** When the first characters differ, the first difference is at offset 0. */
  lemma FirstDifferenceAtHead(a: string, b: string)
    requires |a| > 0 && |b| > 0 && a[0] != b[0]
    ensures (exists k :: FirstDifference(a, b, k)) <==> a[0] < b[0]
  {
    if a[0] < b[0] {
      assert FirstDifference(a, b, 0);
    }
    forall k | FirstDifference(a, b, k)
      ensures k == 0
    {
      PrefixesShareHead(a, b, k);
    }
  }

  /** When the first characters agree, the first difference moves one place
      to the right of the first difference of the tails. */
  lemma FirstDifferenceShift(a: string, b: string)
    requires |a| > 0 && |b| > 0 && a[0] == b[0]
    ensures (exists k :: FirstDifference(a, b, k)) <==> (exists k :: FirstDifference(a[1..], b[1..], k))
  {
    if exists k :: FirstDifference(a, b, k) {
      var k :| FirstDifference(a, b, k);
      assert k != 0;
      assert a[1..][..k - 1] == a[..k][1..] && b[1..][..k - 1] == b[..k][1..];
      assert FirstDifference(a[1..], b[1..], k - 1);
    }
    if exists k :: FirstDifference(a[1..], b[1..], k) {
      var k :| FirstDifference(a[1..], b[1..], k);
      assert a[..k + 1] == [a[0]] + a[1..][..k] && b[..k + 1] == [b[0]] + b[1..][..k];
      assert FirstDifference(a, b, k + 1);
    }
  }

  /** Python's `a < b` on str, compared character by character: lexicographic
      by code point, a proper prefix ordered before the longer string. */
  function Less(a: string, b: string): (r: bool)
    ensures r <==> exists k :: FirstDifference(a, b, k)
    decreases |a|
  {
    if |b| == 0 then false
    else if |a| == 0 then
      assert FirstDifference(a, b, 0);
      true
    else if a[0] != b[0] then
      FirstDifferenceAtHead(a, b);
      a[0] < b[0]
    else
      FirstDifferenceShift(a, b);
      Less(a[1..], b[1..])
  }

  lemma {:induction false} LessIrreflexive(a: string)
    ensures !Less(a, a)
    decreases |a|
  {
    if |a| != 0 {
      LessIrreflexive(a[1..]);
    }
  }

  lemma {:induction false} LessTransitive(a: string, b: string, c: string)
    requires Less(a, b) && Less(b, c)
    ensures Less(a, c)
    decreases |a|
  {
    if |a| != 0 && a[0] == b[0] && b[0] == c[0] {
      LessTransitive(a[1..], b[1..], c[1..]);
    }
  }

  /** Any two different strings are ordered one way round, and never both. */
  lemma {:induction false} LessTrichotomy(a: string, b: string)
    ensures a == b || Less(a, b) || Less(b, a)
    ensures !(Less(a, b) && Less(b, a))
    decreases |a|
  {
    if |a| != 0 && |b| != 0 && a[0] == b[0] {
      LessTrichotomy(a[1..], b[1..]);
      if a[1..] == b[1..] {
        assert a == [a[0]] + a[1..] && b == [b[0]] + b[1..];
      }
    }
  }

  /** Strictly ascending under Python's string order, hence free of duplicates. */
  predicate StrictlyAscending(s: seq<string>) {
    forall i, j :: 0 <= i < j < |s| ==> Less(s[i], s[j])
  }

  /** Putting a string below every element in front of an ascending listing keeps it ascending. */
  lemma PrependSmallest(h: string, s: seq<string>)
    requires StrictlyAscending(s)
    requires forall y :: y in s ==> Less(h, y)
    ensures StrictlyAscending([h] + s)
  {
    var r := [h] + s;
    forall i, j | 0 <= i < j < |r|
      ensures Less(r[i], r[j])
    {
      if i == 0 {
        assert r[j] == s[j - 1];
      } else {
        assert r[i] == s[i - 1] && r[j] == s[j - 1];
      }
    }
  }

  /** A string below the head of an ascending listing is below all of it. */
  lemma BelowHeadBelowAll(x: string, s: seq<string>)
    requires StrictlyAscending(s) && |s| > 0 && Less(x, s[0])
    ensures forall y :: y in s ==> Less(x, y)
  {
    forall y | y in s
      ensures Less(x, y)
    {
      if y != s[0] {
        LessTransitive(x, s[0], y);
      }
    }
  }

  /** The head of an ascending listing is below everything after it. */
  lemma HeadBelowTail(s: seq<string>)
    requires StrictlyAscending(s) && |s| > 0
    ensures forall y :: y in s[1..] ==> Less(s[0], y) && y != s[0]
  {
    forall y | y in s[1..]
      ensures Less(s[0], y) && y != s[0]
    {
      var k :| 1 <= k < |s| && s[k] == y;
      assert Less(s[0], s[k]);
      LessIrreflexive(y);
    }
  }

  /** Inserts `x` at its place in an ascending listing, unless it is already there. */
  function Insert(x: string, s: seq<string>): (r: seq<string>)
    requires StrictlyAscending(s)
    ensures StrictlyAscending(r)
    ensures forall y :: y in r <==> y == x || y in s
    ensures |r| <= |s| + 1
  {
    if |s| == 0 then [x]
    else if x == s[0] then s
    else if Less(x, s[0]) then
      BelowHeadBelowAll(x, s);
      PrependSmallest(x, s);
      [x] + s
    else
      LessTrichotomy(x, s[0]);
      assert StrictlyAscending(s[1..]);
      var rest := Insert(x, s[1..]);
      HeadBelowTail(s);
      assert s == [s[0]] + s[1..];
      PrependSmallest(s[0], rest);
      [s[0]] + rest
  }

  /** The sorted listing of the set of strings in `xs`: the ascending, duplicate-free listing of the strings in `xs`. */
  function SortedDistinct(xs: seq<string>): (r: seq<string>)
    ensures StrictlyAscending(r)
    ensures forall y :: y in r <==> y in xs
    ensures |r| <= |xs|
  {
    if |xs| == 0 then []
    else Insert(xs[0], SortedDistinct(xs[1..]))
  }

  /** There is only one strictly ascending listing of a given collection of strings,
      so any such listing of the strings of `xs` is `SortedDistinct(xs)`. */
  lemma {:induction false} AscendingListingUnique(a: seq<string>, b: seq<string>)
    requires StrictlyAscending(a) && StrictlyAscending(b)
    requires forall y :: y in a <==> y in b
    ensures a == b
    decreases |a|
  {
    assert |a| > 0 ==> a[0] in a;
    assert |b| > 0 ==> b[0] in b;
    if |a| == 0 || |b| == 0 {
      if |a| != 0 || |b| != 0 {
        assert false;
      }
    } else {
      HeadBelowTail(a);
      HeadBelowTail(b);
      LessTrichotomy(a[0], b[0]);
      assert a[0] in b && b[0] in a;
      assert a[0] == b[0];
      assert a == [a[0]] + a[1..] && b == [b[0]] + b[1..];
      forall y
        ensures y in a[1..] <==> y in b[1..]
      {
        assert y in a <==> y in b;
      }
      AscendingListingUnique(a[1..], b[1..]);
    }
  }
}
