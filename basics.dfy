/** Small shared vocabulary: optional and failing results, SQL/pandas style
    sums over nullable values, and Python's first-occurrence de-duplication
    (the key order of a dict filled in a loop, or of `Series.unique()`). */
module Basics {

  datatype Option<+T> = None | Some(value: T)

  datatype Result<+T, +E> = Ok(value: T) | Err(error: E)

  /** SQL `COALESCE(x, d)`. */
  function Coalesce(x: Option<int>, d: int): int
  {
    if x.Some? then x.value else d
  }

  /** Sum of the present values; NULL / NaN entries count as nothing
      (what pandas' `sum()` does with its default `min_count=0`). */
  function SumPresent(xs: seq<Option<int>>): int
  {
    if xs == [] then 0 else SumPresent(xs[..|xs| - 1]) + Coalesce(xs[|xs| - 1], 0)
  }

  /** SQL `SUM(x)`: NULL entries are ignored, and the sum of no non-NULL
      value is NULL. */
  function SqlSum(xs: seq<Option<int>>): (r: Option<int>)
    ensures r.None? <==> forall i :: 0 <= i < |xs| ==> xs[i].None?
    ensures r.Some? ==> r.value == SumPresent(xs)
  {
    if xs == [] then None
    else
      var init, last := SqlSum(xs[..|xs| - 1]), xs[|xs| - 1];
      assert forall i :: 0 <= i < |xs| - 1 ==> xs[..|xs| - 1][i] == xs[i];
      match (init, last)
      case (None, None) => None
      case (None, Some(v)) => SumPresentOfNulls(xs[..|xs| - 1]); Some(v)
      case (Some(s), None) => Some(s)
      case (Some(s), Some(v)) => Some(s + v)
  }

  lemma {:induction false} SumPresentOfNulls(xs: seq<Option<int>>)
    requires forall i :: 0 <= i < |xs| ==> xs[i].None?
    ensures SumPresent(xs) == 0
  {
    if xs != [] {
      SumPresentOfNulls(xs[..|xs| - 1]);
    }
  }

  /** `COALESCE(SUM(x), 0)` is the sum of the present values. */
  lemma CoalesceSqlSum(xs: seq<Option<int>>)
    ensures Coalesce(SqlSum(xs), 0) == SumPresent(xs)
  {
    if SqlSum(xs).None? {
      SumPresentOfNulls(xs);
    }
  }

  /** Sum of a sequence of integers. */
  function Sum(xs: seq<int>): int
  {
    if xs == [] then 0 else Sum(xs[..|xs| - 1]) + xs[|xs| - 1]
  }

  lemma SumSnoc(xs: seq<int>, x: int)
    ensures Sum(xs + [x]) == Sum(xs) + x
  {
    assert (xs + [x])[..|xs|] == xs;
  }

  lemma {:induction false} SumAppend(xs: seq<int>, ys: seq<int>)
    ensures Sum(xs + ys) == Sum(xs) + Sum(ys)
    decreases |ys|
  {
    if ys == [] {
      assert xs + ys == xs;
    } else {
      assert (xs + ys)[..|xs + ys| - 1] == xs + ys[..|ys| - 1];
      SumAppend(xs, ys[..|ys| - 1]);
    }
  }

  predicate NoDuplicates<T(==)>(s: seq<T>)
  {
    forall i, j :: 0 <= i < j < |s| ==> s[i] != s[j]
  }

  /** Index of the first occurrence of `x` in `s`. */
  function FirstIndex<T(==)>(s: seq<T>, x: T): (k: nat)
    requires x in s
    ensures k < |s| && s[k] == x && x !in s[..k]
  {
    if s[0] == x then 0 else 1 + FirstIndex(s[1..], x)
  }

  /** The distinct elements of `s`, each at the place of its first
      occurrence: the keys of a dict filled from `s`, or `pd.unique(s)`. */
  function Distinct<T(==)>(s: seq<T>): seq<T>
  {
    if s == [] then []
    else
      var d := Distinct(s[..|s| - 1]);
      if s[|s| - 1] in d then d else d + [s[|s| - 1]]
  }

  lemma {:induction false} DistinctElements<T>(s: seq<T>)
    ensures forall x :: x in Distinct(s) <==> x in s
    ensures NoDuplicates(Distinct(s))
  {
    if s != [] {
      var init := s[..|s| - 1];
      DistinctElements(init);
      assert s == init + [s[|s| - 1]];
    }
  }

  /** The distinct elements keep the order of their first occurrences. */
  lemma {:induction false} DistinctFirstOccurrenceOrder<T>(s: seq<T>, i: nat, j: nat)
    requires i < j < |Distinct(s)|
    ensures Distinct(s)[i] in s && Distinct(s)[j] in s
    ensures FirstIndex(s, Distinct(s)[i]) < FirstIndex(s, Distinct(s)[j])
  {
    DistinctElements(s);
    var init, last := s[..|s| - 1], s[|s| - 1];
    assert s == init + [last];
    DistinctElements(init);
    var d := Distinct(init);
    if last in d || j < |d| {
      DistinctFirstOccurrenceOrder(init, i, j);
      DistinctMember(init, i);
      DistinctMember(init, j);
      FirstIndexPrefix(init, last, d[i]);
      FirstIndexPrefix(init, last, d[j]);
    } else {
      // Distinct(s)[j] is `last`, which is new: it occurs first at |s| - 1.
      assert Distinct(s) == d + [last];
      assert Distinct(s)[j] == last && last !in init;
      DistinctMember(init, i);
      FirstIndexPrefix(init, last, d[i]);
      assert s[..|s| - 1] == init;
      FirstIndexUnique(s, last, |s| - 1);
    }
  }

  lemma DistinctMember<T>(s: seq<T>, i: nat)
    requires i < |Distinct(s)|
    ensures Distinct(s)[i] in s
  {
    DistinctElements(s);
    assert Distinct(s)[i] in Distinct(s);
  }

  /** An index holding `x` with no earlier `x` is the first index. */
  lemma FirstIndexUnique<T>(s: seq<T>, x: T, k: nat)
    requires k < |s| && s[k] == x && x !in s[..k]
    ensures FirstIndex(s, x) == k
  {
    var f := FirstIndex(s, x);
    assert forall i :: 0 <= i < k ==> s[i] != x by {
      forall i | 0 <= i < k ensures s[i] != x { assert s[..k][i] == s[i]; }
    }
    assert forall i :: 0 <= i < f ==> s[i] != x by {
      forall i | 0 <= i < f ensures s[i] != x { assert s[..f][i] == s[i]; }
    }
  }

  lemma FirstIndexPrefix<T>(init: seq<T>, last: T, x: T)
    requires x in init
    ensures x in init + [last] && FirstIndex(init + [last], x) == FirstIndex(init, x)
  {
    var s := init + [last];
    var k := FirstIndex(init, x);
    assert s[..k] == init[..k];
    FirstIndexUnique(s, x, k);
  }

  /** Where the last element of `a` sits in its permutation `b`, and what
      remains on both sides without it. */
  lemma MatchLast<T>(a: seq<T>, b: seq<T>) returns (k: nat)
    requires a != [] && multiset(a) == multiset(b)
    ensures k < |b| && b[k] == a[|a| - 1]
    ensures multiset(a[..|a| - 1]) == multiset(b[..k] + b[k + 1..])
  {
    var init, last := a[..|a| - 1], a[|a| - 1];
    assert a == init + [last];
    assert last in multiset(b);
    k :| 0 <= k < |b| && b[k] == last;
    var b1, b2 := b[..k], b[k + 1..];
    var ma, mb, m1, m2 := multiset(init), multiset(b1 + b2), multiset(b1), multiset(b2);
    assert multiset(a) == ma + multiset{last} by { assert a == init + [last]; }
    assert multiset(b) == m1 + multiset{last} + m2 by { assert b == b1 + [last] + b2; }
    assert mb == m1 + m2;
    assert ma == mb by {
      assert ma + multiset{last} == mb + multiset{last};
      assert ma == ma + multiset{last} - multiset{last};
    }
  }
}
