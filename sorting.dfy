/**
 * Ordering by a numeric key, largest first: the `sort({ field: -1 })` step of the
 * document store's queries and the `$sort` stage of its aggregation pipeline.
 * The store does not specify how equal keys are ordered, and neither does this model:
 * every property below holds whatever order ties end up in.
 */
module Sorting {

  /** `s` is ordered by `key`, newest (largest) first. */
  ghost predicate SortedDesc<T>(s: seq<T>, key: T -> int) {
    forall i, j :: 0 <= i < j < |s| ==> key(s[i]) >= key(s[j])
  }

  /** No element occurs twice in `s`. */
  ghost predicate Distinct<T>(s: seq<T>) {
    forall i, j :: 0 <= i < j < |s| ==> s[i] != s[j]
  }

  /** Places `x` before the first element of `s` whose key is not larger than its own. */
  function InsertDesc<T>(x: T, s: seq<T>, key: T -> int): (r: seq<T>)
    ensures multiset(r) == multiset(s) + multiset{x}
    ensures |r| == |s| + 1
  {
    if s == [] || key(x) >= key(s[0]) then
      [x] + s
    else
      assert s == [s[0]] + s[1..];
      [s[0]] + InsertDesc(x, s[1..], key)
  }

  /** Every element of an ordered sequence has a key no larger than its first element's. */
  lemma FirstIsLargest<T>(s: seq<T>, key: T -> int, y: T)
    requires SortedDesc(s, key)
    requires y in s
    ensures key(y) <= key(s[0])
  {
    var m :| 0 <= m < |s| && s[m] == y;
    if m > 0 {
      assert key(s[0]) >= key(s[m]);
    }
  }

  /** An element no smaller than every element of an ordered sequence can go in front of it. */
  lemma ConsSorted<T>(h: T, t: seq<T>, key: T -> int)
    requires SortedDesc(t, key)
    requires forall k :: 0 <= k < |t| ==> key(t[k]) <= key(h)
    ensures SortedDesc([h] + t, key)
  {
    var r := [h] + t;
    forall i, j | 0 <= i < j < |r|
      ensures key(r[i]) >= key(r[j])
    {
      assert r[j] == t[j - 1];
      if i > 0 {
        assert r[i] == t[i - 1];
      }
    }
  }

  /** The tail of an ordered sequence is ordered. */
  lemma TailSorted<T>(s: seq<T>, key: T -> int)
    requires s != [] && SortedDesc(s, key)
    ensures SortedDesc(s[1..], key)
  {
    forall i, j | 0 <= i < j < |s| - 1
      ensures key(s[1..][i]) >= key(s[1..][j])
    {
      assert s[1..][i] == s[i + 1] && s[1..][j] == s[j + 1];
    }
  }

  /** Inserting into an ordered sequence keeps it ordered. */
  lemma {:induction false} InsertDescSorted<T>(x: T, s: seq<T>, key: T -> int)
    requires SortedDesc(s, key)
    ensures SortedDesc(InsertDesc(x, s, key), key)
  {
    if s == [] || key(x) >= key(s[0]) {
      forall k | 0 <= k < |s|
        ensures key(s[k]) <= key(x)
      {
        FirstIsLargest(s, key, s[k]);
      }
      ConsSorted(x, s, key);
    } else {
      var rest := InsertDesc(x, s[1..], key);
      TailSorted(s, key);
      InsertDescSorted(x, s[1..], key);
      forall k | 0 <= k < |rest|
        ensures key(rest[k]) <= key(s[0])
      {
        assert rest[k] in multiset(rest);
        if rest[k] != x {
          assert rest[k] in multiset(s[1..]);
          FirstIsLargest(s, key, rest[k]);
        }
      }
      ConsSorted(s[0], rest, key);
    }
  }

  /** The elements of `s` ordered by `key`, largest first. */
  function SortDesc<T>(s: seq<T>, key: T -> int): (r: seq<T>)
    ensures SortedDesc(r, key)
    ensures multiset(r) == multiset(s)
    ensures |r| == |s|
  {
    if s == [] then []
    else
      assert s == [s[0]] + s[1..];
      var sorted := SortDesc(s[1..], key);
      InsertDescSorted(s[0], sorted, key);
      InsertDesc(s[0], sorted, key)
  }

  /** The first element of the ordered sequence is an element with the largest key. */
  lemma SortDescFirst<T>(s: seq<T>, key: T -> int)
    requires s != []
    ensures var r := SortDesc(s, key);
      r != [] && r[0] in s && forall y :: y in s ==> key(y) <= key(r[0])
  {
    var r := SortDesc(s, key);
    assert r[0] in multiset(s) by {
      assert r[0] in multiset(r);
    }
    forall y | y in s
      ensures key(y) <= key(r[0])
    {
      assert y in multiset(r) by {
        assert y in multiset(s);
      }
      FirstIsLargest(r, key, y);
    }
  }

  /** The first position of `x` in `s`. */
  function IndexIn<T(==)>(s: seq<T>, x: T): (j: nat)
    requires x in s
    ensures j < |s| && s[j] == x
  {
    if s[0] == x then 0 else 1 + IndexIn(s[1..], x)
  }

  /** A sequence without repeats counts each of its elements once. */
  lemma {:induction false} DistinctCountsOnce<T>(s: seq<T>, x: T)
    requires Distinct(s)
    ensures multiset(s)[x] <= 1
  {
    if s != [] {
      assert s == [s[0]] + s[1..];
      DistinctCountsOnce(s[1..], x);
      if s[0] == x {
        assert x !in s[1..];
      }
    }
  }

  /** Rearranging a sequence without repeats cannot create one. */
  lemma PermutationKeepsDistinct<T>(a: seq<T>, b: seq<T>)
    requires Distinct(a)
    requires multiset(a) == multiset(b)
    ensures Distinct(b)
  {
    forall i, j | 0 <= i < j < |b|
      ensures b[i] != b[j]
    {
      if b[i] == b[j] {
        assert b == b[..j] + [b[j]] + b[j + 1..];
        assert b[i] in b[..j];
        assert multiset(b)[b[j]] >= 2;
        DistinctCountsOnce(a, b[j]);
        assert false;
      }
    }
  }
}
