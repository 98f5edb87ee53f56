/**
 * Stable sorting by a descending integer key, and taking a prefix: the model of Kotlin's
 * `sortedByDescending { .. }` followed by `take(limit)`.
 */
module Sorting {

  /** Every element's key is at least the key of every element after it. */
  ghost predicate SortedDesc<T>(s: seq<T>, key: T -> int) {
    forall i, j :: 0 <= i < j < |s| ==> key(s[i]) >= key(s[j])
  }

  /** Inserts `x` after every element whose key is at least `key(x)`, which keeps ties in arrival order. */
  function InsertDesc<T>(x: T, s: seq<T>, key: T -> int): (r: seq<T>)
    ensures multiset(r) == multiset(s) + multiset{x}
    ensures |r| == |s| + 1
    decreases |s|
  {
    if s == [] then [x]
    else if key(s[0]) >= key(x) then
      assert s == [s[0]] + s[1..];
      [s[0]] + InsertDesc(x, s[1..], key)
    else [x] + s
  }

  /** The first element of an insertion is either the inserted element or the old first element. */
  lemma InsertDescHead<T>(x: T, s: seq<T>, key: T -> int)
    ensures s == [] ==> InsertDesc(x, s, key)[0] == x
    ensures s != [] ==> InsertDesc(x, s, key)[0] == x || InsertDesc(x, s, key)[0] == s[0]
  {
  }

  lemma {:induction false} InsertDescSorted<T>(x: T, s: seq<T>, key: T -> int)
    requires SortedDesc(s, key)
    ensures SortedDesc(InsertDesc(x, s, key), key)
    decreases |s|
  {
    if s != [] && key(s[0]) >= key(x) {
      var tail := s[1..];
      assert SortedDesc(tail, key) by {
        forall i, j | 0 <= i < j < |tail| ensures key(tail[i]) >= key(tail[j]) {
          assert tail[i] == s[i + 1] && tail[j] == s[j + 1];
        }
      }
      InsertDescSorted(x, tail, key);
      var rest := InsertDesc(x, tail, key);
      InsertDescHead(x, tail, key);
      assert key(rest[0]) <= key(s[0]) by {
        if tail != [] && rest[0] == tail[0] {
          assert tail[0] == s[1];
        }
      }
      var r := [s[0]] + rest;
      forall i, j | 0 <= i < j < |r| ensures key(r[i]) >= key(r[j]) {
        if i == 0 {
          assert r[j] == rest[j - 1];
          if j > 1 {
            assert key(rest[0]) >= key(rest[j - 1]);
          }
        } else {
          assert r[i] == rest[i - 1] && r[j] == rest[j - 1];
        }
      }
    }
  }

  /** Insertion sort, descending by `key`; elements with equal keys keep their input order. */
  function SortDesc<T>(s: seq<T>, key: T -> int): (r: seq<T>)
    ensures multiset(r) == multiset(s)
    ensures |r| == |s|
    ensures SortedDesc(r, key)
    decreases |s|
  {
    if s == [] then []
    else
      assert s == s[..|s| - 1] + [s[|s| - 1]];
      var sorted := SortDesc(s[..|s| - 1], key);
      InsertDescSorted(s[|s| - 1], sorted, key);
      InsertDesc(s[|s| - 1], sorted, key)
  }

  /** Kotlin's `take(n)`: the first `n` elements, or all of them when there are fewer. */
  function Take<T>(s: seq<T>, n: nat): (r: seq<T>)
    ensures |r| == if n < |s| then n else |s|
    ensures r == s[..|r|]
  {
    if n < |s| then s[..n] else s
  }

  /**
   * Taking a prefix of a descending sequence keeps the largest keys: nothing left out has a
   * larger key than anything kept.
   */
  lemma {:induction false} TakeKeepsLargest<T>(s: seq<T>, n: nat, key: T -> int, x: T, y: T)
    requires SortedDesc(s, key)
    requires x in Take(s, n)
    requires y in multiset(s) - multiset(Take(s, n))
    ensures key(y) <= key(x)
  {
    var t := Take(s, n);
    assert s == t + s[|t|..];
    assert multiset(s) == multiset(t) + multiset(s[|t|..]);
    assert y in s[|t|..];
    var i :| 0 <= i < |t| && t[i] == x;
    var j :| 0 <= j < |s[|t|..]| && s[|t|..][j] == y;
    assert s[i] == x && s[|t| + j] == y;
  }

  /** `sortedByDescending(key).take(n)`: the sorted input cut to `n` elements. */
  function TopN<T>(s: seq<T>, key: T -> int, n: nat): (r: seq<T>)
    ensures |r| == if n < |s| then n else |s|
    ensures SortedDesc(r, key)
    ensures multiset(r) <= multiset(s)
    ensures |r| < n ==> multiset(r) == multiset(s)
  {
    var sorted := SortDesc(s, key);
    var r := Take(sorted, n);
    assert sorted == r + sorted[|r|..];
    r
  }

  /** Nothing `TopN` leaves out has a larger key than anything it keeps. */
  lemma TopNKeepsLargest<T>(s: seq<T>, key: T -> int, n: nat, x: T, y: T)
    requires x in TopN(s, key, n)
    requires multiset(TopN(s, key, n))[y] < multiset(s)[y]
    ensures key(y) <= key(x)
  {
    var sorted := SortDesc(s, key);
    assert sorted == Take(sorted, n) + sorted[|Take(sorted, n)|..];
    TakeKeepsLargest(sorted, n, key, x, y);
  }
}
