/**
 * Ordering by a key, largest first, as `ORDER BY ... DESC` and `Counter.most_common` do.
 * The contracts fix the order of the keys and that the result is a permutation; how elements
 * with equal keys are arranged among themselves is not stated.
 */
module Ranking {

  /** Keys never increase from left to right. */
  predicate SortedDesc<T>(s: seq<T>, key: T -> int)
  {
    forall i, j :: 0 <= i < j < |s| ==> key(s[i]) >= key(s[j])
  }

  /** Putting an element in front of a descending sequence whose keys it bounds keeps it descending. */
  lemma ConsSorted<T>(h: T, rest: seq<T>, key: T -> int)
    requires SortedDesc(rest, key)
    requires forall j :: 0 <= j < |rest| ==> key(rest[j]) <= key(h)
    ensures SortedDesc([h] + rest, key)
  {
    var r := [h] + rest;
    forall i, j | 0 <= i < j < |r| ensures key(r[i]) >= key(r[j]) {
      assert r[j] == rest[j - 1];
      if i > 0 {
        assert r[i] == rest[i - 1];
      }
    }
  }

  /** Every element of a descending sequence, or `x` when its key is smaller, is bounded by the head. */
  lemma BoundedByHead<T>(s: seq<T>, x: T, rest: seq<T>, key: T -> int)
    requires SortedDesc(s, key) && s != [] && key(x) < key(s[0])
    requires multiset(rest) == multiset(s[1..]) + multiset{x}
    ensures forall j :: 0 <= j < |rest| ==> key(rest[j]) <= key(s[0])
  {
    forall j | 0 <= j < |rest| ensures key(rest[j]) <= key(s[0]) {
      var y := rest[j];
      assert y in multiset(rest);
      if y != x {
        assert y in multiset(s[1..]);
        var k :| 0 <= k < |s[1..]| && s[1..][k] == y;
        assert s[k + 1] == y;
      }
    }
  }

  /** Inserts `x` into a descending sequence, in front of the first element whose key is not larger. */
  function InsertDesc<T>(x: T, s: seq<T>, key: T -> int): (r: seq<T>)
    requires SortedDesc(s, key)
    ensures SortedDesc(r, key)
    ensures multiset(r) == multiset(s) + multiset{x}
    ensures |r| == |s| + 1
  {
    if s == [] || key(x) >= key(s[0]) then
      ConsSorted(x, s, key);
      [x] + s
    else
      var rest := InsertDesc(x, s[1..], key);
      assert s == [s[0]] + s[1..];
      BoundedByHead(s, x, rest, key);
      ConsSorted(s[0], rest, key);
      [s[0]] + rest
  }

  /** The descending sort of `s` by `key`: a permutation of `s` whose keys never increase. */
  function SortDesc<T>(s: seq<T>, key: T -> int): (r: seq<T>)
    ensures SortedDesc(r, key)
    ensures multiset(r) == multiset(s)
    ensures |r| == |s|
  {
    if s == [] then []
    else
      assert s == [s[0]] + s[1..];
      InsertDesc(s[0], SortDesc(s[1..], key), key)
  }

  /** The first `n` elements of a sequence, or all of them when there are fewer. */
  function Take<T>(s: seq<T>, n: int): (r: seq<T>)
    ensures |r| == if n < 0 then 0 else if n < |s| then n else |s|
    ensures r == s[..|r|]
  {
    if n <= 0 then [] else if n < |s| then s[..n] else s
  }

  /** A prefix of a descending sequence is descending. */
  lemma PrefixSorted<T>(s: seq<T>, k: nat, key: T -> int)
    requires SortedDesc(s, key)
    requires k <= |s|
    ensures SortedDesc(s[..k], key)
  {
    forall i, j | 0 <= i < j < k ensures key(s[..k][i]) >= key(s[..k][j]) {
      assert s[..k][i] == s[i] && s[..k][j] == s[j];
    }
  }

  /**
   * Cutting a descending sequence after `k` elements keeps the largest ones:
   * every element left out has a key no larger than any element kept.
   */
  lemma PrefixDominates<T>(s: seq<T>, k: nat, key: T -> int)
    requires SortedDesc(s, key)
    requires k <= |s|
    ensures multiset(s[..k]) <= multiset(s)
    ensures multiset(s) - multiset(s[..k]) == multiset(s[k..])
    ensures SortedDesc(s[..k], key)
    ensures forall x, y :: x in multiset(s[k..]) && y in multiset(s[..k]) ==> key(x) <= key(y)
  {
    assert s == s[..k] + s[k..];
    PrefixSorted(s, k, key);
    forall x, y | x in multiset(s[k..]) && y in multiset(s[..k]) ensures key(x) <= key(y) {
      assert y in s[..k];
      var i :| 0 <= i < k && s[..k][i] == y;
      assert x in s[k..];
      var j :| 0 <= j < |s| - k && s[k..][j] == x;
      assert s[i] == y && s[k + j] == x;
    }
  }
}
