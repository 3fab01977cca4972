/**
 * Counting occurrences, the way Python's `Counter` and SQL's `COUNT(*) ... GROUP BY`
 * do it: a tally maps every element that occurs to the number of its occurrences.
 */
module Counting {

  /** The tally of `s`: each distinct element of `s` mapped to how often it occurs. */
  function Tally<T>(s: seq<T>): map<T, nat>
  {
    map x | x in s :: multiset(s)[x]
  }

  /** Extending a sequence by one element bumps that element's tally entry (or creates it with 1). */
  lemma TallySnoc<T>(s: seq<T>, x: T)
    ensures Tally(s + [x]) == Tally(s)[x := (if x in Tally(s) then Tally(s)[x] else 0) + 1]
  {
    var t, u := Tally(s + [x]), Tally(s)[x := (if x in Tally(s) then Tally(s)[x] else 0) + 1];
    assert multiset(s + [x]) == multiset(s) + multiset{x};
    forall y ensures y in t <==> y in u {
      assert y in s + [x] <==> y in s || y == x;
    }
    forall y | y in t ensures t[y] == u[y] {
      if y != x {
        assert y in s;
      }
    }
  }

  /** The sum of the values of a map, each key counted once. */
  ghost function SumValues<T>(m: map<T, nat>): nat
    decreases |m|
  {
    if m == map[] then 0
    else
      var k :| k in m;
      m[k] + SumValues(m - {k})
  }

  /** The sum does not depend on which key is taken out first. */
  lemma {:induction false} SumValuesRemove<T>(m: map<T, nat>, k: T)
    requires k in m
    ensures SumValues(m) == m[k] + SumValues(m - {k})
    decreases |m|
  {
    var j :| j in m && SumValues(m) == m[j] + SumValues(m - {j});
    if j != k {
      var m' := m - {j};
      assert k in m';
      SumValuesRemove(m', k);
      var m'' := m - {k};
      assert j in m'';
      SumValuesRemove(m'', j);
      assert m' - {k} == m'' - {j};
    }
  }

  /** Setting a key to a new value changes the sum by the difference. */
  lemma SumValuesUpdate<T>(m: map<T, nat>, k: T, v: nat)
    ensures SumValues(m[k := v]) == SumValues(m) - (if k in m then m[k] else 0) + v
  {
    var m' := m[k := v];
    SumValuesRemove(m', k);
    assert m' - {k} == m - {k};
    if k in m {
      SumValuesRemove(m, k);
    } else {
      assert m - {k} == m;
    }
  }

  /** The counts of a tally add up to the length of the tallied sequence. */
  lemma {:induction false} TallySum<T>(s: seq<T>)
    ensures SumValues(Tally(s)) == |s|
  {
    if s == [] {
      assert Tally(s) == map[];
    } else {
      var p, x := s[..|s| - 1], s[|s| - 1];
      assert s == p + [x];
      TallySum(p);
      TallySnoc(p, x);
      SumValuesUpdate(Tally(p), x, (if x in Tally(p) then Tally(p)[x] else 0) + 1);
    }
  }

  /** No element occurs twice. */
  predicate NoDuplicates<T(==)>(s: seq<T>)
  {
    forall i, j :: 0 <= i < j < |s| ==> s[i] != s[j]
  }

  /** The distinct elements of `s`, each once, collected from left to right. */
  function Distinct<T(==)>(s: seq<T>): (d: seq<T>)
    ensures NoDuplicates(d)
    ensures forall i :: 0 <= i < |d| ==> d[i] in s
    ensures forall i :: 0 <= i < |s| ==> s[i] in d
  {
    if s == [] then []
    else
      var p := Distinct(s[..|s| - 1]);
      var x := s[|s| - 1];
      assert s == s[..|s| - 1] + [x];
      if x in p then p else p + [x]
  }
}
