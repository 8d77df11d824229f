/** Sums over sequences and over the values of maps. */
module Sums {
  ghost function SeqSum<T>(s: seq<T>, f: T -> real): real {
    if s == [] then 0.0 else SeqSum(s[..|s| - 1], f) + f(s[|s| - 1])
  }

  lemma SeqSumAppend<T>(s: seq<T>, x: T, f: T -> real)
    ensures SeqSum(s + [x], f) == SeqSum(s, f) + f(x)
  {
    assert (s + [x])[..|s|] == s;
  }

  /** The order in which a map is walked is nobody's choice; the sum does not depend on it. */
  ghost function MapSum<K, V>(m: map<K, V>, f: V -> real): real {
    if m == map[] then 0.0
    else
      var k :| k in m;
      f(m[k]) + MapSum(m - {k}, f)
  }

  lemma {:induction false} MapSumRemove<K, V>(m: map<K, V>, k: K, f: V -> real)
    requires k in m
    ensures MapSum(m, f) == f(m[k]) + MapSum(m - {k}, f)
    decreases |m|
  {
    var first :| first in m && MapSum(m, f) == f(m[first]) + MapSum(m - {first}, f);
    if first == k {
    } else {
      MapSumRemove(m - {first}, k, f);
      MapSumRemove(m - {k}, first, f);
      assert m - {first} - {k} == m - {k} - {first};
    }
  }

  lemma MapSumUpdate<K, V>(m: map<K, V>, k: K, v: V, f: V -> real)
    ensures MapSum(m[k := v], f) == f(v) + MapSum(m - {k}, f)
    ensures k !in m ==> m - {k} == m
  {
    MapSumRemove(m[k := v], k, f);
    assert m[k := v] - {k} == m - {k};
  }

  /** Maps with the same keys, and values the function does not tell apart. */
  lemma {:induction false} MapSumAlike<K, V>(m: map<K, V>, m': map<K, V>, f: V -> real)
    requires m'.Keys == m.Keys && forall k :: k in m ==> f(m'[k]) == f(m[k])
    ensures MapSum(m', f) == MapSum(m, f)
    decreases |m|
  {
    if m == map[] {
      assert m' == map[];
    } else {
      var k :| k in m;
      MapSumRemove(m, k, f);
      MapSumRemove(m', k, f);
      MapSumAlike(m - {k}, m' - {k}, f);
    }
  }

  /** What is never below zero value by value is not below zero in all. */
  lemma {:induction false} MapSumsOutweigh<K, V>(m: map<K, V>, f: V -> real, g: V -> real)
    requires forall k :: k in m ==> f(m[k]) + g(m[k]) >= 0.0
    ensures MapSum(m, f) + MapSum(m, g) >= 0.0
    decreases |m|
  {
    if m == map[] {
    } else {
      var k :| k in m;
      MapSumRemove(m, k, f);
      MapSumRemove(m, k, g);
      MapSumsOutweigh(m - {k}, f, g);
    }
  }
}
