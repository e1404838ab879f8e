/** Totals over logs and over mappings. */
module Sums {

  function Sum<T>(f: T -> nat, s: seq<T>): nat {
    if s == [] then 0 else Sum(f, s[..|s| - 1]) + f(s[|s| - 1])
  }

  lemma SumSnoc<T>(f: T -> nat, s: seq<T>, x: T)
    ensures Sum(f, s + [x]) == Sum(f, s) + f(x)
  {
    assert (s + [x])[..|s|] == s;
  }

  /** Total of f over the values of a mapping. */
  ghost function MapSum<V>(f: V -> nat, m: map<nat, V>): nat
    decreases |m|
  {
    if m == map[] then 0
    else
      var k :| k in m;
      f(m[k]) + MapSum(f, m - {k})
  }

  lemma {:induction false} MapSumSplit<V>(f: V -> nat, m: map<nat, V>, k: nat)
    requires k in m
    ensures MapSum(f, m) == f(m[k]) + MapSum(f, m - {k})
    decreases |m|
  {
    var j: nat :| j in m && MapSum(f, m) == f(m[j]) + MapSum(f, m - {j});
    if j != k {
      MapSumSplit(f, m - {j}, k);
      MapSumSplit(f, m - {k}, j);
      assert m - {j} - {k} == m - {k} - {j};
    }
  }

  /** What f gives for the value at k, 0 where nothing is stored. */
  function At<V>(f: V -> nat, m: map<nat, V>, k: nat): nat {
    if k in m then f(m[k]) else 0
  }

  lemma MapSumPut<V>(f: V -> nat, m: map<nat, V>, k: nat, v: V)
    ensures MapSum(f, m[k := v]) + At(f, m, k) == MapSum(f, m) + f(v)
  {
    MapSumSplit(f, m[k := v], k);
    assert m[k := v] - {k} == m - {k};
    MapSumDelete(f, m, k);
  }

  lemma MapSumDelete<V>(f: V -> nat, m: map<nat, V>, k: nat)
    ensures MapSum(f, m - {k}) + At(f, m, k) == MapSum(f, m)
  {
    if k in m {
      MapSumSplit(f, m, k);
    } else {
      assert m - {k} == m;
    }
  }
}
