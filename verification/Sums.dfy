/** Adding up a weight over the values of a map. */
module Sums {

  ghost function Sum<K, V>(m: map<K, V>, weight: V -> int): int {
    if m == map[] then 0
    else
      var k :| k in m;
      weight(m[k]) + Sum(m - {k}, weight)
  }

  /** The order of adding does not matter. */
  lemma {:induction false} SumWithout<K, V>(m: map<K, V>, weight: V -> int, k: K)
    requires k in m
    ensures Sum(m, weight) == weight(m[k]) + Sum(m - {k}, weight)
    decreases |m|
  {
    var p :| p in m && Sum(m, weight) == weight(m[p]) + Sum(m - {p}, weight);
    if p != k {
      SumWithout(m - {p}, weight, k);
      SumWithout(m - {k}, weight, p);
      assert m - {p} - {k} == m - {k} - {p};
    }
  }

  lemma SumWith<K, V>(m: map<K, V>, weight: V -> int, k: K, v: V)
    requires k !in m
    ensures Sum(m[k := v], weight) == Sum(m, weight) + weight(v)
  {
    SumWithout(m[k := v], weight, k);
    assert m[k := v] - {k} == m;
  }
}
