/** Sums over the values of a map, and how they change with the map. */
module MapSums {

  ghost function Sum<K(!new), V(!new)>(m: map<K, V>, f: V -> int): int
    decreases |m|
  {
    if m == map[] then 0 else var k :| k in m; f(m[k]) + Sum(m - {k}, f)
  }

  lemma {:induction false} SumRemove<K(!new), V(!new)>(m: map<K, V>, k: K, f: V -> int)
    requires k in m
    ensures Sum(m, f) == f(m[k]) + Sum(m - {k}, f)
    decreases |m|
  {
    var first :| first in m && Sum(m, f) == f(m[first]) + Sum(m - {first}, f);
    if first != k {
      SumRemove(m - {first}, k, f);
      SumRemove(m - {k}, first, f);
      assert (m - {first}) - {k} == (m - {k}) - {first};
    }
  }

  lemma {:induction false} SumUpdate<K(!new), V(!new)>(m: map<K, V>, k: K, v: V, f: V -> int)
    ensures Sum(m[k := v], f) == f(v) + Sum(m, f) - (if k in m then f(m[k]) else 0)
  {
    SumRemove(m[k := v], k, f);
    assert m[k := v] - {k} == m - {k};
    if k in m {
      SumRemove(m, k, f);
    } else {
      assert m - {k} == m;
    }
  }
}
