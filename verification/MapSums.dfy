/** The sum of the values of a map, in whatever order they are added. */
module MapSums {

  ghost function Total<K(!new)>(m: map<K, nat>): nat
    decreases |m|
  {
    if m == map[] then 0 else var k :| k in m; m[k] + Total(m - {k})
  }

  lemma {:induction false} TotalIsAnyOrder<K(!new)>(m: map<K, nat>, k: K)
    requires k in m
    ensures Total(m) == m[k] + Total(m - {k})
    decreases |m|
  {
    var j :| j in m && Total(m) == m[j] + Total(m - {j});
    if j != k {
      TotalIsAnyOrder(m - {j}, k);
      TotalIsAnyOrder(m - {k}, j);
      assert m - {j} - {k} == m - {k} - {j};
    }
  }

  lemma TotalAfterUpdate<K(!new)>(m: map<K, nat>, k: K, v: nat)
    ensures Total(m[k := v]) == Total(m) - (if k in m then m[k] else 0) + v
  {
    TotalIsAnyOrder(m[k := v], k);
    if k in m {
      TotalIsAnyOrder(m, k);
      assert m[k := v] - {k} == m - {k};
    } else {
      assert m[k := v] - {k} == m;
    }
  }

  lemma {:induction false} TotalIsPositive<K(!new)>(m: map<K, nat>)
    requires m != map[] && forall k <- m :: m[k] > 0
    ensures Total(m) > 0
  {
    var k :| k in m;
    TotalIsAnyOrder(m, k);
  }
}
