/** Sums of integer maps, as a SQL SUM over the selected rows. */
module MapSums {
  ghost function Sum<K>(m: map<K, int>): int {
    if m == map[] then 0
    else
      var k :| k in m;
      m[k] + Sum(m - {k})
  }

  function Get<K>(m: map<K, int>, k: K): int {
    if k in m then m[k] else 0
  }

  /** The order in which rows are added up does not matter. */
  lemma {:induction false} SumWithout<K>(m: map<K, int>, k: K)
    ensures Sum(m) == Get(m, k) + Sum(m - {k})
    decreases |m|
  {
    if m == map[] {
      assert m - {k} == m;
    } else if k !in m {
      assert m - {k} == m;
    } else {
      var j :| j in m && Sum(m) == m[j] + Sum(m - {j});
      if j != k {
        SumWithout(m - {j}, k);
        SumWithout(m - {k}, j);
        assert m - {j} - {k} == m - {k} - {j};
      }
    }
  }

  lemma {:induction false} ZeroSum<K>(m: map<K, int>)
    requires forall k :: k in m ==> m[k] == 0
    ensures Sum(m) == 0
    decreases |m|
  {
    if m != map[] {
      var k :| k in m && Sum(m) == m[k] + Sum(m - {k});
      ZeroSum(m - {k});
    }
  }

  lemma SumPut<K>(m: map<K, int>, k: K, v: int)
    ensures Sum(m[k := v]) == Sum(m) - Get(m, k) + v
  {
    SumWithout(m, k);
    SumWithout(m[k := v], k);
    assert m[k := v] - {k} == m - {k};
  }
}
