// Sums over the values of a map.

module Totals {
  ghost function Total<K(!new)>(m: map<K, real>): real
    decreases m.Keys
  {
    if m == map[] then 0.0
    else var k :| k in m; m[k] + Total(m - {k})
  }

  lemma {:induction false} TotalWithout<K(!new)>(m: map<K, real>, k: K)
    requires k in m
    ensures Total(m) == m[k] + Total(m - {k})
    decreases m.Keys
  {
    var j :| j in m && Total(m) == m[j] + Total(m - {j});
    if j != k {
      TotalWithout(m - {j}, k);
      TotalWithout(m - {k}, j);
      assert m - {j} - {k} == m - {k} - {j};
    }
  }

  lemma TotalUpdate<K(!new)>(m: map<K, real>, k: K, v: real)
    ensures Total(m[k := v]) == Total(m - {k}) + v
  {
    assert m[k := v] - {k} == m - {k};
    TotalWithout(m[k := v], k);
  }

  // Dropping entries of a map without negatives never adds to the sum.
  lemma {:induction false} TotalOfPart<K(!new)>(part: map<K, real>, m: map<K, real>)
    requires part.Keys <= m.Keys && forall k | k in part :: part[k] == m[k]
    requires forall k | k in m :: m[k] >= 0.0
    ensures 0.0 <= Total(part) <= Total(m)
    decreases m.Keys
  {
    if m == map[] {
      assert part == map[];
    } else {
      var k :| k in m && Total(m) == m[k] + Total(m - {k});
      TotalOfPart(part - {k}, m - {k});
      if k in part {
        TotalWithout(part, k);
      } else {
        assert part - {k} == part;
      }
    }
  }
}
