/** The sum of a map's values. */
module Sums {

  ghost function Sum<K(!new)>(counts: map<K, int>): int
    decreases |counts|
  {
    if counts == map[] then 0
    else
      var k :| k in counts;
      counts[k] + Sum(counts - {k})
  }

  /** The sum does not depend on the order in which the counts are taken. */
  lemma {:induction false} SumWithout<K(!new)>(counts: map<K, int>, k: K)
    requires k in counts
    ensures Sum(counts) == counts[k] + Sum(counts - {k})
    decreases |counts|
  {
    var j :| j in counts && Sum(counts) == counts[j] + Sum(counts - {j});
    if j != k {
      SumWithout(counts - {j}, k);
      SumWithout(counts - {k}, j);
      assert counts - {j} - {k} == counts - {k} - {j};
    }
  }

  lemma SumUpdate<K(!new)>(counts: map<K, int>, k: K, v: int)
    ensures Sum(counts[k := v]) == Sum(counts) - (if k in counts then counts[k] else 0) + v
  {
    SumWithout(counts[k := v], k);
    if k in counts {
      SumWithout(counts, k);
      assert counts[k := v] - {k} == counts - {k};
    } else {
      assert counts[k := v] - {k} == counts;
    }
  }
}
