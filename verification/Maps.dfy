/** Sums over maps of numbers. */
module Maps {
  ghost function SumMap(m: map<nat, nat>): nat {
    if m == map[] then 0
    else
      var k :| k in m;
      m[k] + SumMap(m - {k})
  }

  /** Any key can be taken out first. */
  lemma {:induction false} SumMapWithout(m: map<nat, nat>, k: nat)
    requires k in m
    ensures SumMap(m) == m[k] + SumMap(m - {k})
    decreases |m|
  {
    var j :| j in m && SumMap(m) == m[j] + SumMap(m - {j});
    if j != k {
      SumMapWithout(m - {j}, k);
      SumMapWithout(m - {k}, j);
      assert m - {j} - {k} == m - {k} - {j};
    }
  }

  lemma SumMapAdd(m: map<nat, nat>, k: nat, v: nat)
    requires k !in m
    ensures SumMap(m[k := v]) == SumMap(m) + v
  {
    SumMapWithout(m[k := v], k);
    assert m[k := v] - {k} == m;
  }

  lemma SumMapUpdate(m: map<nat, nat>, k: nat, v: nat)
    requires k in m
    ensures SumMap(m[k := v]) + m[k] == SumMap(m) + v
  {
    SumMapWithout(m, k);
    SumMapAdd(m - {k}, k, v);
    assert (m - {k})[k := v] == m[k := v];
  }

  lemma EachIsBelowSum(m: map<nat, nat>, k: nat)
    requires k in m
    ensures m[k] <= SumMap(m)
  {}

  lemma {:induction false} SumMapMono(m: map<nat, nat>, n: map<nat, nat>)
    requires m.Keys == n.Keys && forall k :: k in m ==> m[k] <= n[k]
    ensures SumMap(m) <= SumMap(n)
    decreases |m|
  {
    if m != map[] {
      var k :| k in m && SumMap(m) == m[k] + SumMap(m - {k});
      SumMapWithout(n, k);
      SumMapMono(m - {k}, n - {k});
    }
  }
}
