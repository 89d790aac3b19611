/** Sums over the values of a map, in any order. */
module MapSum {

  ghost function Sum<K(!new)>(m: map<K, nat>): nat
    decreases |m|
  {
    if m == map[] then 0
    else
      var k :| k in m;
      assert |m.Keys - {k}| < |m.Keys|;
      assert (m - {k}).Keys == m.Keys - {k};
      m[k] + Sum(m - {k})
  }

  /** Any entry may be taken out first. */
  lemma {:induction false} SumWithout<K(!new)>(m: map<K, nat>, k: K)
    requires k in m
    ensures Sum(m) == m[k] + Sum(m - {k})
    decreases |m|
  {
    var j :| j in m && Sum(m) == m[j] + Sum(m - {j});
    if j != k {
      assert |m.Keys - {j}| < |m.Keys|;
      assert (m - {j}).Keys == m.Keys - {j};
      SumWithout(m - {j}, k);
      assert m - {j} - {k} == m - {k} - {j};
      assert |m.Keys - {k}| < |m.Keys|;
      assert (m - {k}).Keys == m.Keys - {k};
      SumWithout(m - {k}, j);
    }
  }

  lemma SumUpdate<K(!new)>(m: map<K, nat>, k: K, v: nat)
    ensures Sum(m[k := v]) == v + Sum(m - {k})
    ensures Sum(m[k := v]) == Sum(m) + v - (if k in m then m[k] else 0)
  {
    SumWithout(m[k := v], k);
    assert m[k := v] - {k} == m - {k};
    if k in m { SumWithout(m, k); } else { assert m - {k} == m; }
  }

  function Restrict<K, V>(m: map<K, V>, ks: set<K>): map<K, V> {
    map k | k in m && k in ks :: m[k]
  }

  lemma {:induction false} SumSplit<K(!new)>(m: map<K, nat>, ks: set<K>)
    ensures Sum(m) == Sum(m - ks) + Sum(Restrict(m, ks))
    decreases |ks|
  {
    var inside := Restrict(m, ks);
    if ks == {} {
      assert m - ks == m && inside == map[];
    } else {
      var k :| k in ks;
      assert |ks - {k}| < |ks|;
      SumSplit(m, ks - {k});
      var less := Restrict(m, ks - {k});
      if k in m {
        SumWithout(m - (ks - {k}), k);
        assert m - (ks - {k}) - {k} == m - ks;
        SumUpdate(less, k, m[k]);
        assert less[k := m[k]] == inside;
      } else {
        assert m - (ks - {k}) == m - ks && less == inside;
      }
    }
  }
}
