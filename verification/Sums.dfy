/** Sums over finite maps. */
module Sums {

  ghost function Some<K>(m: map<K, int>): (k: K)
    requires |m| > 0
    ensures k in m
  {
    var k :| k in m; k
  }

  ghost function Total<K>(m: map<K, int>): int
    decreases |m|
  {
    if |m| == 0 then 0 else m[Some(m)] + Total(m - {Some(m)})
  }

  /** Any key may be taken out first. */
  lemma {:induction false} TotalWithout<K>(m: map<K, int>, k: K)
    requires k in m
    ensures Total(m) == m[k] + Total(m - {k})
    decreases |m|
  {
    var j := Some(m);
    if j != k {
      var mj, mk := m - {j}, m - {k};
      TotalWithout(mj, k);
      TotalWithout(mk, j);
      assert mj - {k} == mk - {j};
    }
  }

  lemma TotalPut<K>(m: map<K, int>, k: K, v: int)
    ensures Total(m[k := v]) == Total(m) + v - if k in m then m[k] else 0
  {
    TotalWithout(m[k := v], k);
    assert m[k := v] - {k} == m - {k};
    if k in m {
      TotalWithout(m, k);
    } else {
      assert m - {k} == m;
    }
  }

  lemma {:induction false} TotalOfZeros<K>(m: map<K, int>)
    requires forall k :: k in m ==> m[k] == 0
    ensures Total(m) == 0
    decreases |m|
  {
    if |m| > 0 {
      var k := Some(m);
      TotalOfZeros(m - {k});
    }
  }

  lemma {:induction false} TotalNotNegative<K>(m: map<K, int>)
    requires forall k :: k in m ==> m[k] >= 0
    ensures Total(m) >= 0
    decreases |m|
  {
    if |m| > 0 {
      var k := Some(m);
      TotalNotNegative(m - {k});
    }
  }
}
