/** Totals of finite maps, the measure behind every conservation statement here. */
module Sums {

  function Get<K>(m: map<K, nat>, k: K): nat {
    if k in m then m[k] else 0
  }

  ghost function Total<K>(m: map<K, nat>): nat
    decreases |m|
  {
    if m == map[] then 0 else
      var k :| k in m;
      m[k] + Total(m - {k})
  }

  lemma {:induction false} TotalRemove<K>(m: map<K, nat>, k: K)
    requires k in m
    ensures Total(m) == m[k] + Total(m - {k})
    decreases |m|
  {
    var first :| first in m && Total(m) == m[first] + Total(m - {first});
    if first != k {
      TotalRemove(m - {first}, k);
      TotalRemove(m - {k}, first);
      assert m - {first} - {k} == m - {k} - {first};
    }
  }

  /** Writing one entry changes the total by the difference. */
  lemma TotalSet<K>(m: map<K, nat>, k: K, v: nat)
    ensures Total(m[k := v]) == Total(m) - Get(m, k) + v
    ensures Get(m, k) <= Total(m)
  {
    TotalRemove(m[k := v], k);
    assert m[k := v] - {k} == m - {k};
    if k in m {
      TotalRemove(m, k);
    } else {
      assert m - {k} == m;
    }
  }

  /** A part never totals more than the whole. */
  lemma {:induction false} TotalMonotone<K>(m: map<K, nat>, n: map<K, nat>)
    requires forall k :: k in m ==> k in n && m[k] <= n[k]
    ensures Total(m) <= Total(n)
    decreases |m|
  {
    if m != map[] {
      var k :| k in m;
      TotalRemove(m, k);
      TotalRemove(n, k);
      TotalMonotone(m - {k}, n - {k});
    }
  }
}
