/** The total of the quantities held in a table, used to state that a
    reservation moves units from stock to order lines without creating or
    losing any. */
module Totals {

  /** Sum of the values of `m` at the keys `ks`. */
  ghost function SumOver<K>(m: map<K, int>, ks: set<K>): int
    requires ks <= m.Keys
    decreases ks
  {
    if ks == {} then 0
    else
      var k :| k in ks;
      m[k] + SumOver(m, ks - {k})
  }

  /** Sum of all values of `m`. */
  ghost function Total<K>(m: map<K, int>): int {
    SumOver(m, m.Keys)
  }

  /** Any key can be taken out first: the sum does not depend on the
      order in which the keys are visited. */
  lemma {:induction false} SumOverRemove<K>(m: map<K, int>, ks: set<K>, k: K)
    requires ks <= m.Keys && k in ks
    ensures SumOver(m, ks) == m[k] + SumOver(m, ks - {k})
    decreases ks
  {
    var j :| j in ks && SumOver(m, ks) == m[j] + SumOver(m, ks - {j});
    if j != k {
      SumOverRemove(m, ks - {j}, k);
      SumOverRemove(m, ks - {k}, j);
      assert ks - {j} - {k} == ks - {k} - {j};
    }
  }

  /** The sum over `ks` only looks at the values at `ks`. */
  lemma {:induction false} SumOverFrame<K>(m: map<K, int>, ks: set<K>, k: K, v: int)
    requires ks <= m.Keys && k !in ks
    ensures SumOver(m[k := v], ks) == SumOver(m, ks)
    decreases ks
  {
    if ks != {} {
      var j :| j in ks;
      SumOverRemove(m, ks, j);
      SumOverRemove(m[k := v], ks, j);
      SumOverFrame(m, ks - {j}, k, v);
    }
  }

  /** Setting one entry changes the total by the difference between the
      new value and the old one (0 for a new key). */
  lemma TotalUpdate<K>(m: map<K, int>, k: K, v: int)
    ensures Total(m[k := v]) == Total(m) - (if k in m then m[k] else 0) + v
  {
    var m' := m[k := v];
    SumOverRemove(m', m'.Keys, k);
    assert m'.Keys - {k} == m.Keys - {k};
    SumOverFrame(m, m.Keys - {k}, k, v);
    if k in m {
      SumOverRemove(m, m.Keys, k);
    } else {
      assert m.Keys - {k} == m.Keys;
    }
  }
}
