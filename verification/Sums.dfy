/** Totals of a map of weights: the measure of a machine whose threads each have work left. */
module Sums {

  ghost function Total<K>(w: map<K, nat>): nat
    decreases |w|
  {
    if w == map[] then 0 else
      var k :| k in w;
      w[k] + Total(w - {k})
  }

  lemma {:induction false} TotalRemove<K>(w: map<K, nat>, k: K)
    requires k in w
    ensures Total(w) == w[k] + Total(w - {k})
    decreases |w|
  {
    var j :| j in w && Total(w) == w[j] + Total(w - {j});
    if j != k {
      TotalRemove(w - {j}, k);
      TotalRemove(w - {k}, j);
      assert w - {j} - {k} == w - {k} - {j};
    }
  }

  /** Changing one weight changes the total by as much. */
  lemma TotalUpdate<K>(w: map<K, nat>, k: K, v: nat)
    requires k in w
    ensures Total(w[k := v]) + w[k] == Total(w) + v
  {
    TotalRemove(w, k);
    TotalRemove(w[k := v], k);
    assert w[k := v] - {k} == w - {k};
  }
}
