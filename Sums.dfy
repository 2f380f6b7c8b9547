/** Sum of the values of a finite map, for the counter invariants of the server tables. */
module Sums {
  ghost function SumValues<K>(m: map<K, nat>): nat
    decreases |m|
  {
    if |m| == 0 then 0
    else
      var k := SomeKey(m);
      m[k] + SumValues(m - {k})
  }

  ghost function SomeKey<K>(m: map<K, nat>): (k: K)
    requires |m| > 0
    ensures k in m
  {
    var k :| k in m; k
  }

  /** The sum does not depend on which key is taken out first. */
  lemma {:induction false} SumRemove<K>(m: map<K, nat>, k: K)
    requires k in m
    ensures SumValues(m) == m[k] + SumValues(m - {k})
    decreases |m|
  {
    var j := SomeKey(m);
    if j != k {
      var mj, mk := m - {j}, m - {k};
      assert |mj| == |m| - 1 && k in mj;
      assert |mk| == |m| - 1 && j in mk;
      SumRemove(mj, k);
      SumRemove(mk, j);
      assert mj - {k} == mk - {j};
    }
  }

  lemma SumEmpty<K>(m: map<K, nat>)
    requires |m| == 0
    ensures SumValues(m) == 0
  {
  }

  /** Setting key `k` to `v` replaces its old contribution (none when absent) by `v`. */
  lemma SumUpdate<K>(m: map<K, nat>, k: K, v: nat)
    ensures SumValues(m[k := v]) == SumValues(m - {k}) + v
  {
    SumRemove(m[k := v], k);
    assert m[k := v] - {k} == m - {k};
  }

  /** Removing a key lowers the sum by that key's value, and does nothing when it is absent. */
  lemma SumRemoveAny<K>(m: map<K, nat>, k: K)
    ensures SumValues(m - {k}) == SumValues(m) - (if k in m then m[k] else 0)
  {
    if k in m {
      SumRemove(m, k);
    } else {
      assert m - {k} == m;
    }
  }
}
