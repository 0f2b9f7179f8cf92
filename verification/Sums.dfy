/** Finite sums of map values, the arithmetic behind bond locks and token supply. */
module Sums {

  ghost function Pick<K>(m: map<K, nat>): (k: K)
    requires m != map[]
    ensures k in m
  {
    var k :| k in m; k
  }

  /** The sum of all the values of `m`. */
  ghost function Sum<K>(m: map<K, nat>): nat
    decreases |m|
  {
    if m == map[] then 0
    else
      var k := Pick(m);
      assert (m - {k}).Keys == m.Keys - {k};
      m[k] + Sum(m - {k})
  }

  /** Any key may be taken out first, whichever one the definition picks. */
  lemma {:induction false} SumRemove<K>(m: map<K, nat>, k: K)
    requires k in m
    ensures Sum(m) == m[k] + Sum(m - {k})
    decreases |m|
  {
    var p := Pick(m);
    if p != k {
      assert (m - {p}).Keys == m.Keys - {p};
      assert (m - {k}).Keys == m.Keys - {k};
      SumRemove(m - {p}, k);
      SumRemove(m - {k}, p);
      assert m - {p} - {k} == m - {k} - {p};
    }
  }

  function At<K>(m: map<K, nat>, k: K): nat {
    if k in m then m[k] else 0
  }

  lemma SumUpdate<K>(m: map<K, nat>, k: K, v: nat)
    ensures Sum(m[k := v]) + At(m, k) == Sum(m) + v
  {
    SumRemove(m[k := v], k);
    assert m[k := v] - {k} == m - {k};
    if k in m {
      SumRemove(m, k);
    } else {
      assert m - {k} == m;
    }
  }

  lemma SumTwo<K>(m: map<K, nat>, a: K, b: K)
    requires a in m && b in m && a != b
    ensures m[a] + m[b] <= Sum(m)
  {
    SumRemove(m, a);
    SumRemove(m - {a}, b);
  }
}
