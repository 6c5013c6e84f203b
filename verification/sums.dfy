/**
 Totals over maps and sequences of natural numbers, used to state that the
 contract neither creates nor destroys value.
 */
module Sums {

  /** Sum of the values of a finite map. */
  ghost function SumMap<K>(m: map<K, nat>): nat
    decreases m.Keys
  {
    if m.Keys == {} then 0
    else
      var k :| k in m;
      m[k] + SumMap(m - {k})
  }

  /** Any key can be the one taken out first. */
  lemma {:induction false} SumMapRemove<K>(m: map<K, nat>, k: K)
    requires k in m
    ensures SumMap(m) == m[k] + SumMap(m - {k})
    decreases m.Keys
  {
    var j :| j in m && SumMap(m) == m[j] + SumMap(m - {j});
    if j != k {
      SumMapRemove(m - {j}, k);
      SumMapRemove(m - {k}, j);
      assert m - {j} - {k} == m - {k} - {j};
    }
  }

  lemma SumMapInsert<K>(m: map<K, nat>, k: K, v: nat)
    requires k !in m
    ensures SumMap(m[k := v]) == SumMap(m) + v
  {
    SumMapRemove(m[k := v], k);
    assert m[k := v] - {k} == m;
  }

  lemma SumMapUpdate<K>(m: map<K, nat>, k: K, v: nat)
    requires k in m
    ensures SumMap(m[k := v]) + m[k] == SumMap(m) + v
  {
    SumMapRemove(m[k := v], k);
    SumMapRemove(m, k);
    assert m[k := v] - {k} == m - {k};
  }

  /** Sum of a sequence, taken from the back. */
  function SeqSum(xs: seq<nat>): nat {
    if |xs| == 0 then 0 else SeqSum(xs[..|xs| - 1]) + xs[|xs| - 1]
  }

  lemma SeqSumAppend(xs: seq<nat>, v: nat)
    ensures SeqSum(xs + [v]) == SeqSum(xs) + v
  {
  }

  lemma {:induction false} SeqSumUpdate(xs: seq<nat>, j: nat, v: nat)
    requires j < |xs|
    ensures SeqSum(xs[j := v]) + xs[j] == SeqSum(xs) + v
    decreases |xs|
  {
    var n := |xs| - 1;
    if j < n {
      SeqSumUpdate(xs[..n], j, v);
      assert xs[j := v][..n] == xs[..n][j := v];
    } else {
      assert xs[j := v][..n] == xs[..n];
    }
  }
}
