/** Sums of a weight over the values of a finite map. */
module Sums {

  ghost function SumOver<K(!new), V>(m: map<K, V>, w: V -> nat, keys: set<K>): nat
    requires keys <= m.Keys
  {
    if keys == {} then 0
    else
      var k :| k in keys;
      w(m[k]) + SumOver(m, w, keys - {k})
  }

  ghost function Sum<K(!new), V>(m: map<K, V>, w: V -> nat): nat {
    SumOver(m, w, m.Keys)
  }

  lemma {:induction false} SplitOver<K(!new), V>(m: map<K, V>, w: V -> nat, keys: set<K>, k: K)
    requires k in keys && keys <= m.Keys
    ensures SumOver(m, w, keys) == w(m[k]) + SumOver(m, w, keys - {k})
  {
    var j :| j in keys && SumOver(m, w, keys) == w(m[j]) + SumOver(m, w, keys - {j});
    if j != k {
      SplitOver(m, w, keys - {j}, k);
      SplitOver(m, w, keys - {k}, j);
      assert keys - {j} - {k} == keys - {k} - {j};
    }
  }

  lemma {:induction false} SameOver<K(!new), V>(m: map<K, V>, n: map<K, V>, w: V -> nat, keys: set<K>)
    requires keys <= m.Keys && keys <= n.Keys
    requires forall k :: k in keys ==> m[k] == n[k]
    ensures SumOver(m, w, keys) == SumOver(n, w, keys)
  {
    if keys != {} {
      var k :| k in keys;
      SplitOver(m, w, keys, k);
      SplitOver(n, w, keys, k);
      SameOver(m, n, w, keys - {k});
    }
  }

  lemma SumDrop<K(!new), V>(m: map<K, V>, w: V -> nat, k: K)
    requires k in m
    ensures Sum(m, w) == w(m[k]) + Sum(m - {k}, w)
  {
    SplitOver(m, w, m.Keys, k);
    SameOver(m, m - {k}, w, m.Keys - {k});
    assert (m - {k}).Keys == m.Keys - {k};
  }

  /** Writing one key changes the sum by that key's weight. */
  lemma SumPut<K(!new), V>(m: map<K, V>, w: V -> nat, k: K, v: V)
    ensures Sum(m[k := v], w) == Sum(m, w) + w(v) - if k in m then w(m[k]) else 0
  {
    SumDrop(m[k := v], w, k);
    assert m[k := v] - {k} == m - {k};
    if k in m {
      SumDrop(m, w, k);
    } else {
      assert m - {k} == m;
    }
  }

  /** A key's weight is at most the sum. */
  lemma SumAtLeast<K(!new), V>(m: map<K, V>, w: V -> nat, k: K)
    requires k in m
    ensures w(m[k]) <= Sum(m, w)
  {
    SumDrop(m, w, k);
  }

  /** A sum of zero weights is zero. */
  lemma {:induction false} SumZero<K(!new), V>(m: map<K, V>, w: V -> nat)
    requires forall k :: k in m ==> w(m[k]) == 0
    ensures Sum(m, w) == 0
    decreases m.Keys
  {
    if m.Keys != {} {
      var k :| k in m;
      SumDrop(m, w, k);
      SumZero(m - {k}, w);
    }
  }
}
