/** Sums over finite maps, independent of iteration order. */
module FiniteSums {

  ghost function Pick<K>(m: map<K, int>): (k: K)
    requires |m| != 0
    ensures k in m
  {
    assert m.Keys != {};
    var k :| k in m.Keys;
    k
  }

  ghost function Sum<K>(m: map<K, int>): int
    decreases |m|
  {
    if |m| == 0 then 0 else
      var k := Pick(m);
      assert (m - {k}).Keys == m.Keys - {k};
      m[k] + Sum(m - {k})
  }

  /** Any entry may be taken out first: the sum does not depend on the order of iteration. */
  lemma {:induction false} SumExtract<K>(m: map<K, int>, k: K)
    requires k in m
    ensures Sum(m) == m[k] + Sum(m - {k})
    decreases |m|
  {
    var j := Pick(m);
    if j != k {
      assert (m - {j}).Keys == m.Keys - {j};
      assert (m - {k}).Keys == m.Keys - {k};
      SumExtract(m - {j}, k);
      SumExtract(m - {k}, j);
      assert m - {j} - {k} == m - {k} - {j};
    }
  }

  lemma SumUpdate<K>(m: map<K, int>, k: K, v: int)
    ensures Sum(m[k := v]) == Sum(m) - (if k in m then m[k] else 0) + v
  {
    SumExtract(m[k := v], k);
    if k in m {
      SumExtract(m, k);
      assert m[k := v] - {k} == m - {k};
    } else {
      assert m[k := v] - {k} == m;
    }
  }

  lemma {:induction false} SumNonNegative<K>(m: map<K, int>)
    requires forall k :: k in m ==> m[k] >= 0
    ensures Sum(m) >= 0
    decreases |m|
  {
    if |m| != 0 {
      var k := Pick(m);
      assert (m - {k}).Keys == m.Keys - {k};
      SumNonNegative(m - {k});
    }
  }

  /** A sum over a map that adds a part to every entry of another. */
  lemma {:induction false} SumOfPointwiseSum<K>(m: map<K, int>, a: map<K, int>, b: map<K, int>)
    requires m.Keys == a.Keys == b.Keys
    requires forall k :: k in m ==> m[k] == a[k] + b[k]
    ensures Sum(m) == Sum(a) + Sum(b)
    decreases |m|
  {
    if |m| != 0 {
      var k := Pick(m);
      SumExtract(a, k);
      SumExtract(b, k);
      assert (m - {k}).Keys == m.Keys - {k};
      SumOfPointwiseSum(m - {k}, a - {k}, b - {k});
    }
  }

  /** A map with more and larger entries has the larger sum. */
  lemma {:induction false} SumMonotone<K>(m: map<K, int>, n: map<K, int>)
    requires m.Keys <= n.Keys
    requires forall k :: k in n ==> n[k] >= if k in m then m[k] else 0
    ensures Sum(n) >= Sum(m)
    ensures (forall k :: k in n ==> n[k] == if k in m then m[k] else 0) ==> Sum(n) == Sum(m)
    decreases |n|
  {
    if |n| != 0 {
      var k := Pick(n);
      assert (n - {k}).Keys == n.Keys - {k};
      if k in m {
        SumExtract(m, k);
        assert (m - {k}).Keys == m.Keys - {k};
        SumMonotone(m - {k}, n - {k});
      } else {
        SumMonotone(m, n - {k});
      }
    } else {
      assert m == map[];
    }
  }
}
