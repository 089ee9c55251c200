/** Sums over finite tables of amounts, independent of enumeration order. */
module Sums {
  type Amounts = map<string, int>

  ghost function Sum(m: Amounts): int
    decreases |m|
  {
    if m == map[] then 0 else
      var k :| k in m;
      m[k] + Sum(m - {k})
  }

  function Restrict(m: Amounts, keys: set<string>): (r: Amounts)
    ensures forall k :: k in r <==> k in m && k in keys
    ensures forall k :: k in r ==> r[k] == m[k]
  {
    map k | k in m && k in keys :: m[k]
  }

  lemma {:induction false} SumRemove(m: Amounts, k: string)
    requires k in m
    ensures Sum(m) == m[k] + Sum(m - {k})
    decreases |m|
  {
    var j :| j in m && Sum(m) == m[j] + Sum(m - {j});
    if j != k {
      SumRemove(m - {j}, k);
      SumRemove(m - {k}, j);
      assert m - {j} - {k} == m - {k} - {j};
    }
  }

  lemma SumInsert(m: Amounts, k: string, v: int)
    requires k !in m
    ensures Sum(m[k := v]) == Sum(m) + v
  {
    SumRemove(m[k := v], k);
    assert m[k := v] - {k} == m;
  }

  lemma {:induction false} SumSplit(m: Amounts, keys: set<string>)
    ensures Sum(m) == Sum(Restrict(m, keys)) + Sum(m - keys)
    decreases |m|
  {
    if m == map[] {
      assert Restrict(m, keys) == map[] && m - keys == map[];
    } else {
      var k :| k in m;
      SumSplit(m - {k}, keys);
      SumRemove(m, k);
      if k in keys {
        SumRemove(Restrict(m, keys), k);
        assert Restrict(m, keys) - {k} == Restrict(m - {k}, keys);
        assert m - keys == m - {k} - keys;
      } else {
        SumRemove(m - keys, k);
        assert Restrict(m, keys) == Restrict(m - {k}, keys);
        assert m - keys - {k} == m - {k} - keys;
      }
    }
  }

  lemma {:induction false} SumNonNegative(m: Amounts)
    requires forall k :: k in m ==> m[k] > 0
    ensures Sum(m) >= |m|
    decreases |m|
  {
    if m != map[] {
      var k :| k in m;
      SumRemove(m, k);
      SumNonNegative(m - {k});
      assert |m - {k}| == |m| - 1 by { assert m == (m - {k})[k := m[k]]; }
    }
  }

  /** A smaller table of positive amounts has a smaller sum. */
  lemma SumMonotone(small: Amounts, big: Amounts)
    requires forall k :: k in big ==> big[k] > 0
    requires forall k :: k in small ==> k in big && small[k] == big[k]
    ensures Sum(small) <= Sum(big)
  {
    SumSplit(big, small.Keys);
    assert Restrict(big, small.Keys) == small;
    SumNonNegative(big - small.Keys);
  }
}
