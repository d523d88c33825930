/** Sums over finite maps. */
module MapSums {
  import opened Iteration

  ghost function Sum(m: map<int, int>): int
    decreases |m|
  {
    if m == map[] then 0
    else
      Inhabited(m.Keys);
      var k :| k in m;
      m[k] + Sum(m - {k})
  }

  /** The sum does not depend on the order in which the keys are visited. */
  lemma {:induction false} SumWithout(m: map<int, int>, k: int)
    requires k in m
    ensures Sum(m) == m[k] + Sum(m - {k})
    decreases |m|
  {
    var j :| j in m && Sum(m) == m[j] + Sum(m - {j});
    if j != k {
      SumWithout(m - {j}, k);
      SumWithout(m - {k}, j);
      assert m - {j} - {k} == m - {k} - {j};
    }
  }

  lemma SumUpdate(m: map<int, int>, k: int, v: int)
    ensures Sum(m[k := v]) == Sum(m) + v - if k in m then m[k] else 0
  {
    SumWithout(m[k := v], k);
    assert m[k := v] - {k} == m - {k};
    if k in m {
      SumWithout(m, k);
    } else {
      assert m - {k} == m;
    }
  }

  lemma {:induction false} SumAtLeast(m: map<int, int>, k: int)
    requires k in m && forall j <- m :: m[j] >= 0
    ensures Sum(m) >= m[k]
    decreases |m|
  {
    SumWithout(m, k);
    SumNonNegative(m - {k});
  }

  lemma {:induction false} SumNonNegative(m: map<int, int>)
    requires forall j <- m :: m[j] >= 0
    ensures Sum(m) >= 0
    decreases |m|
  {
    if m == map[] {
    } else {
      Inhabited(m.Keys);
      var k :| k in m;
      SumWithout(m, k);
      SumNonNegative(m - {k});
    }
  }
}
