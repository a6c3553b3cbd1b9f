/** Sums over one numeric column of a table held as a map from primary key to value. */
module TableSums {
  import opened Machine

  ghost function Total(column: map<string, int>): int {
    if column == map[] then 0
    else
      var k :| k in column;
      column[k] + Total(column - {k})
  }

  lemma {:induction false} TotalSplit(column: map<string, int>, k: string)
    requires k in column
    ensures Total(column) == column[k] + Total(column - {k})
    decreases |column|
  {
    var j :| j in column && Total(column) == column[j] + Total(column - {j});
    if j != k {
      TotalSplit(column - {j}, k);
      TotalSplit(column - {k}, j);
      assert column - {j} - {k} == column - {k} - {j};
    }
  }

  lemma TotalPut(column: map<string, int>, k: string, v: int)
    ensures Total(column[k := v]) == Total(column - {k}) + v
    ensures k !in column ==> Total(column[k := v]) == Total(column) + v
    ensures k in column ==> Total(column[k := v]) == Total(column) - column[k] + v
  {
    TotalSplit(column[k := v], k);
    assert column[k := v] - {k} == column - {k};
    if k in column {
      TotalSplit(column, k);
    } else {
      assert column - {k} == column;
    }
  }

  lemma {:induction false} TotalMonotone(small: map<string, int>, large: map<string, int>)
    requires small.Keys <= large.Keys
    requires forall k :: k in small ==> small[k] <= large[k]
    requires forall k :: k in large ==> 0 <= large[k]
    ensures Total(small) <= Total(large)
    decreases |large|
  {
    if large != map[] {
      var k :| k in large;
      TotalSplit(large, k);
      if k in small { TotalSplit(small, k); } else { assert small - {k} == small; }
      TotalMonotone(small - {k}, large - {k});
    }
  }

  lemma {:induction false} SignedTotalBelowMagnitude(signed: map<string, int>, magnitude: map<string, int>)
    requires signed.Keys == magnitude.Keys
    requires forall k :: k in signed ==> Abs(signed[k]) == magnitude[k]
    ensures Abs(Total(signed)) <= Total(magnitude)
    decreases |signed|
  {
    if signed != map[] {
      var k :| k in signed;
      TotalSplit(signed, k);
      TotalSplit(magnitude, k);
      SignedTotalBelowMagnitude(signed - {k}, magnitude - {k});
    }
  }
}
