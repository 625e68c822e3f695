/** Aggregates over a keyed table, as the SQL statements of the claim ledger compute them. */
module Tables {
  lemma DropShrinks<K, V>(rows: map<K, V>, k: K)
    requires k in rows
    ensures |rows - {k}| == |rows| - 1
  {
    assert (rows - {k}).Keys == rows.Keys - {k};
    assert |rows.Keys| == |rows| && |(rows - {k}).Keys| == |rows - {k}|;
  }

  /** The sum of `weight` over all rows. */
  ghost function Sum<K, V>(rows: map<K, V>, weight: (K, V) -> nat): (total: nat)
    decreases |rows|
  {
    if rows == map[] then 0
    else
      var k :| k in rows;
      assert |rows - {k}| < |rows| by { DropShrinks(rows, k); }
      weight(k, rows[k]) + Sum(rows - {k}, weight)
  }

  /** The sum does not depend on the order in which rows are taken. */
  lemma {:induction false} SumRemove<K, V>(rows: map<K, V>, k: K, weight: (K, V) -> nat)
    requires k in rows
    ensures Sum(rows, weight) == weight(k, rows[k]) + Sum(rows - {k}, weight)
    decreases |rows|
  {
    var first :| first in rows && Sum(rows, weight) == weight(first, rows[first]) + Sum(rows - {first}, weight);
    if first != k {
      DropShrinks(rows, first);
      DropShrinks(rows, k);
      SumRemove(rows - {first}, k, weight);
      SumRemove(rows - {k}, first, weight);
      assert rows - {first} - {k} == rows - {k} - {first};
    }
  }

  /** Writing one row changes the sum by the difference of the two weights. */
  lemma SumUpdate<K, V>(rows: map<K, V>, k: K, v: V, weight: (K, V) -> nat)
    ensures Sum(rows[k := v], weight)
         == Sum(rows, weight) + weight(k, v) - (if k in rows then weight(k, rows[k]) else 0)
  {
    var next := rows[k := v];
    SumRemove(next, k, weight);
    assert next - {k} == rows - {k};
    if k in rows {
      SumRemove(rows, k, weight);
    } else {
      assert rows - {k} == rows;
    }
  }
}
