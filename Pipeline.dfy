/**
 * The post-gather pipeline of a collect: a stable ORDER BY on output
 * columns, then OFFSET, then LIMIT.
 */
module Pipeline {
  import opened Wrappers
  import opened Values

  type Row = seq<Value>
  type Matrix = seq<Row>

  /** One order-by column: its output position and whether it sorts descending. */
  datatype OrderKey = OrderKey(column: nat, descending: bool)

  /** The cell at `column`, NULL past the end of the row. */
  function Cell(r: Row, column: nat): Value
  {
    if column < |r| then r[column] else NullValue
  }

  /**
   * Compares two rows on the order-by keys in listed order: the first key on
   * which they differ decides, a descending key reversing its comparison.
   */
  function CompareRows(a: Row, b: Row, keys: seq<OrderKey>): int
  {
    if keys == [] then 0
    else
      var c := CompareValues(Cell(a, keys[0].column), Cell(b, keys[0].column));
      var c' := if keys[0].descending then -c else c;
      if c' != 0 then c' else CompareRows(a, b, keys[1..])
  }

  predicate RowLeq(a: Row, b: Row, keys: seq<OrderKey>)
  {
    CompareRows(a, b, keys) <= 0
  }

  lemma {:induction false} CompareRowsAntisymmetric(a: Row, b: Row, keys: seq<OrderKey>)
    ensures CompareRows(a, b, keys) == -CompareRows(b, a, keys)
  {
    if keys != [] {
      CompareValuesAntisymmetric(Cell(a, keys[0].column), Cell(b, keys[0].column));
      CompareRowsAntisymmetric(a, b, keys[1..]);
    }
  }

  lemma {:induction false} CompareRowsTransitive(a: Row, b: Row, c: Row, keys: seq<OrderKey>)
    requires RowLeq(a, b, keys) && RowLeq(b, c, keys)
    ensures RowLeq(a, c, keys)
  {
    if keys != [] {
      var x, y, z := Cell(a, keys[0].column), Cell(b, keys[0].column), Cell(c, keys[0].column);
      CompareValuesZero(x, y);
      CompareValuesZero(y, z);
      CompareValuesAntisymmetric(x, y);
      CompareValuesAntisymmetric(y, z);
      CompareValuesAntisymmetric(x, z);
      if CompareValues(x, y) != 0 && CompareValues(y, z) != 0 {
        if keys[0].descending {
          CompareValuesTransitive(z, y, x);
        } else {
          CompareValuesTransitive(x, y, z);
        }
      }
      if CompareValues(x, y) == 0 && CompareValues(y, z) == 0 {
        CompareRowsTransitive(a, b, c, keys[1..]);
      }
    }
  }

  /** At least one of the two rows sorts no later than the other. */
  lemma RowLeqTotal(a: Row, b: Row, keys: seq<OrderKey>)
    ensures RowLeq(a, b, keys) || RowLeq(b, a, keys)
  {
    CompareRowsAntisymmetric(a, b, keys);
  }

  predicate Sorted(rows: Matrix, keys: seq<OrderKey>)
  {
    forall i, j | 0 <= i < j < |rows| :: RowLeq(rows[i], rows[j], keys)
  }

  /** Inserts `r` before the first row it does not sort after. */
  function InsertRow(r: Row, rows: Matrix, keys: seq<OrderKey>): (result: Matrix)
    ensures multiset(result) == multiset(rows) + multiset{r}
  {
    if rows == [] then [r]
    else if RowLeq(r, rows[0], keys) then [r] + rows
    else
      assert rows == [rows[0]] + rows[1..];
      [rows[0]] + InsertRow(r, rows[1..], keys)
  }

  /** `x` sorts no later than any row of `rows`. */
  predicate LeqAll(x: Row, rows: Matrix, keys: seq<OrderKey>)
  {
    forall k | 0 <= k < |rows| :: RowLeq(x, rows[k], keys)
  }

  lemma SortedCons(x: Row, rows: Matrix, keys: seq<OrderKey>)
    requires LeqAll(x, rows, keys) && Sorted(rows, keys)
    ensures Sorted([x] + rows, keys)
  {
    var res := [x] + rows;
    forall i, j | 0 <= i < j < |res| ensures RowLeq(res[i], res[j], keys) {
      assert res[j] == rows[j - 1];
      if i > 0 {
        assert res[i] == rows[i - 1];
      }
    }
  }

  lemma SortedTail(rows: Matrix, keys: seq<OrderKey>)
    requires rows != [] && Sorted(rows, keys)
    ensures Sorted(rows[1..], keys) && LeqAll(rows[0], rows[1..], keys)
  {
    forall i, j | 0 <= i < j < |rows[1..]| ensures RowLeq(rows[1..][i], rows[1..][j], keys) {
      assert rows[1..][i] == rows[i + 1] && rows[1..][j] == rows[j + 1];
    }
    forall k | 0 <= k < |rows[1..]| ensures RowLeq(rows[0], rows[1..][k], keys) {
      assert rows[1..][k] == rows[k + 1];
    }
  }

  lemma LeqAllInsert(x: Row, r: Row, rows: Matrix, keys: seq<OrderKey>)
    requires LeqAll(x, rows, keys) && RowLeq(x, r, keys)
    ensures LeqAll(x, InsertRow(r, rows, keys), keys)
  {
    var res := InsertRow(r, rows, keys);
    forall k | 0 <= k < |res| ensures RowLeq(x, res[k], keys) {
      assert res[k] in multiset(res);
      if res[k] != r {
        assert res[k] in multiset(rows);
        var m :| 0 <= m < |rows| && rows[m] == res[k];
      }
    }
  }

  lemma {:induction false} InsertRowSorted(r: Row, rows: Matrix, keys: seq<OrderKey>)
    requires Sorted(rows, keys)
    ensures Sorted(InsertRow(r, rows, keys), keys)
  {
    if rows != [] {
      SortedTail(rows, keys);
      if RowLeq(r, rows[0], keys) {
        forall k | 0 <= k < |rows| ensures RowLeq(r, rows[k], keys) {
          if k > 0 {
            assert rows[k] == rows[1..][k - 1];
            CompareRowsTransitive(r, rows[0], rows[k], keys);
          }
        }
        SortedCons(r, rows, keys);
      } else {
        RowLeqTotal(r, rows[0], keys);
        InsertRowSorted(r, rows[1..], keys);
        LeqAllInsert(rows[0], r, rows[1..], keys);
        SortedCons(rows[0], InsertRow(r, rows[1..], keys), keys);
      }
    }
  }

  /** Stable insertion sort of the gathered rows on the order-by keys: a permutation of them. */
  function SortRows(rows: Matrix, keys: seq<OrderKey>): (r: Matrix)
    ensures multiset(r) == multiset(rows)
    ensures |r| == |rows|
  {
    if rows == [] then []
    else
      var r := InsertRow(rows[0], SortRows(rows[1..], keys), keys);
      assert rows == [rows[0]] + rows[1..];
      assert |r| == |multiset(r)|;
      r
  }

  /** Sorting puts the rows in key order. */
  lemma {:induction false} SortRowsSorted(rows: Matrix, keys: seq<OrderKey>)
    ensures Sorted(SortRows(rows, keys), keys)
  {
    if rows != [] {
      SortRowsSorted(rows[1..], keys);
      InsertRowSorted(rows[0], SortRows(rows[1..], keys), keys);
    }
  }

  /** Rows already in key order stay where they are: the sort is stable on sorted input. */
  lemma {:induction false} SortRowsKeepsSorted(rows: Matrix, keys: seq<OrderKey>)
    requires Sorted(rows, keys)
    ensures SortRows(rows, keys) == rows
  {
    if rows != [] {
      SortedTail(rows, keys);
      SortRowsKeepsSorted(rows[1..], keys);
      if |rows| > 1 {
        assert RowLeq(rows[0], rows[1], keys);
      }
    }
  }

  /** The rows of `rows` that compare equal to `r` on the keys, in their order in `rows`. */
  function EqualKeyRows(rows: Matrix, r: Row, keys: seq<OrderKey>): Matrix
  {
    if rows == [] then []
    else (if CompareRows(rows[0], r, keys) == 0 then [rows[0]] else []) + EqualKeyRows(rows[1..], r, keys)
  }

  /** Two rows that compare equal to a third compare equal to each other. */
  lemma EqualKeysShared(x: Row, y: Row, r: Row, keys: seq<OrderKey>)
    requires CompareRows(x, r, keys) == 0 && CompareRows(y, r, keys) == 0
    ensures CompareRows(x, y, keys) == 0
  {
    CompareRowsAntisymmetric(x, r, keys);
    CompareRowsAntisymmetric(y, r, keys);
    CompareRowsAntisymmetric(x, y, keys);
    CompareRowsTransitive(x, r, y, keys);
    CompareRowsTransitive(y, r, x, keys);
  }

  lemma EqualKeyRowsCons(h: Row, t: Matrix, r: Row, keys: seq<OrderKey>)
    ensures EqualKeyRows([h] + t, r, keys) == (if CompareRows(h, r, keys) == 0 then [h] else []) + EqualKeyRows(t, r, keys)
  {
    assert ([h] + t)[0] == h && ([h] + t)[1..] == t;
  }

  /** Two runs of which at least one is empty may be swapped in front of a third. */
  lemma SwapAroundEmpty(first: Matrix, head: Matrix, rest: Matrix)
    requires |first| == 0 || |head| == 0
    ensures first + (head + rest) == head + (first + rest)
  {
    if |first| == 0 {
      assert first + (head + rest) == head + rest;
      assert first + rest == rest;
    } else {
      assert head + rest == rest;
      assert head + (first + rest) == first + rest;
    }
  }

  /** Passing over a row that sorts strictly before `x` keeps the two in their order among equal rows. */
  lemma InsertRowStableStep(x: Row, rows: Matrix, r: Row, keys: seq<OrderKey>)
    requires rows != [] && !RowLeq(x, rows[0], keys)
    requires EqualKeyRows(InsertRow(x, rows[1..], keys), r, keys) ==
      (if CompareRows(x, r, keys) == 0 then [x] else []) + EqualKeyRows(rows[1..], r, keys)
    ensures EqualKeyRows(InsertRow(x, rows, keys), r, keys) ==
      (if CompareRows(x, r, keys) == 0 then [x] else []) + EqualKeyRows(rows, r, keys)
  {
    var tail := InsertRow(x, rows[1..], keys);
    var head: Matrix := if CompareRows(x, r, keys) == 0 then [x] else [];
    var first: Matrix := if CompareRows(rows[0], r, keys) == 0 then [rows[0]] else [];
    var rest := EqualKeyRows(rows[1..], r, keys);
    assert InsertRow(x, rows, keys) == [rows[0]] + tail;
    EqualKeyRowsCons(rows[0], tail, r, keys);
    assert EqualKeyRows(InsertRow(x, rows, keys), r, keys) == first + (head + rest);
    EqualKeyRowsCons(rows[0], rows[1..], r, keys);
    assert rows == [rows[0]] + rows[1..];
    assert EqualKeyRows(rows, r, keys) == first + rest;
    if |first| != 0 && |head| != 0 {
      EqualKeysShared(x, rows[0], r, keys);
      assert false;
    }
    SwapAroundEmpty(first, head, rest);
  }

  /**
   * Inserting `x` puts it ahead of every row that compares equal to it, so
   * among the rows equal to `r` it comes first and the others keep their order.
   */
  lemma {:induction false} InsertRowStable(x: Row, rows: Matrix, r: Row, keys: seq<OrderKey>)
    ensures EqualKeyRows(InsertRow(x, rows, keys), r, keys) ==
      (if CompareRows(x, r, keys) == 0 then [x] else []) + EqualKeyRows(rows, r, keys)
  {
    if rows == [] {
      EqualKeyRowsCons(x, [], r, keys);
    } else if RowLeq(x, rows[0], keys) {
      EqualKeyRowsCons(x, rows, r, keys);
    } else {
      InsertRowStable(x, rows[1..], r, keys);
      InsertRowStableStep(x, rows, r, keys);
    }
  }

  /**
   * The sort is stable: the rows that compare equal to any row `r` come out in
   * the order in which they were gathered.
   */
  lemma {:induction false} SortRowsStable(rows: Matrix, r: Row, keys: seq<OrderKey>)
    ensures EqualKeyRows(SortRows(rows, keys), r, keys) == EqualKeyRows(rows, r, keys)
  {
    if rows != [] {
      SortRowsStable(rows[1..], r, keys);
      InsertRowStable(rows[0], SortRows(rows[1..], keys), r, keys);
    }
  }

  /** Drops the first `offset` rows; nothing is left once `offset` reaches the row count. */
  function ApplyOffset(rows: Matrix, offset: nat): Matrix
  {
    if offset >= |rows| then [] else rows[offset..]
  }

  /** Keeps at most `limit` rows; `None` is unlimited. */
  function ApplyLimit(rows: Matrix, limit: Option<nat>): Matrix
  {
    match limit
    case None => rows
    case Some(n) => if n >= |rows| then rows else rows[..n]
  }

  /**
   * The rows left after the ORDER BY, OFFSET and LIMIT steps: gathered rows
   * only, never more than were gathered nor more than LIMIT.
   */
  function OrderOffsetLimit(rows: Matrix, keys: seq<OrderKey>, offset: nat, limit: Option<nat>): (r: Matrix)
    ensures forall x | x in r :: x in rows
    ensures |r| <= |rows|
    ensures limit.Some? ==> |r| <= limit.value
  {
    var sorted := if keys == [] then rows else SortRows(rows, keys);
    var r := ApplyLimit(ApplyOffset(sorted, offset), limit);
    assert forall x | x in r :: x in multiset(sorted);
    r
  }

  function Min(a: int, b: int): int
  {
    if a <= b then a else b
  }

  /**
   * The result is the window of the ordered rows that starts at `offset`
   * and holds at most `limit` rows.
   */
  lemma OrderOffsetLimitWindow(rows: Matrix, keys: seq<OrderKey>, offset: nat, limit: Option<nat>)
    ensures var sorted := if keys == [] then rows else SortRows(rows, keys);
      var out := OrderOffsetLimit(rows, keys, offset, limit);
      var available := if offset >= |rows| then 0 else |rows| - offset;
      && |sorted| == |rows|
      && |out| == (if limit.Some? then Min(limit.value, available) else available)
      && forall i | 0 <= i < |out| :: out[i] == sorted[offset + i]
  {
    SortRowsSorted(rows, keys);
  }

  /** The number of rows left: what the offset leaves, capped by the limit. */
  lemma OrderOffsetLimitLength(rows: Matrix, keys: seq<OrderKey>, offset: nat, limit: Option<nat>)
    ensures var available := if offset >= |rows| then 0 else |rows| - offset;
      |OrderOffsetLimit(rows, keys, offset, limit)| == (if limit.Some? then Min(limit.value, available) else available)
  {
    OrderOffsetLimitWindow(rows, keys, offset, limit);
  }

  /** The length of a result, and its emptiness once the offset reaches the row count. */
  lemma WindowLength(out: Matrix, rows: Matrix, keys: seq<OrderKey>, offset: nat, limit: Option<nat>)
    requires out == OrderOffsetLimit(rows, keys, offset, limit)
    ensures var available := if offset >= |rows| then 0 else |rows| - offset;
      |out| == (if limit.Some? then Min(limit.value, available) else available)
    ensures offset >= |rows| ==> out == []
  {
    OrderOffsetLimitLength(rows, keys, offset, limit);
  }

  /** With order-by keys the result is in key order. */
  lemma OrderOffsetLimitSorted(rows: Matrix, keys: seq<OrderKey>, offset: nat, limit: Option<nat>)
    requires keys != []
    ensures Sorted(OrderOffsetLimit(rows, keys, offset, limit), keys)
  {
    SortRowsSorted(rows, keys);
    OrderOffsetLimitWindow(rows, keys, offset, limit);
  }
}
