/** Weighted sums over the rows of a table.
    A table is a sequence of rows in creation order; a row's id is its index. */
module Sums {

  datatype Option<+T> = None | Some(value: T)

  function SumInt<T>(rows: seq<T>, weight: T -> int): int
  {
    if rows == [] then 0 else SumInt(rows[..|rows| - 1], weight) + weight(rows[|rows| - 1])
  }

  function SumReal<T>(rows: seq<T>, weight: T -> real): real
  {
    if rows == [] then 0.0 else SumReal(rows[..|rows| - 1], weight) + weight(rows[|rows| - 1])
  }

  lemma SumIntAppend<T>(rows: seq<T>, row: T, weight: T -> int)
    ensures SumInt(rows + [row], weight) == SumInt(rows, weight) + weight(row)
  {
    assert (rows + [row])[..|rows|] == rows;
  }

  lemma SumRealAppend<T>(rows: seq<T>, row: T, weight: T -> real)
    ensures SumReal(rows + [row], weight) == SumReal(rows, weight) + weight(row)
  {
    assert (rows + [row])[..|rows|] == rows;
  }

  lemma {:induction false} SumIntUpdate<T>(rows: seq<T>, i: nat, row: T, weight: T -> int)
    requires i < |rows|
    ensures SumInt(rows[i := row], weight) == SumInt(rows, weight) - weight(rows[i]) + weight(row)
  {
    var n := |rows| - 1;
    if i == n {
      assert rows[i := row][..n] == rows[..n];
    } else {
      assert rows[i := row][..n] == rows[..n][i := row];
      SumIntUpdate(rows[..n], i, row, weight);
    }
  }

  lemma {:induction false} SumRealUpdate<T>(rows: seq<T>, i: nat, row: T, weight: T -> real)
    requires i < |rows|
    ensures SumReal(rows[i := row], weight) == SumReal(rows, weight) - weight(rows[i]) + weight(row)
  {
    var n := |rows| - 1;
    if i == n {
      assert rows[i := row][..n] == rows[..n];
    } else {
      assert rows[i := row][..n] == rows[..n][i := row];
      SumRealUpdate(rows[..n], i, row, weight);
    }
  }

  lemma {:induction false} SumRealZero<T>(rows: seq<T>, weight: T -> real)
    requires forall i :: 0 <= i < |rows| ==> weight(rows[i]) == 0.0
    ensures SumReal(rows, weight) == 0.0
  {
    if rows == [] {
    } else {
      SumRealZero(rows[..|rows| - 1], weight);
    }
  }

  lemma {:induction false} SumRealNonNegative<T>(rows: seq<T>, weight: T -> real)
    requires forall i :: 0 <= i < |rows| ==> weight(rows[i]) >= 0.0
    ensures SumReal(rows, weight) >= 0.0
  {
    if rows == [] {
    } else {
      SumRealNonNegative(rows[..|rows| - 1], weight);
    }
  }
}
