/**
 * The result-shape checks of `get_row`, `get_one` and `get_column`, which
 * both proxies apply to the rows `fetch_assoc` returns. The mysqli proxy
 * raises a Query exception, the PDO proxy a plain one, with the same texts.
 */
module Shapes {
  import opened Php

  /** Which exception class a proxy raises for a result of the wrong shape. */
  datatype Raises = QueryException | PlainException

  function Raise(kind: Raises, message: string): (e: Error)
    ensures e.message == message
  {
    match kind
    case QueryException => QueryError(message)
    case PlainException => GenericError(message)
  }

  const TooManyRows: string := "Resultset has more than 1 row"
  const TooManyColumns: string := "Resultset has more than 1 column"
  const OneTooManyRows: string := "Result of get_one should only contain 1 row"
  const OneTooManyColumns: string := "Result of get_one should only contain 1 column"

  /** `array_shift($row)`: the first value, or null for an empty array. */
  function Shift(row: Row): Value {
    if row == [] then VNull else row[0].value
  }

  /** `get_row`: null for no rows, the row for one, an error for more. */
  function SingleRow(kind: Raises, rows: seq<Row>): (r: Result<Option<Row>>)
    ensures r == Ok(None) <==> rows == []
    ensures r.Err? <==> |rows| > 1
    ensures r.Err? ==> r.error == Raise(kind, TooManyRows)
    ensures r.Ok? && r.value.Some? ==> rows == [r.value.value]
  {
    if |rows| == 0 then Ok(None)
    else if |rows| > 1 then Err(Raise(kind, TooManyRows))
    else Ok(Some(rows[0]))
  }

  /**
   * `get_one`: null for no rows; the only value of the only row; an error
   * for more than one row, or for a row that does not hold exactly one value.
   */
  function SingleValue(kind: Raises, rows: seq<Row>): (r: Result<Option<Value>>)
    ensures r == Ok(None) <==> rows == []
    ensures r.Err? <==> |rows| > 1 || (|rows| == 1 && |rows[0]| != 1)
    ensures |rows| > 1 ==> r == Err(Raise(kind, OneTooManyRows))
    ensures |rows| == 1 && |rows[0]| != 1 ==> r == Err(Raise(kind, OneTooManyColumns))
    ensures r.Ok? && r.value.Some? ==> |rows| == 1 && rows[0] == [Entry(rows[0][0].key, r.value.value)]
  {
    if |rows| == 0 then Ok(None)
    else if |rows| > 1 then Err(Raise(kind, OneTooManyRows))
    else if |rows[0]| != 1 then Err(Raise(kind, OneTooManyColumns))
    else Ok(Some(Shift(rows[0])))
  }

  /**
   * `get_column`: the first value of every row, in row order. Only the
   * first row's width is checked; an empty result gives an empty column.
   */
  method FirstColumn(kind: Raises, rows: seq<Row>) returns (r: Result<seq<Value>>)
    ensures r.Err? <==> |rows| > 0 && |rows[0]| != 1
    ensures r.Err? ==> r.error == Raise(kind, TooManyColumns)
    ensures r.Ok? ==> |r.value| == |rows|
    ensures r.Ok? ==> forall i :: 0 <= i < |rows| ==> r.value[i] == Shift(rows[i])
  {
    if |rows| == 0 {
      return Ok([]);
    } else if |rows[0]| != 1 {
      return Err(Raise(kind, TooManyColumns));
    }
    var col: seq<Value> := [];
    var i := 0;
    while i < |rows|
      invariant 0 <= i <= |rows|
      invariant |col| == i
      invariant forall j :: 0 <= j < i ==> col[j] == Shift(rows[j])
    {
      col := col + [Shift(rows[i])];
      i := i + 1;
    }
    return Ok(col);
  }

  /** All rows carry the same keys, as rows decoded from one result do. */
  predicate SameKeys(rows: seq<Row>) {
    forall i :: 0 <= i < |rows| ==> Keys(rows[i]) == Keys(rows[0])
  }

  /**
   * When the rows share their keys and the check passes, every row is a
   * single entry and the column holds exactly those entries' values.
   */
  lemma UniformColumn(rows: seq<Row>, col: seq<Value>)
    requires SameKeys(rows)
    requires |rows| > 0 ==> |rows[0]| == 1
    requires |col| == |rows| && forall i :: 0 <= i < |rows| ==> col[i] == Shift(rows[i])
    ensures forall i :: 0 <= i < |rows| ==> rows[i] == [Entry(rows[i][0].key, col[i])]
  {
    forall i | 0 <= i < |rows| ensures rows[i] == [Entry(rows[i][0].key, col[i])] {
      assert |Keys(rows[i])| == |Keys(rows[0])|;
    }
  }
}
