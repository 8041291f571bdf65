/** The parsed CSV records the pages work on, and how often a value occurs
    in one column of them. */
module Rows {
  import opened Sequences

  datatype Option<T> = None | Some(value: T)

  /** One record of the synthetic-calls CSV, keyed by its header. A cell
      that the record lacks (a short line) is `None`; the other columns of
      the file are not read by the pages. */
  datatype Row = Row(
    name: Option<string>,
    scenario: Option<string>,
    callLength: Option<string>,
    response: Option<string>)

  /** The columns the pages read: `Name`, `Phishing Scenario`,
      `Call Length (s)` and `Response Description`. */
  datatype Column = Name | PhishingScenario | CallLength | ResponseDescription

  /** `row[column]`. */
  function Field(row: Row, col: Column): Option<string> {
    match col
    case Name => row.name
    case PhishingScenario => row.scenario
    case CallLength => row.callLength
    case ResponseDescription => row.response
  }

  /** JavaScript truthiness of a cell: defined and not the empty string. */
  predicate Truthy(cell: Option<string>) {
    cell.Some? && cell.value != ""
  }

  /** `rows.map(row => row[column])`. */
  function ColumnValues(rows: seq<Row>, col: Column): (r: seq<Option<string>>)
    ensures |r| == |rows|
    ensures forall i :: 0 <= i < |rows| ==> r[i] == Field(rows[i], col)
  {
    if rows == [] then [] else ColumnValues(Init(rows), col) + [Field(Last(rows), col)]
  }

  /** Some row holds exactly `v` in the column. */
  predicate Occurs(rows: seq<Row>, col: Column, v: string) {
    exists i :: 0 <= i < |rows| && Field(rows[i], col) == Some(v)
  }

  lemma OccursInit(rows: seq<Row>, col: Column)
    requires |rows| > 0
    ensures forall v :: Occurs(rows, col, v) <==> Occurs(Init(rows), col, v) || Field(Last(rows), col) == Some(v)
  {
    forall v ensures Occurs(rows, col, v) <==> Occurs(Init(rows), col, v) || Field(Last(rows), col) == Some(v) {
      if Occurs(rows, col, v) && Field(Last(rows), col) != Some(v) {
        var i :| 0 <= i < |rows| && Field(rows[i], col) == Some(v);
        assert Init(rows)[i] == rows[i];
      }
      if Occurs(Init(rows), col, v) {
        var i :| 0 <= i < |Init(rows)| && Field(Init(rows)[i], col) == Some(v);
        assert rows[i] == Init(rows)[i];
      }
    }
  }

  /** The number of rows whose cell in the column is exactly `v`. */
  function CountRows(rows: seq<Row>, col: Column, v: string): (n: nat)
    ensures n <= |rows|
  {
    if rows == [] then 0
    else CountRows(Init(rows), col, v) + (if Field(Last(rows), col) == Some(v) then 1 else 0)
  }

  /** A value is counted by some row exactly when some row holds it. */
  lemma {:induction false} CountRowsOccurs(rows: seq<Row>, col: Column, v: string)
    ensures CountRows(rows, col, v) > 0 <==> Occurs(rows, col, v)
  {
    if rows != [] {
      CountRowsOccurs(Init(rows), col, v);
      OccursInit(rows, col);
    }
  }

  /** The truthy cells of the column, in row order: the values the
      aggregation loop counts. */
  function PresentValues(rows: seq<Row>, col: Column): (r: seq<string>)
    ensures |r| <= |rows|
  {
    if rows == [] then []
    else
      var cell := Field(Last(rows), col);
      PresentValues(Init(rows), col) + (if Truthy(cell) then [cell.value] else [])
  }

  /** The truthy cells are the non-empty values that some row holds. */
  lemma {:induction false} PresentValuesCounted(rows: seq<Row>, col: Column)
    ensures forall v :: v in PresentValues(rows, col) <==> v != "" && CountRows(rows, col, v) > 0
  {
    if rows != [] {
      PresentValuesCounted(Init(rows), col);
    }
  }

  /** The same, stated with `Occurs`. */
  lemma PresentValuesOccur(rows: seq<Row>, col: Column)
    ensures forall v :: v in PresentValues(rows, col) <==> v != "" && Occurs(rows, col, v)
  {
    PresentValuesCounted(rows, col);
    forall v ensures CountRows(rows, col, v) > 0 <==> Occurs(rows, col, v) {
      CountRowsOccurs(rows, col, v);
    }
  }
}
