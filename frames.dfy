/**
  The tabular values the module works on: a data frame as a sequence of rows,
  each row a map from column name to cell value, and the column lookup `df[name]`.
  Cells are exact reals.
*/
module Frames {
  import opened Wrappers

  /** One row of a frame: column name to cell value. */
  type Row = map<string, real>

  datatype Table = Table(columns: set<string>, rows: seq<Row>) {
    /** Every row carries exactly the frame's columns. */
    ghost predicate WellFormed()
    {
      forall row :: row in rows ==> row.Keys == columns
    }
  }

  /** Looking up a column the frame does not have. */
  datatype TableError = KeyError(column: string)

  /** `df[name]`: the column's values in row order, or a KeyError. */
  function Column(t: Table, name: string): (r: Result<seq<real>, TableError>)
    requires t.WellFormed()
    ensures r.Failure? <==> name !in t.columns
    ensures r.Failure? ==> r.error == KeyError(name)
    ensures r.Success? ==> |r.value| == |t.rows|
    ensures r.Success? ==> forall i :: 0 <= i < |t.rows| ==> name in t.rows[i] && r.value[i] == t.rows[i][name]
  {
    if name !in t.columns then Failure(KeyError(name))
    else Success(seq(|t.rows|, i requires 0 <= i < |t.rows| => assert t.rows[i] in t.rows; t.rows[i][name]))
  }
}
