/** The tabular data model: a pandas DataFrame reduced to what the pipeline uses. */
module Frames {

  /** One cell of a frame: a string, a number, or missing (NaN, None). */
  datatype Cell = Text(s: string) | Num(x: real) | Missing

  /** A row of a frame: its index label (`index`) and its cells, by column name. */
  datatype Record = Record(index: int, cells: map<string, Cell>)

  /** A frame: its column names, in order, and its rows, in order. */
  datatype Table = Table(columns: seq<string>, records: seq<Record>)

  /** The exceptions the pipeline's pandas calls raise. */
  datatype Error =
    | MissingColumn      // KeyError: a column the code names is not in the frame
    | UnparsableDate     // pd.to_datetime cannot read a timestamp
    | UnparsableNumber   // pd.to_numeric cannot read a numeric cell
    | IndexColumnTaken   // reset_index: both "index" and "level_0" are already columns
    | MaskHasMissing     // boolean indexing with a mask that holds NaN
    | Uncomparable       // '<=' between a string and a number

  function ColumnSet(columns: seq<string>): set<string>
  {
    set c | c in columns
  }

  predicate Distinct(columns: seq<string>)
  {
    forall i, j :: 0 <= i < j < |columns| ==> columns[i] != columns[j]
  }

  /** Column names are unique and every row has a cell in exactly those columns. */
  predicate WellFormed(t: Table)
  {
    Distinct(t.columns) &&
    forall i :: 0 <= i < |t.records| ==> t.records[i].cells.Keys == ColumnSet(t.columns)
  }
}
