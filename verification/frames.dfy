/** A pandas DataFrame reduced to what the stock modules use: an ordered list of
    column labels and positional rows. Looking a column up by label takes its first
    occurrence. */
module Frames {

  datatype Grid<T> = Grid(columns: seq<string>, rows: seq<seq<T>>) {

    predicate Rectangular() {
      forall i :: 0 <= i < |rows| ==> |rows[i]| == |columns|
    }

    /** pandas `DataFrame.empty`: no rows or no columns. */
    predicate IsEmpty() {
      |rows| == 0 || |columns| == 0
    }
  }

  /** A table of integer cells: prices, volumes and day numbers. */
  type Table = g: Grid<int> | g.Rectangular() witness Grid([], [])

  /** A table of text cells, as returned by the stock-list endpoints. */
  type Listing = g: Grid<string> | g.Rectangular() witness Grid([], [])

  /** Position of the first column carrying `name`. */
  function ColumnIndex(cols: seq<string>, name: string): (i: nat)
    requires name in cols
    ensures i < |cols| && cols[i] == name
    ensures name !in cols[..i]
  {
    if cols[0] == name then 0 else 1 + ColumnIndex(cols[1..], name)
  }

  /** `df[name] = values`: appends a new column. */
  function AddColumn(t: Table, name: string, values: seq<int>): (r: Table)
    requires |values| == |t.rows|
    ensures r.columns == t.columns + [name] && |r.rows| == |t.rows|
    ensures forall i :: 0 <= i < |t.rows| ==> r.rows[i] == t.rows[i] + [values[i]]
  {
    Grid(t.columns + [name], seq(|t.rows|, i requires 0 <= i < |t.rows| => t.rows[i] + [values[i]]))
  }

  /** `df[names]`: the named columns, in the order given. */
  function Select(t: Table, names: seq<string>): (r: Table)
    requires forall n :: n in names ==> n in t.columns
    ensures r.columns == names && |r.rows| == |t.rows|
    ensures forall i, j :: 0 <= i < |t.rows| && 0 <= j < |names| ==>
      r.rows[i][j] == t.rows[i][ColumnIndex(t.columns, names[j])]
  {
    Grid(names, seq(|t.rows|, i requires 0 <= i < |t.rows| =>
      seq(|names|, j requires 0 <= j < |names| => t.rows[i][ColumnIndex(t.columns, names[j])])))
  }
}
