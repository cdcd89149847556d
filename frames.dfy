/**
 * The part of a pandas DataFrame the modelled code relies on: named columns of
 * cells, aligned on a row index, and the `df[name] = column` assignment that
 * updates a frame in place.
 */
module Frames {
  import opened Wrappers

  /** One cell: a string as read from the input, a float, a parsed timestamp, or NaN/NaT. */
  datatype Value = Text(text: string) | Num(num: real) | Stamp(time: int) | NaN

  type Columns = map<string, seq<Value>>

  /** A frame as a value: its columns and its row index. */
  datatype Table = Table(columns: Columns, index: seq<int>)

  /** Every column has one cell per row. */
  predicate Aligned(t: Table)
  {
    forall c :: c in t.columns ==> |t.columns[c]| == |t.index|
  }

  /** The default index 0, 1, ..., n - 1. */
  function RangeIndex(n: nat): (r: seq<nat>)
    ensures |r| == n && forall i :: 0 <= i < n ==> r[i] == i
  {
    seq(n, i requires 0 <= i < n => i)
  }

  /** `reset_index(drop=True)`: the same columns on the default index. */
  function ResetIndex(t: Table): (r: Table)
    requires Aligned(t)
    ensures Aligned(r) && r.columns == t.columns && r.index == RangeIndex(|t.index|)
  {
    Table(t.columns, RangeIndex(|t.index|))
  }

  /** `drop(columns=[name])`: raises KeyError when the column is absent. */
  function Drop(t: Table, name: string): (r: Result<Table, Error>)
    requires Aligned(t)
    ensures r.Failure? <==> name !in t.columns
    ensures r.Failure? ==> r.error == MissingColumn(name)
    ensures r.Success? ==> Aligned(r.value) && r.value.index == t.index
                           && r.value.columns.Keys == t.columns.Keys - {name}
                           && forall c :: c in r.value.columns ==> r.value.columns[c] == t.columns[c]
  {
    if name !in t.columns then Failure(MissingColumn(name))
    else Success(Table(t.columns - {name}, t.index))
  }

  /** A DataFrame object, which `df[name] = column` updates in place. */
  class Frame {
    var columns: Columns
    var index: seq<int>

    ghost predicate Valid()
      reads this
    {
      Aligned(View())
    }

    function View(): Table
      reads this
    {
      Table(columns, index)
    }

    constructor (t: Table)
      requires Aligned(t)
      ensures Valid() && View() == t
    {
      columns := t.columns;
      index := t.index;
    }

    /** `df[name] = column`: adds the column, or replaces it when the name is taken. */
    method Assign(name: string, column: seq<Value>)
      requires Valid() && |column| == |index|
      modifies this
      ensures Valid() && columns == old(columns)[name := column] && index == old(index)
    {
      columns := columns[name := column];
    }
  }
}
