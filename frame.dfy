/** A pandas DataFrame reduced to what the pipeline uses: named columns of equal
    length, written in place one column at a time. Column order is not kept. */
module Frames {
  import opened Cells

  /** Every column has `rows` cells. */
  predicate Shaped(cols: map<string, Column>, rows: nat)
  {
    forall c :: c in cols ==> |cols[c]| == rows
  }

  /** `col.iloc[idx]`: the cells at the given row positions, in that order. */
  function Pick(col: Column, idx: seq<nat>): (r: Column)
    requires forall k :: 0 <= k < |idx| ==> idx[k] < |col|
    ensures |r| == |idx|
    ensures forall k :: 0 <= k < |idx| ==> r[k] == col[idx[k]]
  {
    seq(|idx|, k requires 0 <= k < |idx| => col[idx[k]])
  }

  /** `df.iloc[idx].reset_index(drop=True)`: every column restricted to the given rows. */
  function TakeRows(cols: map<string, Column>, rows: nat, idx: seq<nat>): (r: map<string, Column>)
    requires Shaped(cols, rows)
    requires forall k :: 0 <= k < |idx| ==> idx[k] < rows
    ensures r.Keys == cols.Keys && Shaped(r, |idx|)
    ensures forall c, k :: c in cols && 0 <= k < |idx| ==> r[c][k] == cols[c][idx[k]]
  {
    map c | c in cols :: Pick(cols[c], idx)
  }

  /** Row `i` as a mapping from column name to cell. */
  function RowAt(cols: map<string, Column>, rows: nat, i: nat): (r: map<string, Cell>)
    requires Shaped(cols, rows) && i < rows
    ensures r.Keys == cols.Keys
    ensures forall c :: c in cols ==> r[c] == cols[c][i]
  {
    map c | c in cols :: cols[c][i]
  }

  /** Row k of the restricted table is row idx[k] of the original. */
  lemma RowOfTake(cols: map<string, Column>, rows: nat, idx: seq<nat>, k: nat)
    requires Shaped(cols, rows)
    requires forall j :: 0 <= j < |idx| ==> idx[j] < rows
    requires k < |idx|
    ensures RowAt(TakeRows(cols, rows, idx), |idx|, k) == RowAt(cols, rows, idx[k])
  {
  }

  /** Setting a column of the table's height keeps every column that height. */
  lemma ShapedSet(cols: map<string, Column>, rows: nat, name: string, col: Column)
    requires Shaped(cols, rows) && |col| == rows
    ensures Shaped(cols[name := col], rows) && name in cols[name := col]
  {
  }

  /** Joining two tables of one height gives a table of that height. */
  lemma ShapedMerge(a: map<string, Column>, b: map<string, Column>, rows: nat)
    requires Shaped(a, rows) && Shaped(b, rows)
    ensures Shaped(a + b, rows)
  {
  }

  /** A column of the joined table comes from the right side when it has it,
      from the left side otherwise. */
  lemma MergeAt(a: map<string, Column>, b: map<string, Column>, c: string)
    requires c in a || c in b
    ensures c in a + b
    ensures (a + b)[c] == if c in b then b[c] else a[c]
  {
  }

  class Frame {
    var cols: map<string, Column>
    var rows: nat

    ghost predicate Valid()
      reads this
    {
      Shaped(cols, rows)
    }

    constructor (cols0: map<string, Column>, rows0: nat)
      requires Shaped(cols0, rows0)
      ensures Valid() && cols == cols0 && rows == rows0
    {
      cols := cols0;
      rows := rows0;
    }

    /** `df[name] = col`: adds the column, or overwrites it. */
    method Set(name: string, col: Column)
      requires Valid() && |col| == rows
      modifies this
      ensures Valid() && rows == old(rows)
      ensures cols == old(cols)[name := col]
    {
      cols := cols[name := col];
    }

    /** `df = df.drop(columns=names)`, which raises unless every name is a column. */
    method Drop(names: set<string>)
      requires Valid() && names <= cols.Keys
      modifies this
      ensures Valid() && rows == old(rows)
      ensures cols == old(cols) - names
    {
      cols := cols - names;
    }

    /** `df = <another table>`: the whole table is replaced. */
    method Assign(cols0: map<string, Column>, rows0: nat)
      requires Shaped(cols0, rows0)
      modifies this
      ensures Valid() && cols == cols0 && rows == rows0
    {
      cols := cols0;
      rows := rows0;
    }

    /** `df = df.iloc[idx].reset_index(drop=True)`. */
    method Take(idx: seq<nat>)
      requires Valid()
      requires forall k :: 0 <= k < |idx| ==> idx[k] < rows
      modifies this
      ensures Valid() && rows == |idx|
      ensures cols == TakeRows(old(cols), old(rows), idx)
    {
      cols := TakeRows(cols, rows, idx);
      rows := |idx|;
    }
  }
}
