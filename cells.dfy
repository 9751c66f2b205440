/** Values of one table cell, as the feature pipeline sees them after loading. */
module Cells {

  datatype Option<T> = None | Some(value: T)

  /** A pandas cell: missing (NaN, NaT or None), a number, a string, or a date
      given as a day number (days since a fixed epoch). */
  datatype Cell = Missing | Num(x: real) | Text(s: string) | Date(day: int)

  /** One column of a table, top row first. */
  type Column = seq<Cell>

  /** A boolean as pandas' `astype(int)` stores it. */
  function Flag(b: bool): (c: Cell)
    ensures c.Num? && (c.x == 1.0 <==> b) && (c.x == 0.0 <==> !b)
  {
    if b then Num(1.0) else Num(0.0)
  }

  /** `a - b` on two cells: numbers subtract, dates subtract to a day count,
      anything involving a missing value is missing. */
  function Minus(a: Cell, b: Cell): (c: Cell)
    ensures c.Num? <==> (a.Num? && b.Num?) || (a.Date? && b.Date?)
    ensures a.Num? && b.Num? ==> c.x + b.x == a.x
    ensures a.Date? && b.Date? ==> c.x == (a.day - b.day) as real
  {
    match (a, b)
    case (Num(x), Num(y)) => Num(x - y)
    case (Date(d), Date(e)) => Num((d - e) as real)
    case _ => Missing
  }

  /** `fillna(v)` on one cell. */
  function Fill(c: Cell, v: Cell): (r: Cell)
    ensures c != Missing ==> r == c
    ensures c == Missing ==> r == v
  {
    if c.Missing? then v else c
  }

  /** Cellwise `a - b` over two columns of equal length. */
  function MinusCol(a: Column, b: Column): (r: Column)
    requires |a| == |b|
    ensures |r| == |a|
    ensures forall i :: 0 <= i < |a| ==> r[i] == Minus(a[i], b[i])
  {
    seq(|a|, i requires 0 <= i < |a| => Minus(a[i], b[i]))
  }

  /** `col.fillna(v)` with one scalar. */
  function FillCol(col: Column, v: Cell): (r: Column)
    ensures |r| == |col|
    ensures forall i :: 0 <= i < |col| ==> r[i] == Fill(col[i], v)
  {
    seq(|col|, i requires 0 <= i < |col| => Fill(col[i], v))
  }

  /** `col.fillna(other)` with a second column aligned row by row. */
  function FillFrom(col: Column, other: Column): (r: Column)
    requires |col| == |other|
    ensures |r| == |col|
    ensures forall i :: 0 <= i < |col| ==> r[i] == Fill(col[i], other[i])
  {
    seq(|col|, i requires 0 <= i < |col| => Fill(col[i], other[i]))
  }

  /** The numbers of a series, in order, skipping every cell that is not a number. */
  function Nums(xs: seq<Cell>): (r: seq<real>)
    ensures |r| <= |xs|
  {
    if xs == [] then []
    else (if xs[0].Num? then [xs[0].x] else []) + Nums(xs[1..])
  }

  function Sum(rs: seq<real>): real
  {
    if rs == [] then 0.0 else rs[0] + Sum(rs[1..])
  }

  /** pandas' `mean()` with its default `skipna`: the average of the defined
      numbers, missing when there are none. */
  function Mean(xs: seq<Cell>): (c: Cell)
    ensures c.Missing? <==> Nums(xs) == []
    ensures c.Num? ==> c.x * (|Nums(xs)| as real) == Sum(Nums(xs))
  {
    var ns := Nums(xs);
    if ns == [] then Missing else Num(Sum(ns) / (|ns| as real))
  }

  lemma {:induction false} NumsAppend(a: seq<Cell>, b: seq<Cell>)
    ensures Nums(a + b) == Nums(a) + Nums(b)
  {
    if a == [] {
      assert a + b == b;
    } else {
      var ab := a + b;
      assert ab[0] == a[0];
      assert ab[1..] == a[1..] + b;
      var head: seq<real> := if a[0].Num? then [a[0].x] else [];
      assert Nums(ab) == head + Nums(ab[1..]);
      assert Nums(a) == head + Nums(a[1..]);
      NumsAppend(a[1..], b);
      assert Nums(ab) == head + (Nums(a[1..]) + Nums(b));
    }
  }

  lemma {:induction false} SumAppend(a: seq<real>, b: seq<real>)
    ensures Sum(a + b) == Sum(a) + Sum(b)
  {
    if a == [] {
      assert a + b == b;
    } else {
      assert (a + b)[1..] == a[1..] + b;
      SumAppend(a[1..], b);
    }
  }

  /** A missing cell never changes a mean: the mean skips it. */
  lemma MeanSkipsMissing(xs: seq<Cell>)
    ensures Mean([Missing] + xs) == Mean(xs)
  {
    NumsAppend([Missing], xs);
    assert Nums([Missing]) == [];
    assert Nums([Missing] + xs) == Nums(xs);
  }

  /** Every defined number of a series lies in [lo, hi]. */
  ghost predicate NumsIn(xs: seq<Cell>, lo: real, hi: real)
  {
    forall k :: 0 <= k < |xs| && xs[k].Num? ==> lo <= xs[k].x <= hi
  }

  lemma {:induction false} SumBounds(rs: seq<real>, lo: real, hi: real)
    requires forall k :: 0 <= k < |rs| ==> lo <= rs[k] <= hi
    ensures (|rs| as real) * lo <= Sum(rs) <= (|rs| as real) * hi
  {
    if rs != [] {
      SumBounds(rs[1..], lo, hi);
    }
  }

  lemma {:induction false} NumsBounds(xs: seq<Cell>, lo: real, hi: real)
    requires NumsIn(xs, lo, hi)
    ensures forall k :: 0 <= k < |Nums(xs)| ==> lo <= Nums(xs)[k] <= hi
  {
    if xs != [] {
      NumsBounds(xs[1..], lo, hi);
      NumsAppend([xs[0]], xs[1..]);
      assert [xs[0]] + xs[1..] == xs;
    }
  }

  lemma NonnegFactor(a: real, n: real)
    requires n > 0.0 && a * n >= 0.0
    ensures a >= 0.0
  {
  }

  /** A mean of values in [lo, hi] is in [lo, hi]; rates of 0/1 indicators are in [0, 1]. */
  lemma MeanBounds(xs: seq<Cell>, lo: real, hi: real)
    requires NumsIn(xs, lo, hi)
    ensures Mean(xs).Num? ==> lo <= Mean(xs).x <= hi
  {
    var ns := Nums(xs);
    if ns != [] {
      NumsBounds(xs, lo, hi);
      SumBounds(ns, lo, hi);
      var n := |ns| as real;
      assert n > 0.0;
      var m := Sum(ns) / n;
      assert m * n == Sum(ns);
      assert (m - lo) * n == Sum(ns) - lo * n;
      assert (hi - m) * n == hi * n - Sum(ns);
      NonnegFactor(m - lo, n);
      NonnegFactor(hi - m, n);
    }
  }
}
