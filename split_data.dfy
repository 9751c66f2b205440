/** The temporal split of the feature table into train, validation and test
    sets, after removing the bouts without a label. */
module SplitData {
  import opened Cells
  import opened Frames

  /** A boolean mask over one column. */
  datatype RowTest =
    | Labelled                                 // `col.notna()`
    | DateIn(from: Option<int>, until: Option<int>)  // `from <= date < until`; NaT fails

  predicate Passes(t: RowTest, c: Cell)
  {
    match t
    case Labelled => !c.Missing?
    case DateIn(lo, hi) =>
      c.Date? && (lo.None? || lo.value <= c.day) && (hi.None? || c.day < hi.value)
  }

  predicate Increasing(idx: seq<nat>)
  {
    forall a, b :: 0 <= a < b < |idx| ==> idx[a] < idx[b]
  }

  /** `df[mask]`: the positions of the rows that pass, in their input order. */
  function Where(col: Column, t: RowTest): (r: seq<nat>)
    ensures Increasing(r)
    ensures forall k :: 0 <= k < |r| ==> r[k] < |col| && Passes(t, col[r[k]])
    ensures forall i :: 0 <= i < |col| && Passes(t, col[i]) ==> i in r
  {
    if col == [] then []
    else
      var n := |col| - 1;
      var init := col[..n];
      var prev := Where(init, t);
      assert forall k :: 0 <= k < |prev| ==> prev[k] < n && col[prev[k]] == init[prev[k]];
      assert forall i :: 0 <= i < n ==> col[i] == init[i];
      if Passes(t, col[n]) then prev + [n] else prev
  }

  /** One part of the split: the features without `target` and DATE, and the
      labels of the same rows in the same order. */
  datatype Part = Part(x: map<string, Column>, y: Column)

  datatype Split = Split(train: Part, val: Part, test: Part)

  /** `df[mask]` followed by the drop of `target` and DATE and the `target` column. */
  function MakePart(cols: map<string, Column>, rows: nat, idx: seq<nat>): (r: Part)
    requires Shaped(cols, rows) && "target" in cols
    requires forall k :: 0 <= k < |idx| ==> idx[k] < rows
    ensures Shaped(r.x, |r.y|) && |r.y| == |idx|
  {
    Part(TakeRows(cols, rows, idx) - {"target", "DATE"}, Pick(cols["target"], idx))
  }

  /** `temporal_train_test_split()` on the table the feature pipeline returns,
      with the two configured thresholds as day numbers. */
  function TemporalSplit(cols: map<string, Column>, rows: nat, valDate: int, testDate: int): (r: Split)
    requires Shaped(cols, rows) && "target" in cols && "DATE" in cols
  {
    var keep := Where(cols["target"], Labelled);
    var df := TakeRows(cols, rows, keep);
    var dates := df["DATE"];
    Split(MakePart(df, |keep|, Where(dates, DateIn(None, Some(valDate)))),
          MakePart(df, |keep|, Where(dates, DateIn(Some(valDate), Some(testDate)))),
          MakePart(df, |keep|, Where(dates, DateIn(Some(testDate), None))))
  }

  // ---------------------------------------------------------------------------
  // Properties

  /** Every split lacks `target` and DATE, keeps every other column, and has
      as many labels as feature rows; no label is missing. */
  lemma PartShape(cols: map<string, Column>, rows: nat, valDate: int, testDate: int)
    requires Shaped(cols, rows) && "target" in cols && "DATE" in cols
    ensures var s := TemporalSplit(cols, rows, valDate, testDate);
      forall p :: p in [s.train, s.val, s.test] ==>
        p.x.Keys == cols.Keys - {"target", "DATE"} && Shaped(p.x, |p.y|) &&
        forall k :: 0 <= k < |p.y| ==> !p.y[k].Missing?
  {
    var keep := Where(cols["target"], Labelled);
    var df: map<string, Column> := TakeRows(cols, rows, keep);
    assert forall k :: 0 <= k < |keep| ==> !df["target"][k].Missing?;
    var dates := df["DATE"];
    var s := TemporalSplit(cols, rows, valDate, testDate);
    assert s.train == MakePart(df, |keep|, Where(dates, DateIn(None, Some(valDate))));
    assert s.val == MakePart(df, |keep|, Where(dates, DateIn(Some(valDate), Some(testDate))));
    assert s.test == MakePart(df, |keep|, Where(dates, DateIn(Some(testDate), None)));
    LabelledPart(df, |keep|, Where(dates, DateIn(None, Some(valDate))));
    LabelledPart(df, |keep|, Where(dates, DateIn(Some(valDate), Some(testDate))));
    LabelledPart(df, |keep|, Where(dates, DateIn(Some(testDate), None)));
    assert df.Keys == cols.Keys;
    forall p | p in [s.train, s.val, s.test]
      ensures p.x.Keys == cols.Keys - {"target", "DATE"} && Shaped(p.x, |p.y|) &&
        forall k :: 0 <= k < |p.y| ==> !p.y[k].Missing?
    {
      assert p == s.train || p == s.val || p == s.test;
    }
  }

  /** A part taken from a table without missing labels has no missing label
      and keeps every column but `target` and DATE. */
  lemma LabelledPart(cols: map<string, Column>, rows: nat, idx: seq<nat>)
    requires Shaped(cols, rows) && "target" in cols
    requires forall k :: 0 <= k < |idx| ==> idx[k] < rows
    requires forall k :: 0 <= k < rows ==> !cols["target"][k].Missing?
    ensures var p := MakePart(cols, rows, idx);
      p.x.Keys == cols.Keys - {"target", "DATE"} &&
      forall k :: 0 <= k < |p.y| ==> !p.y[k].Missing?
  {
  }

  /** Row k of a part is one labelled input row: its features are that row's
      cells and its label is that row's target. */
  lemma PartRows(cols: map<string, Column>, rows: nat, idx: seq<nat>, k: nat)
    requires Shaped(cols, rows) && "target" in cols
    requires forall j :: 0 <= j < |idx| ==> idx[j] < rows
    requires k < |idx|
    ensures var p := MakePart(cols, rows, idx);
      p.y[k] == cols["target"][idx[k]] &&
      forall c :: c in p.x ==> p.x[c][k] == cols[c][idx[k]]
  {
  }

  /** With the validation date no later than the test date, each labelled row
      with a date lands in exactly one of the three splits, and a row without
      a date (NaT) in none. */
  lemma ExactlyOneSplit(dates: Column, valDate: int, testDate: int, i: nat)
    requires valDate <= testDate && i < |dates|
    ensures var inTrain := i in Where(dates, DateIn(None, Some(valDate)));
      var inVal := i in Where(dates, DateIn(Some(valDate), Some(testDate)));
      var inTest := i in Where(dates, DateIn(Some(testDate), None));
      (dates[i].Date? ==> ((inTrain || inVal || inTest) &&
        !(inTrain && inVal) && !(inTrain && inTest) && !(inVal && inTest))) &&
      (!dates[i].Date? ==> !inTrain && !inVal && !inTest)
  {
    WhereExact(dates, DateIn(None, Some(valDate)), i);
    WhereExact(dates, DateIn(Some(valDate), Some(testDate)), i);
    WhereExact(dates, DateIn(Some(testDate), None), i);
  }

  /** A row is selected exactly when it passes the mask. */
  lemma WhereExact(col: Column, t: RowTest, i: nat)
    requires i < |col|
    ensures i in Where(col, t) <==> Passes(t, col[i])
  {
    var r := Where(col, t);
    if i in r {
      var k :| 0 <= k < |r| && r[k] == i;
    }
  }

  /** Every train date precedes every validation date, which precedes every
      test date. */
  lemma SplitsOrdered(dates: Column, valDate: int, testDate: int, a: nat, b: nat, c: nat)
    requires a in Where(dates, DateIn(None, Some(valDate)))
    requires b in Where(dates, DateIn(Some(valDate), Some(testDate)))
    requires c in Where(dates, DateIn(Some(testDate), None))
    ensures a < |dates| && b < |dates| && c < |dates|
    ensures dates[a].day < dates[b].day < dates[c].day
  {
    var tr := Where(dates, DateIn(None, Some(valDate)));
    var va := Where(dates, DateIn(Some(valDate), Some(testDate)));
    var te := Where(dates, DateIn(Some(testDate), None));
    var ka :| 0 <= ka < |tr| && tr[ka] == a;
    var kb :| 0 <= kb < |va| && va[kb] == b;
    var kc :| 0 <= kc < |te| && te[kc] == c;
  }
}
