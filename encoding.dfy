/** The label and the one-hot encoding of the categorical columns. */
module Encoding {
  import opened Cells
  import opened Text
  import opened Frames
  import P = Preprocessor
  import H = Historical

  /** `df['OUTCOME'].apply(...)`: 1 when fighter 1 won, 0 when fighter 1 lost,
      missing for a draw, a no contest or no outcome at all. */
  function Target(outcomes: Column): (r: Column)
    ensures |r| == |outcomes|
    ensures forall i :: 0 <= i < |outcomes| ==> (r[i] == Num(1.0) <==> outcomes[i] == Text("W/L"))
    ensures forall i :: 0 <= i < |outcomes| ==> (r[i] == Num(0.0) <==> outcomes[i] == Text("L/W"))
    ensures forall i :: 0 <= i < |outcomes| ==>
      (r[i].Missing? <==> outcomes[i] != Text("W/L") && outcomes[i] != Text("L/W"))
  {
    H.WonCol(outcomes, 1)
  }

  /** `df.drop(columns=[c for c in names if c in df.columns])`: names that are
      not columns are ignored rather than raising. */
  function DropPresent(cols: map<string, Column>, names: seq<string>): (r: map<string, Column>)
    ensures r.Keys == cols.Keys - (set n | n in names)
    ensures forall c :: c in r ==> r[c] == cols[c]
  {
    cols - (set n | n in names && n in cols)
  }

  // ---------------------------------------------------------------------------
  // get_dummies(drop_first=True) on one column

  /** The categories pandas finds in a column: its distinct non-missing texts,
      in sorted order. */
  function Categories(col: Column): (r: seq<string>)
    ensures StrictlySorted(r)
    ensures forall v :: v in r <==> Text(v) in col
  {
    var ts := P.Texts(col);
    var r := SortedDistinct(ts);
    forall v | Text(v) in col ensures v in r {
      var i :| 0 <= i < |col| && col[i] == Text(v);
      assert col[i].Text? && col[i].s == v;
    }
    r
  }

  /** The 0/1 indicator of one category. */
  function Indicator(col: Column, v: string): (r: Column)
    ensures |r| == |col|
    ensures forall i :: 0 <= i < |col| ==> (r[i] == Num(1.0) <==> col[i] == Text(v))
    ensures forall i :: 0 <= i < |col| ==> (r[i] == Num(0.0) <==> col[i] != Text(v))
  {
    seq(|col|, i requires 0 <= i < |col| => Flag(col[i] == Text(v)))
  }

  /** The name get_dummies gives a category's column. */
  function DummyName(prefix: string, v: string): (r: string)
    ensures StartsWith(r, prefix + "_")
    ensures r[|prefix| + 1..] == v
  {
    prefix + "_" + v
  }

  /** Different categories get different column names. */
  lemma DummyNameInjective(prefix: string, v: string, w: string)
    ensures DummyName(prefix, v) == DummyName(prefix, w) ==> v == w
  {
    if DummyName(prefix, v) == DummyName(prefix, w) {
      assert v == DummyName(prefix, v)[|prefix| + 1..];
    }
  }

  /** The indicator columns of one categorical column: one per category except
      the first in sorted order. */
  function Dummies(prefix: string, col: Column): (r: map<string, Column>)
    ensures forall name :: name in r ==> StartsWith(name, prefix + "_") && |r[name]| == |col|
  {
    var cats := Categories(col);
    forall v, w | DummyName(prefix, v) == DummyName(prefix, w) ensures v == w {
      DummyNameInjective(prefix, v, w);
    }
    if cats == [] then map[]
    else map v | v in cats[1..] :: DummyName(prefix, v) := Indicator(col, v)
  }

  /** Every column of the encoding is the indicator of a category that is not the first. */
  lemma DummyKeys(prefix: string, col: Column, name: string)
    requires name in Dummies(prefix, col)
    ensures exists v :: (v in Categories(col) && v != Categories(col)[0] &&
      name == DummyName(prefix, v) && Dummies(prefix, col)[name] == Indicator(col, v))
  {
    var cats := Categories(col);
    var v :| v in cats[1..] && name == DummyName(prefix, v);
    var k :| 0 <= k < |cats| - 1 && cats[1..][k] == v;
    assert cats[k + 1] == v;
    assert StrLess(cats[0], cats[k + 1]);
    StrLessIrreflexive(cats[0]);
    DummyAt(prefix, col, v);
  }

  /** Every category but the first gets a column, which is its indicator. */
  lemma DummyAt(prefix: string, col: Column, v: string)
    requires v in Categories(col) && v != Categories(col)[0]
    ensures DummyName(prefix, v) in Dummies(prefix, col)
    ensures Dummies(prefix, col)[DummyName(prefix, v)] == Indicator(col, v)
  {
    var cats := Categories(col);
    var k :| 0 <= k < |cats| && cats[k] == v;
    assert v in cats[1..] by {
      assert k != 0;
      assert cats[1..][k - 1] == v;
    }
    forall w | DummyName(prefix, v) == DummyName(prefix, w) ensures v == w {
      DummyNameInjective(prefix, v, w);
    }
  }

  /** A row sets at most one indicator of a categorical column... */
  lemma AtMostOneHot(prefix: string, col: Column, i: nat, a: string, b: string)
    requires i < |col|
    requires a in Dummies(prefix, col) && b in Dummies(prefix, col)
    requires Dummies(prefix, col)[a][i] == Num(1.0) && Dummies(prefix, col)[b][i] == Num(1.0)
    ensures a == b
  {
    DummyKeys(prefix, col, a);
    DummyKeys(prefix, col, b);
  }

  /** ... and sets none exactly when its value is missing (or not a text) or is
      the first category. */
  lemma NoneHot(prefix: string, col: Column, i: nat)
    requires i < |col|
    ensures (forall name :: name in Dummies(prefix, col) ==> Dummies(prefix, col)[name][i] == Num(0.0)) <==>
      (!col[i].Text? || col[i].s == Categories(col)[0])
  {
    var cats := Categories(col);
    var d := Dummies(prefix, col);
    if col[i].Text? && col[i].s != cats[0] {
      var v := col[i].s;
      assert Text(v) in col;
      DummyAt(prefix, col, v);
      assert d[DummyName(prefix, v)][i] == Num(1.0);
    } else {
      forall name | name in d ensures d[name][i] == Num(0.0) {
        DummyKeys(prefix, col, name);
      }
    }
  }

  // ---------------------------------------------------------------------------
  // The stage

  const Categorical: set<string> := {"REFEREE", "WEIGHTCLASS", "stance_matchup"}

  /** `pd.get_dummies(df, columns=categorical_cols, prefix=categorical_cols,
      drop_first=True)`, which raises unless all three columns are present. */
  function GetDummies(cols: map<string, Column>, rows: nat): (r: Option<map<string, Column>>)
    requires Shaped(cols, rows)
    ensures r.Some? <==> Categorical <= cols.Keys
    ensures r.Some? ==> Shaped(r.value, rows)
  {
    if Categorical <= cols.Keys then
      var base := cols - Categorical;
      var d1 := Dummies("REFEREE", cols["REFEREE"]);
      var d2 := Dummies("WEIGHTCLASS", cols["WEIGHTCLASS"]);
      var d3 := Dummies("stance_matchup", cols["stance_matchup"]);
      ShapedMerge(base, d1, rows);
      ShapedMerge(base + d1, d2, rows);
      ShapedMerge(base + d1 + d2, d3, rows);
      Some(base + d1 + d2 + d3)
    else None
  }

  /** A name produced for one prefix is never produced for another, nor is it a
      categorical column's own name. */
  lemma PrefixesApart(name: string)
    ensures StartsWith(name, "REFEREE_") ==> !StartsWith(name, "WEIGHTCLASS_") && !StartsWith(name, "stance_matchup_")
    ensures StartsWith(name, "WEIGHTCLASS_") ==> !StartsWith(name, "stance_matchup_")
    ensures (StartsWith(name, "REFEREE_") || StartsWith(name, "WEIGHTCLASS_") ||
      StartsWith(name, "stance_matchup_")) ==> name !in Categorical
  {
    if StartsWith(name, "REFEREE_") {
      assert name[0] == 'R' && |name| >= 8;
    }
    if StartsWith(name, "WEIGHTCLASS_") {
      assert name[0] == 'W' && |name| >= 12;
    }
    if StartsWith(name, "stance_matchup_") {
      assert name[0] == 's' && |name| >= 15;
    }
  }

  /** After encoding the three categorical columns are gone. */
  lemma CategoricalsGone(cols: map<string, Column>, rows: nat, c: string)
    requires Shaped(cols, rows) && Categorical <= cols.Keys && c in Categorical
    ensures c !in GetDummies(cols, rows).value
  {
    var d1 := Dummies("REFEREE", cols["REFEREE"]);
    var d2 := Dummies("WEIGHTCLASS", cols["WEIGHTCLASS"]);
    var d3 := Dummies("stance_matchup", cols["stance_matchup"]);
    PrefixesApart(c);
    PrefixSpelling();
    assert c !in d1 && c !in d2 && c !in d3;
    assert GetDummies(cols, rows).value == (cols - Categorical) + d1 + d2 + d3;
  }

  lemma CategoricalCases(p: string)
    requires p in Categorical
    ensures p == "REFEREE" || p == "WEIGHTCLASS" || p == "stance_matchup"
  {
  }

  lemma PrefixSpelling()
    ensures "REFEREE" + "_" == "REFEREE_"
    ensures "WEIGHTCLASS" + "_" == "WEIGHTCLASS_"
    ensures "stance_matchup" + "_" == "stance_matchup_"
  {
  }

  /** After encoding every category but the first of each categorical column
      has its indicator column. */
  lemma DummiesPresent(cols: map<string, Column>, rows: nat, p: string, v: string)
    requires Shaped(cols, rows) && Categorical <= cols.Keys && p in Categorical
    requires v in Categories(cols[p]) && v != Categories(cols[p])[0]
    ensures DummyName(p, v) in GetDummies(cols, rows).value
    ensures GetDummies(cols, rows).value[DummyName(p, v)] == Indicator(cols[p], v)
  {
    var d1 := Dummies("REFEREE", cols["REFEREE"]);
    var d2 := Dummies("WEIGHTCLASS", cols["WEIGHTCLASS"]);
    var d3 := Dummies("stance_matchup", cols["stance_matchup"]);
    CategoricalCases(p);
    var name := DummyName(p, v);
    DummyAt(p, cols[p], v);
    PrefixesApart(name);
    PrefixSpelling();
    var base := cols - Categorical;
    var all := base + d1 + d2 + d3;
    assert GetDummies(cols, rows).value == all;
    var dp := Dummies(p, cols[p]);
    if p == "REFEREE" {
      assert name in d1 && name !in d2 && name !in d3;
      MergeAt(base, d1, name);
      MergeAt(base + d1, d2, name);
      MergeAt(base + d1 + d2, d3, name);
      assert all[name] == d1[name] && d1 == dp;
    } else if p == "WEIGHTCLASS" {
      assert name in d2 && name !in d3;
      MergeAt(base + d1, d2, name);
      MergeAt(base + d1 + d2, d3, name);
      assert all[name] == d2[name] && d2 == dp;
    } else {
      assert d3 == dp;
      MergeAt(base + d1 + d2, d3, name);
      assert all[name] == d3[name];
    }
    assert all[name] == dp[name];
  }

  /** After encoding every other column that carries none of the three
      prefixes is unchanged. */
  lemma OthersKept(cols: map<string, Column>, rows: nat, c: string)
    requires Shaped(cols, rows) && Categorical <= cols.Keys
    requires c in cols && c !in Categorical
    requires !StartsWith(c, "REFEREE_") && !StartsWith(c, "WEIGHTCLASS_") && !StartsWith(c, "stance_matchup_")
    ensures c in GetDummies(cols, rows).value && GetDummies(cols, rows).value[c] == cols[c]
  {
    var d1 := Dummies("REFEREE", cols["REFEREE"]);
    var d2 := Dummies("WEIGHTCLASS", cols["WEIGHTCLASS"]);
    var d3 := Dummies("stance_matchup", cols["stance_matchup"]);
    PrefixSpelling();
    assert c !in d1 && c !in d2 && c !in d3;
    var base := cols - Categorical;
    assert c in base && base[c] == cols[c];
    assert GetDummies(cols, rows).value == base + d1 + d2 + d3;
  }

  /** `create_encoding_features(df)`: writes `target` into the table in place,
      then rebinds it to the dropped and encoded copy; the copy is what the
      caller goes on with. `colsToDrop` is the configured drop list. */
  method CreateEncodingFeatures(f: Frame, colsToDrop: seq<string>) returns (ok: bool)
    requires f.Valid() && "OUTCOME" in f.cols
    modifies f
    ensures f.Valid()
    ensures var labelled := old(f.cols)["target" := Target(old(f.cols)["OUTCOME"])];
      var r := GetDummies(DropPresent(labelled, colsToDrop), old(f.rows));
      ok == r.Some? && (ok ==> f.cols == r.value && f.rows == old(f.rows)) && (!ok ==> f.cols == labelled)
  {
    f.Set("target", Target(f.cols["OUTCOME"]));
    var dropped := DropPresent(f.cols, colsToDrop);
    var r := GetDummies(dropped, f.rows);
    if r.None? {
      return false;
    }
    f.Assign(r.value, f.rows);
    ok := true;
  }
}
