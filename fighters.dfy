/** Fighter lookup for serving: the list of known fighters, and one fighter's
    latest features normalised to the slot-1 naming. */
module Fighters {
  import opened Cells
  import opened Text
  import opened Frames
  import opened Order
  import P = Preprocessor

  /** A whole table as a value, with its column order. */
  datatype Table = Table(cols: map<string, Column>, rows: nat, order: seq<string>)

  /** The columns are of equal length and `order` lists each exactly once. */
  predicate TableOk(t: Table)
  {
    Shaped(t.cols, t.rows) &&
    (forall k :: 0 <= k < |t.order| ==> t.order[k] in t.cols) &&
    (forall c :: c in t.cols ==> c in t.order) &&
    (forall a, b :: 0 <= a < b < |t.order| ==> t.order[a] != t.order[b])
  }

  /** The preprocessed bouts: both names and the date. */
  predicate BoutsOk(t: Table)
  {
    TableOk(t) && "fighter1_name" in t.cols && "fighter2_name" in t.cols && "DATE" in t.cols
  }

  /** The feature table: it still holds the date of each bout. */
  predicate FeaturesOk(t: Table)
  {
    TableOk(t) && "DATE" in t.cols
  }

  /** One entry of a pandas Series: index label and value. */
  datatype Entry = Entry(key: string, val: Cell)

  // ---------------------------------------------------------------------------
  // get_all_fighters and fighter_exists (lines 24-32)

  /** `sorted(pd.concat([f1, f2]).dropna().unique())`. */
  function AllFighters(f1: Column, f2: Column): (r: seq<string>)
    ensures StrictlySorted(r)
    ensures forall n :: n in r <==> Text(n) in f1 || Text(n) in f2
  {
    var ts := P.Texts(f1 + f2);
    var r := SortedDistinct(ts);
    forall n ensures n in r <==> Text(n) in f1 || Text(n) in f2 {
      if n in r {
        assert n in ts;
        var i :| 0 <= i < |f1 + f2| && (f1 + f2)[i] == Text(n);
        if i < |f1| { assert f1[i] == Text(n); } else { assert f2[i - |f1|] == Text(n); }
      }
      if Text(n) in f1 {
        var i :| 0 <= i < |f1| && f1[i] == Text(n);
        assert (f1 + f2)[i] == Text(n);
        assert n in ts;
      }
      if Text(n) in f2 {
        var i :| 0 <= i < |f2| && f2[i] == Text(n);
        assert (f1 + f2)[|f1| + i] == Text(n);
        assert n in ts;
      }
    }
    r
  }

  /** `fighter_exists(name)`. */
  predicate FighterExists(f1: Column, f2: Column, name: string)
  {
    Text(name) in f1 || Text(name) in f2
  }

  /** A fighter exists exactly when listed by `get_all_fighters`. */
  lemma ExistsIffListed(f1: Column, f2: Column, name: string)
    ensures FighterExists(f1, f2, name) <==> name in AllFighters(f1, f2)
  {
  }

  // ---------------------------------------------------------------------------
  // get_fighter_features (lines 35-60)

  /** The positions of the bouts the fighter took part in, in table order. */
  function FighterRows(f1: Column, f2: Column, name: string): (r: seq<nat>)
    requires |f1| == |f2|
    ensures StrictlyIncreasing(r) && InRange(r, |f1|)
    ensures forall k :: 0 <= k < |r| ==> f1[r[k]] == Text(name) || f2[r[k]] == Text(name)
    ensures forall i :: 0 <= i < |f1| ==> (i in r <==> f1[i] == Text(name) || f2[i] == Text(name))
  {
    if f1 == [] then []
    else
      var n := |f1| - 1;
      var prev := FighterRows(f1[..n], f2[..n], name);
      assert forall i :: 0 <= i < n ==> f1[..n][i] == f1[i] && f2[..n][i] == f2[i];
      if f1[n] == Text(name) || f2[n] == Text(name) then prev + [n] else prev
  }

  /** `fighter_fights.sort_values('DATE').iloc[-1]` as a row position, or None
      when the fighter has no bout. */
  function LatestFight(t: Table, name: string): (r: Option<nat>)
    requires BoutsOk(t)
    ensures r.Some? ==> r.value < t.rows
  {
    var rs := FighterRows(t.cols["fighter1_name"], t.cols["fighter2_name"], name);
    if rs == [] then None
    else
      var s := StableSort(t.cols["DATE"], rs);
      Some(s[|s| - 1])
  }

  /** The latest bout exists exactly when the fighter does; it is one of the
      fighter's bouts, no other of them is later, and among bouts of the same
      date it is the last in table order. */
  lemma LatestFightSpec(t: Table, name: string)
    requires BoutsOk(t)
    ensures var f1, f2 := t.cols["fighter1_name"], t.cols["fighter2_name"];
      LatestFight(t, name).Some? <==> FighterExists(f1, f2, name)
    ensures var f1, f2, dates := t.cols["fighter1_name"], t.cols["fighter2_name"], t.cols["DATE"];
      var r := LatestFight(t, name);
      r.Some? ==> ((f1[r.value] == Text(name) || f2[r.value] == Text(name)) &&
        forall j :: 0 <= j < t.rows && (f1[j] == Text(name) || f2[j] == Text(name)) ==>
          DateLe(dates[j], dates[r.value]) && (DateLe(dates[r.value], dates[j]) ==> j <= r.value))
  {
    var f1, f2, dates := t.cols["fighter1_name"], t.cols["fighter2_name"], t.cols["DATE"];
    var rs := FighterRows(f1, f2, name);
    if FighterExists(f1, f2, name) {
      if Text(name) in f1 {
        var i :| 0 <= i < |f1| && f1[i] == Text(name);
        assert i in rs;
      } else {
        var i :| 0 <= i < |f2| && f2[i] == Text(name);
        assert i in rs;
      }
    }
    if rs != [] {
      LastOfSort(dates, rs);
    } else {
      assert !FighterExists(f1, f2, name) by {
        forall i | 0 <= i < |f1| ensures f1[i] != Text(name) && f2[i] != Text(name) {
          assert i !in rs;
        }
      }
    }
  }

  /** pandas `==` on dates: a missing date (NaT) equals nothing. */
  predicate SameDate(a: Cell, b: Cell)
  {
    a.Date? && b.Date? && a.day == b.day
  }

  /** `df[df['DATE'] == d].iloc[0]` as a row position: the first row of date
      `d`, or None, where pandas raises an IndexError. */
  function FirstWithDate(dates: Column, d: Cell): (r: Option<nat>)
    ensures r.Some? ==> (r.value < |dates| && SameDate(dates[r.value], d) &&
      forall j :: 0 <= j < r.value ==> !SameDate(dates[j], d))
    ensures r.None? ==> forall j :: 0 <= j < |dates| ==> !SameDate(dates[j], d)
  {
    if dates == [] then None
    else if SameDate(dates[0], d) then Some(0)
    else
      match FirstWithDate(dates[1..], d)
      case None => None
      case Some(k) => Some(k + 1)
  }

  /** `df.iloc[i]`: row i as a Series over the table's columns, in order. */
  function RowSeries(t: Table, i: nat): (r: seq<Entry>)
    requires TableOk(t) && i < t.rows
    ensures |r| == |t.order|
    ensures forall k :: 0 <= k < |r| ==> r[k] == Entry(t.order[k], t.cols[t.order[k]][i])
  {
    seq(|t.order|, k requires 0 <= k < |t.order| => Entry(t.order[k], t.cols[t.order[k]][i]))
  }

  /** `series.filter(regex='^' + prefix)`: the entries whose label starts with
      the prefix, in order. */
  function FilterPrefix(s: seq<Entry>, prefix: string): (r: seq<Entry>)
    ensures forall e :: e in r <==> e in s && StartsWith(e.key, prefix)
  {
    if s == [] then []
    else
      var n := |s| - 1;
      var prev := FilterPrefix(s[..n], prefix);
      assert s == s[..n] + [s[n]];
      prev + (if StartsWith(s[n].key, prefix) then [s[n]] else [])
  }

  /** `series.index = series.index.str.replace(from, to)`: every occurrence in
      every label is replaced; the values stay. */
  function RenameKeys(s: seq<Entry>, from: string, to: string): (r: seq<Entry>)
    requires |from| > 0
    ensures |r| == |s|
    ensures forall k :: 0 <= k < |s| ==> r[k] == Entry(Replace(s[k].key, from, to), s[k].val)
  {
    seq(|s|, k requires 0 <= k < |s| => Entry(Replace(s[k].key, from, to), s[k].val))
  }

  /** Replacing in a label that starts with the pattern yields a label that
      starts with the replacement. */
  lemma ReplaceLeading(t: string, from: string, to: string)
    requires |from| > 0
    ensures Replace(from + t, from, to) == to + Replace(t, from, to)
  {
    var s := from + t;
    assert s[..|from|] == from;
    assert s[|from|..] == t;
    assert Split(s, from) == [""] + Split(t, from);
    var parts := [""] + Split(t, from);
    assert parts[1..] == Split(t, from);
  }

  lemma RenamedPrefix(key: string, from: string, to: string)
    requires |from| > 0 && StartsWith(key, from)
    ensures StartsWith(Replace(key, from, to), to)
  {
    var t := key[|from|..];
    assert key == from + t;
    ReplaceLeading(t, from, to);
  }

  /** The outcome of `get_fighter_features`. */
  datatype Lookup =
    | Found(features: seq<Entry>)
    | NotFound        // ValueError: the fighter is in no bout
    | NoFeatureRow    // IndexError: no feature row has the latest bout's date

  /** `get_fighter_features(name, pre, feats)`. */
  function FighterFeatures(pre: Table, feats: Table, name: string): (r: Lookup)
    requires BoutsOk(pre) && FeaturesOk(feats)
  {
    match LatestFight(pre, name)
    case None => NotFound
    case Some(latest) =>
      match FirstWithDate(feats.cols["DATE"], pre.cols["DATE"][latest])
      case None => NoFeatureRow
      case Some(j) =>
        var slot1 := pre.cols["fighter1_name"][latest] == Text(name);
        var prefix := if slot1 then "fighter1_" else "fighter2_";
        var picked := FilterPrefix(RowSeries(feats, j), prefix);
        Found(if slot1 then picked else RenameKeys(picked, "fighter2_", "fighter1_"))
  }

  /** Not found exactly when the name occurs in no bout. */
  lemma NotFoundIff(pre: Table, feats: Table, name: string)
    requires BoutsOk(pre) && FeaturesOk(feats)
    ensures FighterFeatures(pre, feats, name) == NotFound <==>
      !FighterExists(pre.cols["fighter1_name"], pre.cols["fighter2_name"], name)
  {
    LatestFightSpec(pre, name);
  }

  /** A found feature set holds, under slot-1 labels, exactly the cells of the
      first feature row dated as the fighter's latest bout whose labels carry
      the fighter's slot prefix in that bout. */
  lemma FoundFeatures(pre: Table, feats: Table, name: string)
    requires BoutsOk(pre) && FeaturesOk(feats)
    requires FighterFeatures(pre, feats, name).Found?
    ensures var latest := LatestFight(pre, name).value;
      var j := FirstWithDate(feats.cols["DATE"], pre.cols["DATE"][latest]).value;
      var slot1 := pre.cols["fighter1_name"][latest] == Text(name);
      var prefix := if slot1 then "fighter1_" else "fighter2_";
      var picked := FilterPrefix(RowSeries(feats, j), prefix);
      var r := FighterFeatures(pre, feats, name).features;
      |r| == |picked| &&
      (forall e :: e in picked ==> e.val == feats.cols[e.key][j]) &&
      (forall c :: c in feats.cols && StartsWith(c, prefix) ==> Entry(c, feats.cols[c][j]) in picked) &&
      (forall k :: 0 <= k < |r| ==> StartsWith(r[k].key, "fighter1_") && r[k].val == picked[k].val)
  {
    var latest := LatestFight(pre, name).value;
    var j := FirstWithDate(feats.cols["DATE"], pre.cols["DATE"][latest]).value;
    var slot1 := pre.cols["fighter1_name"][latest] == Text(name);
    var prefix := if slot1 then "fighter1_" else "fighter2_";
    var row := RowSeries(feats, j);
    var picked := FilterPrefix(row, prefix);
    forall e | e in picked ensures e.val == feats.cols[e.key][j] {
      var k :| 0 <= k < |row| && row[k] == e;
    }
    forall c | c in feats.cols && StartsWith(c, prefix) ensures Entry(c, feats.cols[c][j]) in picked {
      var k :| 0 <= k < |feats.order| && feats.order[k] == c;
      assert row[k] == Entry(c, feats.cols[c][j]);
    }
    var r := FighterFeatures(pre, feats, name).features;
    forall k | 0 <= k < |r| ensures StartsWith(r[k].key, "fighter1_") && r[k].val == picked[k].val {
      assert picked[k] in picked;
      if !slot1 {
        RenamedPrefix(picked[k].key, "fighter2_", "fighter1_");
      }
    }
  }

  /** Two bouts on one card (the same date): A vs. B, then C vs. D. */
  function SharedCardBouts(): Table
  {
    Table(map["fighter1_name" := [Text("A"), Text("C")],
              "fighter2_name" := [Text("B"), Text("D")],
              "DATE" := [Date(7), Date(7)]],
          2, ["fighter1_name", "fighter2_name", "DATE"])
  }

  /** The feature table of that card: row k belongs to bout k. */
  function SharedCardFeatures(): Table
  {
    Table(map["DATE" := [Date(7), Date(7)], "fighter1_x" := [Num(1.0), Num(2.0)]],
          2, ["DATE", "fighter1_x"])
  }

  lemma SharedCardBoutsOk()
    ensures BoutsOk(SharedCardBouts())
  {
    var t := SharedCardBouts();
    assert forall c :: c in t.cols ==> c in t.order;
  }

  lemma SharedCardLatest()
    ensures BoutsOk(SharedCardBouts())
    ensures LatestFight(SharedCardBouts(), "C") == Some(1)
  {
    SharedCardBoutsOk();
    var pre := SharedCardBouts();
    var f1, f2 := pre.cols["fighter1_name"], pre.cols["fighter2_name"];
    assert f1[1] == Text("C");
    LatestFightSpec(pre, "C");
    var r := LatestFight(pre, "C").value;
    assert f1[0] != Text("C") && f2[0] != Text("C");
    assert r != 0;
  }

  lemma SharedCardRow()
    ensures FeaturesOk(SharedCardFeatures())
    ensures FirstWithDate(SharedCardFeatures().cols["DATE"], Date(7)) == Some(0)
    ensures FilterPrefix(RowSeries(SharedCardFeatures(), 0), "fighter1_") == [Entry("fighter1_x", Num(1.0))]
  {
    var row := RowSeries(SharedCardFeatures(), 0);
    assert row == [Entry("DATE", Date(7)), Entry("fighter1_x", Num(1.0))];
    assert !StartsWith("DATE", "fighter1_");
    assert StartsWith("fighter1_x", "fighter1_");
    var first := row[..1];
    assert first[..0] == [];
    assert FilterPrefix(first, "fighter1_") == [];
    assert row[..|row| - 1] == first;
    assert FilterPrefix(row, "fighter1_") == [] + [row[1]];
  }

  /** The feature row is chosen by date alone: C's latest bout is row 1, yet C
      gets the first feature row of that date, row 0, which is A's bout. */
  lemma SharedCardFirstRow()
    ensures BoutsOk(SharedCardBouts()) && FeaturesOk(SharedCardFeatures())
    ensures FighterFeatures(SharedCardBouts(), SharedCardFeatures(), "C") == Found([Entry("fighter1_x", Num(1.0))])
    ensures SharedCardFeatures().cols["fighter1_x"][1] == Num(2.0)
  {
    SharedCardLatest();
    SharedCardRow();
    assert SharedCardBouts().cols["DATE"][1] == Date(7);
    assert SharedCardBouts().cols["fighter1_name"][1] == Text("C");
  }

  // ---------------------------------------------------------------------------
  // The memo caches (lines 5-21)

  /** `_df_preprocessed` and `_df_features`, each filled on first use. The run
      counters record how often each table was computed. */
  class DataCache {
    var preprocessed: Option<Table>
    var features: Option<Table>
    var preprocessRuns: nat
    var featureRuns: nat

    /** Each table is computed at most once, and is cached once computed. */
    predicate Valid()
      reads this
    {
      preprocessRuns <= 1 && (preprocessed.None? <==> preprocessRuns == 0) &&
      featureRuns <= 1 && (features.None? <==> featureRuns == 0)
    }

    constructor ()
      ensures Valid() && preprocessed == None && features == None
    {
      preprocessed := None;
      features := None;
      preprocessRuns := 0;
      featureRuns := 0;
    }

    /** `_get_preprocessed_data()`; `computed` is what `preprocess_data()` returns. */
    method GetPreprocessed(computed: Table) returns (t: Table)
      requires Valid()
      modifies this
      ensures Valid()
      ensures old(preprocessed).None? ==> t == computed && preprocessed == Some(computed)
      ensures old(preprocessed).Some? ==> t == old(preprocessed).value && preprocessed == old(preprocessed)
      ensures preprocessRuns == old(preprocessRuns) + (if old(preprocessed).None? then 1 else 0)
      ensures features == old(features) && featureRuns == old(featureRuns)
    {
      if preprocessed.None? {
        preprocessed := Some(computed);
        preprocessRuns := preprocessRuns + 1;
      }
      t := preprocessed.value;
    }

    /** `_get_features_data()`; `computed` is what `create_features()` returns. */
    method GetFeatures(computed: Table) returns (t: Table)
      requires Valid()
      modifies this
      ensures Valid()
      ensures old(features).None? ==> t == computed && features == Some(computed)
      ensures old(features).Some? ==> t == old(features).value && features == old(features)
      ensures featureRuns == old(featureRuns) + (if old(features).None? then 1 else 0)
      ensures preprocessed == old(preprocessed) && preprocessRuns == old(preprocessRuns)
    {
      if features.None? {
        features := Some(computed);
        featureRuns := featureRuns + 1;
      }
      t := features.value;
    }
  }
}
