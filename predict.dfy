/** Serving one prediction: assembling the model's input row from the two
    fighters' latest features, and the winner rule. */
module Predict {
  import opened Cells
  import opened Text
  import F = Fighters

  /** A trained classifier as far as serving sees it: where it was loaded
      from and the feature names it records, when it records them. Its
      probability function is a parameter of the prediction. */
  datatype Model = Model(source: string, featureNames: Option<seq<string>>)

  // ---------------------------------------------------------------------------
  // _get_model (lines 6-20)

  /** `_model_cache` and `_model_path_cache`. */
  class ModelCache {
    var model: Option<Model>
    var path: Option<string>
    var loads: nat

    /** A model is cached exactly when a path is, and only after a load. */
    predicate Valid()
      reads this
    {
      (model.None? <==> path.None?) && (model.None? <==> loads == 0)
    }

    constructor ()
      ensures Valid() && model == None && path == None
    {
      model := None;
      path := None;
      loads := 0;
    }

    /** `_get_model(modelPath)`; `loaded` is the model stored at that path. */
    method GetModel(modelPath: string, loaded: Model) returns (m: Model)
      requires Valid()
      modifies this
      ensures Valid()
      ensures var reload := old(model).None? || old(path) != Some(modelPath);
        (reload ==> m == loaded && model == Some(loaded) && path == Some(modelPath) && loads == old(loads) + 1) &&
        (!reload ==> m == old(model).value && model == old(model) && path == old(path) && loads == old(loads))
    {
      if model.None? || path != Some(modelPath) {
        model := Some(loaded);
        path := Some(modelPath);
        loads := loads + 1;
      }
      m := model.value;
    }
  }

  // ---------------------------------------------------------------------------
  // The prediction row (lines 35-74)

  /** `series.to_dict()`: a later entry of the same label wins. */
  function ToDict(s: seq<F.Entry>): map<string, Cell>
  {
    if s == [] then map[]
    else ToDict(s[..|s| - 1])[s[|s| - 1].key := s[|s| - 1].val]
  }

  /** Every label becomes a key, and nothing else does. */
  lemma {:induction false} ToDictKeys(s: seq<F.Entry>, k: string)
    ensures k in ToDict(s) <==> exists j :: 0 <= j < |s| && s[j].key == k
  {
    if s != [] {
      var n := |s| - 1;
      ToDictKeys(s[..n], k);
      if k in ToDict(s[..n]) {
        var j :| 0 <= j < n && s[..n][j].key == k;
        assert s[j].key == k;
      }
      if exists j :: 0 <= j < |s| && s[j].key == k {
        var j :| 0 <= j < |s| && s[j].key == k;
        if j < n {
          assert s[..n][j].key == k;
        }
      }
    }
  }

  /** An entry whose label occurs nowhere later gives the dictionary's value. */
  lemma {:induction false} ToDictAt(s: seq<F.Entry>, j: nat)
    requires j < |s| && forall q :: j < q < |s| ==> s[q].key != s[j].key
    ensures s[j].key in ToDict(s) && ToDict(s)[s[j].key] == s[j].val
  {
    var n := |s| - 1;
    if j < n {
      assert forall q :: j < q < n ==> s[..n][q] == s[q];
      ToDictAt(s[..n], j);
    }
  }

  lemma ToDictStep(s: seq<F.Entry>, i: nat)
    requires i < |s|
    ensures ToDict(s[..i + 1]) == ToDict(s[..i])[s[i].key := s[i].val]
  {
    assert s[..i + 1][..i] == s[..i];
  }

  /** The reference row's own columns copied into the prediction row: those
      not starting with "fighter", other than DATE and `target`. */
  predicate SharedKey(key: string)
  {
    !StartsWith(key, "fighter") && key != "DATE" && key != "target"
  }

  function SharedEntries(s: seq<F.Entry>): (r: seq<F.Entry>)
    ensures forall e :: e in r <==> e in s && SharedKey(e.key)
  {
    if s == [] then []
    else
      var n := |s| - 1;
      assert s == s[..n] + [s[n]];
      SharedEntries(s[..n]) + (if SharedKey(s[n].key) then [s[n]] else [])
  }

  /** Fighter 2's canonical features under slot-2 labels. */
  function Slot2(f2: seq<F.Entry>): (r: seq<F.Entry>)
    ensures |r| == |f2|
  {
    F.RenameKeys(f2, "fighter1_", "fighter2_")
  }

  /** Every expected name that is still absent, mapped to 0. */
  function Zeros(d: map<string, Cell>, names: seq<string>): (r: map<string, Cell>)
    ensures forall k :: k in r <==> k in names && k !in d
    ensures forall k :: k in r ==> r[k] == Num(0.0)
  {
    map k | k in names && k !in d :: Num(0.0)
  }

  /** `fight_row_dict` after the three loops of `predict_fight`. */
  function Assembled(f1: seq<F.Entry>, f2: seq<F.Entry>, reference: seq<F.Entry>, names: seq<string>): (r: map<string, Cell>)
    ensures forall k :: k in names ==> k in r
  {
    var d := ToDict(f1) + ToDict(Slot2(f2)) + ToDict(SharedEntries(reference));
    d + Zeros(d, names)
  }

  /** `fight_row[model_feature_names]`: the expected columns, in that order. */
  function SelectRow(d: map<string, Cell>, names: seq<string>): (r: Column)
    requires forall k :: k in names ==> k in d
    ensures |r| == |names|
    ensures forall k :: 0 <= k < |names| ==> r[k] == d[names[k]]
  {
    seq(|names|, k requires 0 <= k < |names| => d[names[k]])
  }

  /** Lines 35-68: the dictionary is built in place, one loop per source of
      entries after fighter 1's. */
  method AssembleRow(f1: seq<F.Entry>, f2: seq<F.Entry>, reference: seq<F.Entry>, names: seq<string>)
    returns (d: map<string, Cell>)
    ensures d == Assembled(f1, f2, reference, names)
  {
    d := ToDict(f1);
    d := AddSlot2(d, f2);
    d := AddShared(d, reference);
    d := AddZeros(d, names);
  }

  /** Lines 38-40. */
  method AddSlot2(d0: map<string, Cell>, f2: seq<F.Entry>) returns (d: map<string, Cell>)
    ensures d == d0 + ToDict(Slot2(f2))
  {
    d := d0;
    var i := 0;
    while i < |f2|
      invariant i <= |f2|
      invariant d == d0 + ToDict(Slot2(f2)[..i])
    {
      ToDictStep(Slot2(f2), i);
      MergeUpdate(d0, ToDict(Slot2(f2)[..i]), Slot2(f2)[i].key, Slot2(f2)[i].val);
      d := d[Replace(f2[i].key, "fighter1_", "fighter2_") := f2[i].val];
      i := i + 1;
    }
    assert Slot2(f2)[..|f2|] == Slot2(f2);
  }

  /** Lines 51-54. */
  method AddShared(d0: map<string, Cell>, reference: seq<F.Entry>) returns (d: map<string, Cell>)
    ensures d == d0 + ToDict(SharedEntries(reference))
  {
    var shared := SharedEntries(reference);
    d := d0;
    var i := 0;
    while i < |shared|
      invariant i <= |shared|
      invariant d == d0 + ToDict(shared[..i])
    {
      ToDictStep(shared, i);
      MergeUpdate(d0, ToDict(shared[..i]), shared[i].key, shared[i].val);
      d := d[shared[i].key := shared[i].val];
      i := i + 1;
    }
    assert shared[..|shared|] == shared;
  }

  /** Lines 66-68. */
  method AddZeros(d0: map<string, Cell>, names: seq<string>) returns (d: map<string, Cell>)
    ensures d == d0 + Zeros(d0, names)
  {
    d := d0;
    var i := 0;
    while i < |names|
      invariant i <= |names|
      invariant d == d0 + Zeros(d0, names[..i])
    {
      ZerosStep(d0, names, i);
      if names[i] !in d {
        d := d[names[i] := Num(0.0)];
      }
      i := i + 1;
    }
    assert names[..|names|] == names;
  }

  lemma MergeUpdate(a: map<string, Cell>, b: map<string, Cell>, k: string, v: Cell)
    ensures (a + b)[k := v] == a + b[k := v]
  {
  }

  /** One more expected name: it is added as 0 exactly when still absent. */
  lemma ZerosStep(full: map<string, Cell>, names: seq<string>, i: nat)
    requires i < |names|
    ensures var d := full + Zeros(full, names[..i]);
      full + Zeros(full, names[..i + 1]) == if names[i] in d then d else d[names[i] := Num(0.0)]
  {
    assert names[..i + 1] == names[..i] + [names[i]];
  }

  /** In the assembled row, fighter 1's canonical entries are unchanged. */
  lemma Fighter1Kept(f1: seq<F.Entry>, f2: seq<F.Entry>, reference: seq<F.Entry>, names: seq<string>, k: string)
    requires forall j :: 0 <= j < |f1| ==> StartsWith(f1[j].key, "fighter1_")
    requires forall j :: 0 <= j < |f2| ==> StartsWith(f2[j].key, "fighter1_")
    requires k in ToDict(f1)
    ensures k in Assembled(f1, f2, reference, names)
    ensures Assembled(f1, f2, reference, names)[k] == ToDict(f1)[k]
  {
    ToDictKeys(f1, k);
    var j :| 0 <= j < |f1| && f1[j].key == k;
    assert k !in ToDict(Slot2(f2)) by {
      forall q | 0 <= q < |f2| ensures Slot2(f2)[q].key != k {
        F.RenamedPrefix(f2[q].key, "fighter1_", "fighter2_");
        PrefixesDiffer(Slot2(f2)[q].key, k);
      }
      ToDictKeys(Slot2(f2), k);
    }
    NotShared(reference, k);
  }

  /** In the assembled row, fighter 2's canonical entries appear under slot-2
      labels. */
  lemma Fighter2Renamed(f1: seq<F.Entry>, f2: seq<F.Entry>, reference: seq<F.Entry>, names: seq<string>, k: string)
    requires forall j :: 0 <= j < |f2| ==> StartsWith(f2[j].key, "fighter1_")
    requires k in ToDict(Slot2(f2))
    ensures k in Assembled(f1, f2, reference, names)
    ensures Assembled(f1, f2, reference, names)[k] == ToDict(Slot2(f2))[k]
  {
    ToDictKeys(Slot2(f2), k);
    var j :| 0 <= j < |f2| && Slot2(f2)[j].key == k;
    F.RenamedPrefix(f2[j].key, "fighter1_", "fighter2_");
    NotShared(reference, k);
  }

  /** In the assembled row, every shared column of the reference row is copied
      verbatim. */
  lemma SharedCopied(f1: seq<F.Entry>, f2: seq<F.Entry>, reference: seq<F.Entry>, names: seq<string>, k: string)
    requires k in ToDict(SharedEntries(reference))
    ensures k in Assembled(f1, f2, reference, names)
    ensures Assembled(f1, f2, reference, names)[k] == ToDict(SharedEntries(reference))[k]
  {
  }

  /** An expected column none of the three sources supplies is 0; every other
      assembled key comes from one of them. */
  lemma ZeroFilled(f1: seq<F.Entry>, f2: seq<F.Entry>, reference: seq<F.Entry>, names: seq<string>, k: string)
    requires k in names
    requires k !in ToDict(f1) && k !in ToDict(Slot2(f2)) && k !in ToDict(SharedEntries(reference))
    ensures Assembled(f1, f2, reference, names)[k] == Num(0.0)
  {
  }

  /** A slot-labelled key is never a shared one. */
  lemma NotShared(reference: seq<F.Entry>, k: string)
    requires StartsWith(k, "fighter1_") || StartsWith(k, "fighter2_")
    ensures k !in ToDict(SharedEntries(reference))
  {
    var sh := SharedEntries(reference);
    FighterPrefix(k);
    forall q | 0 <= q < |sh| ensures sh[q].key != k {
      assert sh[q] in sh;
    }
    ToDictKeys(sh, k);
  }

  lemma PrefixesDiffer(a: string, b: string)
    requires StartsWith(a, "fighter2_") && StartsWith(b, "fighter1_")
    ensures a != b
  {
    assert a[7] == '2' && b[7] == '1';
  }

  lemma FighterPrefix(k: string)
    requires StartsWith(k, "fighter1_") || StartsWith(k, "fighter2_")
    ensures StartsWith(k, "fighter")
  {
    assert k[..7] == k[..9][..7];
  }

  /** `float()` of one cell: a number stays, a missing value stays missing
      (NaN), integer text becomes its value, and any other text or a date
      raises. Decimal and exponent text is not modelled. */
  function FloatCell(c: Cell): (r: Option<Cell>)
    ensures c.Num? || c.Missing? ==> r == Some(c)
    ensures c.Date? ==> r.None?
    ensures r.Some? ==> r.value.Num? || r.value.Missing?
  {
    match c
    case Text(s) => (match ParseInt(s) case Some(v) => Some(Num(v as real)) case None => None)
    case Date(_) => None
    case _ => Some(c)
  }

  /** A numeral converts to its value. */
  lemma FloatOfNumeral(n: nat)
    ensures FloatCell(Text(NatStr(n))) == Some(Num(n as real))
  {
    ParseNatStr(n);
  }

  /** `.astype(float)` of the row: it succeeds exactly when every cell
      converts, and then holds the converted cells; an all-numeric row is
      kept as it is. */
  function AsFloat(row: Column): (r: Option<Column>)
    ensures r.Some? <==> forall k :: 0 <= k < |row| ==> FloatCell(row[k]).Some?
    ensures r.Some? ==> |r.value| == |row| && forall k :: 0 <= k < |row| ==> FloatCell(row[k]) == Some(r.value[k])
  {
    if forall k :: 0 <= k < |row| ==> FloatCell(row[k]).Some? then
      Some(seq(|row|, k requires 0 <= k < |row| => FloatCell(row[k]).value))
    else None
  }

  /** A row of numbers and missing values converts to itself. */
  lemma AsFloatNumeric(row: Column)
    requires forall k :: 0 <= k < |row| ==> row[k].Num? || row[k].Missing?
    ensures AsFloat(row) == Some(row)
  {
    var r := AsFloat(row);
    assert r.Some?;
    assert r.value == row;
  }

  // ---------------------------------------------------------------------------
  // predict_fight (lines 22-85)

  /** Lines 57-63: the model's own feature list, else every feature column but
      DATE and `target` in table order. */
  function FeatureNames(m: Model, feats: F.Table): (r: seq<string>)
    ensures m.featureNames.Some? ==> r == m.featureNames.value
    ensures m.featureNames.None? ==> forall c :: c in r <==> c in feats.order && c != "DATE" && c != "target"
  {
    match m.featureNames
    case Some(ns) => ns
    case None => Without(feats.order, {"DATE", "target"})
  }

  function Without(s: seq<string>, drop: set<string>): (r: seq<string>)
    ensures forall c :: c in r <==> c in s && c !in drop
  {
    if s == [] then []
    else Without(s[..|s| - 1], drop) + (if s[|s| - 1] in drop then [] else [s[|s| - 1]])
  }

  /** Line 84: fighter 1 is the predicted winner exactly when the probability
      exceeds one half. */
  function Winner(name1: string, name2: string, p: real): (w: string)
    ensures p > 0.5 ==> w == name1
    ensures p <= 0.5 ==> w == name2
  {
    if p > 0.5 then name1 else name2
  }

  datatype Prediction = Prediction(fighter1: string, fighter2: string, p1: real, p2: real, winner: string)

  datatype Outcome =
    | Predicted(prediction: Prediction)
    | FighterNotFound(name: string)  // ValueError from get_fighter_features
    | NoFeatureRow                   // IndexError from `.iloc[0]`
    | NotNumeric                     // ValueError from `.astype(float)`

  /** `predict_fight(name1, name2)` given the model, the two tables and the
      model's probability function. */
  function PredictFight(m: Model, pre: F.Table, feats: F.Table, name1: string, name2: string,
                        proba: (Model, Column) -> real): (r: Outcome)
    requires F.BoutsOk(pre) && F.FeaturesOk(feats)
  {
    match F.FighterFeatures(pre, feats, name1)
    case NotFound => FighterNotFound(name1)
    case NoFeatureRow => NoFeatureRow
    case Found(f1) =>
      match F.FighterFeatures(pre, feats, name2)
      case NotFound => FighterNotFound(name2)
      case NoFeatureRow => NoFeatureRow
      case Found(f2) =>
        match ReferenceRow(pre, feats, name1)
        case None => NoFeatureRow
        case Some(j) => Score(m, feats, name1, name2, proba, f1, f2, j)
  }

  /** Lines 74-85: scoring the assembled row of a found pair. */
  function Score(m: Model, feats: F.Table, name1: string, name2: string,
                 proba: (Model, Column) -> real, f1: seq<F.Entry>, f2: seq<F.Entry>, j: nat): (r: Outcome)
    requires F.FeaturesOk(feats) && j < feats.rows
    ensures r.NotNumeric? || r.Predicted?
  {
    match AsFloat(ModelInput(m, feats, f1, f2, j))
    case None => NotNumeric
    case Some(values) =>
      var p := proba(m, values);
      Predicted(Prediction(name1, name2, p, 1.0 - p, Winner(name1, name2, p)))
  }

  /** `predict_fight(name1, name2, modelPath)` against the caches: `stored`
      is the model saved at `modelPath`, `computedPre` and `computedFeats` are
      what the pipeline would compute. */
  method ServePrediction(cache: ModelCache, data: F.DataCache, modelPath: string, stored: Model,
                         computedPre: F.Table, computedFeats: F.Table, name1: string, name2: string,
                         proba: (Model, Column) -> real)
    returns (r: Outcome)
    requires cache.Valid() && data.Valid()
    requires F.BoutsOk(computedPre) && F.FeaturesOk(computedFeats)
    requires data.preprocessed.Some? ==> F.BoutsOk(data.preprocessed.value)
    requires data.features.Some? ==> F.FeaturesOk(data.features.value)
    modifies cache, data
    ensures cache.Valid() && data.Valid()
    ensures var reload := old(cache.model).None? || old(cache.path) != Some(modelPath);
      var m := if reload then stored else old(cache.model).value;
      var pre := if old(data.preprocessed).None? then computedPre else old(data.preprocessed).value;
      var feats := if old(data.features).None? then computedFeats else old(data.features).value;
      r == PredictFight(m, pre, feats, name1, name2, proba) &&
      cache.model == Some(m) && cache.path == Some(modelPath) &&
      cache.loads == old(cache.loads) + (if reload then 1 else 0) &&
      data.preprocessed == Some(pre) && data.features == Some(feats) &&
      data.preprocessRuns == old(data.preprocessRuns) + (if old(data.preprocessed).None? then 1 else 0) &&
      data.featureRuns == old(data.featureRuns) + (if old(data.features).None? then 1 else 0)
  {
    var m := cache.GetModel(modelPath, stored);
    var pre := data.GetPreprocessed(computedPre);
    var feats := data.GetFeatures(computedFeats);
    r := PredictWith(m, pre, feats, name1, name2, proba);
  }

  /** Two predictions in a row against the same model path: the second one
      loads nothing and computes no table, and it reads the same model and
      tables as the first, so a repeated query gives the same outcome. */
  method PredictTwice(cache: ModelCache, data: F.DataCache, modelPath: string, stored: Model,
                      computedPre: F.Table, computedFeats: F.Table, name1: string, name2: string,
                      proba: (Model, Column) -> real)
    returns (r1: Outcome, r2: Outcome)
    requires cache.Valid() && data.Valid()
    requires F.BoutsOk(computedPre) && F.FeaturesOk(computedFeats)
    requires data.preprocessed.Some? ==> F.BoutsOk(data.preprocessed.value)
    requires data.features.Some? ==> F.FeaturesOk(data.features.value)
    modifies cache, data
    ensures cache.Valid() && data.Valid() && r2 == r1
    ensures cache.loads <= old(cache.loads) + 1
    ensures data.preprocessRuns == 1 && data.featureRuns == 1
  {
    r1 := ServePrediction(cache, data, modelPath, stored, computedPre, computedFeats, name1, name2, proba);
    ghost var loads := cache.loads;
    r2 := ServePrediction(cache, data, modelPath, stored, computedPre, computedFeats, name1, name2, proba);
    assert cache.loads == loads;
  }

  /** Lines 30-85 on the loaded model and tables. */
  method PredictWith(m: Model, pre: F.Table, feats: F.Table, name1: string, name2: string,
                     proba: (Model, Column) -> real)
    returns (r: Outcome)
    requires F.BoutsOk(pre) && F.FeaturesOk(feats)
    ensures r == PredictFight(m, pre, feats, name1, name2, proba)
  {
    var l1 := F.FighterFeatures(pre, feats, name1);
    if l1.NotFound? {
      return FighterNotFound(name1);
    } else if l1.NoFeatureRow? {
      return NoFeatureRow;
    }
    var l2 := F.FighterFeatures(pre, feats, name2);
    if l2.NotFound? {
      return FighterNotFound(name2);
    } else if l2.NoFeatureRow? {
      return NoFeatureRow;
    }
    var j := ReferenceRow(pre, feats, name1);
    if j.None? {
      return NoFeatureRow;
    }
    PredictFightFound(m, pre, feats, name1, name2, proba, l1.features, l2.features, j.value);
    r := ScoreRow(m, feats, name1, name2, proba, l1.features, l2.features, j.value);
  }

  /** Lines 34-85 once both fighters and the reference row are found. */
  method ScoreRow(m: Model, feats: F.Table, name1: string, name2: string,
                  proba: (Model, Column) -> real, f1: seq<F.Entry>, f2: seq<F.Entry>, j: nat)
    returns (r: Outcome)
    requires F.FeaturesOk(feats) && j < feats.rows
    ensures r == Score(m, feats, name1, name2, proba, f1, f2, j)
  {
    var names := FeatureNames(m, feats);
    var d := AssembleRow(f1, f2, F.RowSeries(feats, j), names);
    var row := SelectRow(d, names);
    assert row == ModelInput(m, feats, f1, f2, j);
    var values := AsFloat(row);
    if values.None? {
      return NotNumeric;
    }
    var p := proba(m, values.value);
    r := Predicted(Prediction(name1, name2, p, 1.0 - p, Winner(name1, name2, p)));
  }

  /** Once both fighters and the reference row are found, the outcome is the
      score of the assembled row. */
  lemma PredictFightFound(m: Model, pre: F.Table, feats: F.Table, name1: string, name2: string,
                          proba: (Model, Column) -> real, f1: seq<F.Entry>, f2: seq<F.Entry>, j: nat)
    requires F.BoutsOk(pre) && F.FeaturesOk(feats)
    requires F.FighterFeatures(pre, feats, name1) == F.Found(f1)
    requires F.FighterFeatures(pre, feats, name2) == F.Found(f2)
    requires ReferenceRow(pre, feats, name1) == Some(j)
    ensures j < feats.rows
    ensures PredictFight(m, pre, feats, name1, name2, proba) == Score(m, feats, name1, name2, proba, f1, f2, j)
  {
  }

  /** Lines 43-48: the first feature row dated as the fighter's latest bout. */
  function ReferenceRow(pre: F.Table, feats: F.Table, name: string): (r: Option<nat>)
    requires F.BoutsOk(pre) && F.FeaturesOk(feats)
    ensures r.Some? ==> r.value < feats.rows
  {
    match F.LatestFight(pre, name)
    case None => None
    case Some(latest) => F.FirstWithDate(feats.cols["DATE"], pre.cols["DATE"][latest])
  }

  /** Lines 34-74: the row handed to the model. */
  function ModelInput(m: Model, feats: F.Table, f1: seq<F.Entry>, f2: seq<F.Entry>, j: nat): (r: Column)
    requires F.FeaturesOk(feats) && j < feats.rows
    ensures |r| == |FeatureNames(m, feats)|
  {
    var names := FeatureNames(m, feats);
    SelectRow(Assembled(f1, f2, F.RowSeries(feats, j), names), names)
  }

  /** The two probabilities sum to 1, and fighter 1 wins exactly when its
      probability exceeds one half, so a toss-up goes to fighter 2. */
  lemma WinnerRule(m: Model, pre: F.Table, feats: F.Table, name1: string, name2: string,
                   proba: (Model, Column) -> real)
    requires F.BoutsOk(pre) && F.FeaturesOk(feats)
    requires PredictFight(m, pre, feats, name1, name2, proba).Predicted?
    ensures var p := PredictFight(m, pre, feats, name1, name2, proba).prediction;
      p.fighter1 == name1 && p.fighter2 == name2 && p.p1 + p.p2 == 1.0 &&
      (p.p1 > 0.5 ==> p.winner == name1) && (p.p1 <= 0.5 ==> p.winner == name2)
  {
  }

  /** The prediction fails with fighter 1 not found exactly when fighter 1
      is in no bout; fighter 1 is checked first. */
  lemma FirstNotFound(m: Model, pre: F.Table, feats: F.Table, name1: string, name2: string,
                      proba: (Model, Column) -> real)
    requires F.BoutsOk(pre) && F.FeaturesOk(feats)
    ensures PredictFight(m, pre, feats, name1, name2, proba) == FighterNotFound(name1) <==>
      !F.FighterExists(pre.cols["fighter1_name"], pre.cols["fighter2_name"], name1)
  {
    var r := PredictFight(m, pre, feats, name1, name2, proba);
    F.NotFoundIff(pre, feats, name1);
    if F.FighterFeatures(pre, feats, name1).Found? {
      SecondChecked(m, pre, feats, name1, name2, proba);
      if r.FighterNotFound? {
        assert r == FighterNotFound(name2);
      }
    }
  }

  /** Once fighter 1's features are found, the prediction fails with
      not-found exactly when fighter 2 is in no bout. */
  lemma SecondNotFound(m: Model, pre: F.Table, feats: F.Table, name1: string, name2: string,
                       proba: (Model, Column) -> real)
    requires F.BoutsOk(pre) && F.FeaturesOk(feats)
    requires F.FighterFeatures(pre, feats, name1).Found?
    ensures PredictFight(m, pre, feats, name1, name2, proba).FighterNotFound? <==>
      !F.FighterExists(pre.cols["fighter1_name"], pre.cols["fighter2_name"], name2)
  {
    SecondChecked(m, pre, feats, name1, name2, proba);
    F.NotFoundIff(pre, feats, name2);
  }

  /** Two equal names are not rejected: once the fighter is found, the
      prediction never reports not-found. */
  lemma SameNameAccepted(m: Model, pre: F.Table, feats: F.Table, name: string,
                         proba: (Model, Column) -> real)
    requires F.BoutsOk(pre) && F.FeaturesOk(feats)
    requires F.FighterFeatures(pre, feats, name).Found?
    ensures !PredictFight(m, pre, feats, name, name, proba).FighterNotFound?
  {
    SecondChecked(m, pre, feats, name, name, proba);
  }

  /** With fighter 1 found, the outcome is decided by fighter 2's lookup first. */
  lemma SecondChecked(m: Model, pre: F.Table, feats: F.Table, name1: string, name2: string,
                      proba: (Model, Column) -> real)
    requires F.BoutsOk(pre) && F.FeaturesOk(feats)
    requires F.FighterFeatures(pre, feats, name1).Found?
    ensures var r := PredictFight(m, pre, feats, name1, name2, proba);
      (r.FighterNotFound? <==> F.FighterFeatures(pre, feats, name2) == F.NotFound) &&
      (r.FighterNotFound? ==> r.name == name2)
  {
    var r := PredictFight(m, pre, feats, name1, name2, proba);
    var f1 := F.FighterFeatures(pre, feats, name1).features;
    match F.FighterFeatures(pre, feats, name2)
    case NotFound =>
      assert r == FighterNotFound(name2);
    case NoFeatureRow =>
      assert r == NoFeatureRow;
    case Found(f2) =>
      var j := ReferenceRow(pre, feats, name1);
      if j.Some? {
        assert r == Score(m, feats, name1, name2, proba, f1, f2, j.value);
      }
  }

  /** When a prediction is made, the model saw exactly its expected columns in
      order, built from the two fighters' features and the reference row of
      fighter 1, which is the feature row fighter 1's own lookup used. */
  lemma PredictedRow(m: Model, pre: F.Table, feats: F.Table, name1: string, name2: string,
                     proba: (Model, Column) -> real)
    requires F.BoutsOk(pre) && F.FeaturesOk(feats)
    requires PredictFight(m, pre, feats, name1, name2, proba).Predicted?
    ensures F.FighterFeatures(pre, feats, name1).Found? && F.FighterFeatures(pre, feats, name2).Found?
    ensures ReferenceRow(pre, feats, name1).Some?
    ensures var row := ModelInput(m, feats, F.FighterFeatures(pre, feats, name1).features,
        F.FighterFeatures(pre, feats, name2).features, ReferenceRow(pre, feats, name1).value);
      AsFloat(row).Some? &&
      PredictFight(m, pre, feats, name1, name2, proba).prediction.p1 == proba(m, AsFloat(row).value) &&
      |row| == |FeatureNames(m, feats)|
  {
  }
}
