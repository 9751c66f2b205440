/** The historical features: decoded outcomes, shifted rolling win rates,
    recent statistic averages, how each fighter won, shifted rolling finish
    rates over the last five fights, and the default fills. */
module Historical {
  import opened Cells
  import opened Text
  import opened Frames
  import opened Groups
  import opened Helpers
  import P = Preprocessor
  import O = Order

  // ---------------------------------------------------------------------------
  // Outcomes (lines 12 and 22)

  /** The OUTCOME code of a win for slot n ("W/L" means fighter 1 won). */
  function WinCode(n: nat): string
  {
    if n == 1 then "W/L" else "L/W"
  }

  /** The OUTCOME code of a loss for slot n. */
  function LossCode(n: nat): string
  {
    if n == 1 then "L/W" else "W/L"
  }

  /** Slot n's result: 1 for its win, 0 for its loss, missing for anything else
      (a draw, a no contest, a missing outcome). */
  function Won(o: Cell, n: nat): (c: Cell)
    requires n == 1 || n == 2
    ensures c == Num(1.0) <==> o == Text(WinCode(n))
    ensures c == Num(0.0) <==> o == Text(LossCode(n))
    ensures c.Missing? <==> o != Text("W/L") && o != Text("L/W")
  {
    if o == Text(WinCode(n)) then Num(1.0)
    else if o == Text(LossCode(n)) then Num(0.0)
    else Missing
  }

  function WonCol(outcomes: Column, n: nat): (r: Column)
    requires n == 1 || n == 2
    ensures |r| == |outcomes|
    ensures forall i :: 0 <= i < |outcomes| ==> r[i] == Won(outcomes[i], n)
  {
    seq(|outcomes|, i requires 0 <= i < |outcomes| => Won(outcomes[i], n))
  }

  /** The two slots' results mirror each other: both are defined or neither is,
      and defined ones sum to 1. */
  lemma WonMirror(o: Cell)
    ensures Won(o, 1).Missing? <==> Won(o, 2).Missing?
    ensures Won(o, 1).Num? ==> Won(o, 2).Num? && Won(o, 1).x + Won(o, 2).x == 1.0
  {
  }

  /** Results are 0 or 1. */
  lemma WonFlags(outcomes: Column, n: nat)
    requires n == 1 || n == 2
    ensures NumsIn(WonCol(outcomes, n), 0.0, 1.0)
  {
  }

  // ---------------------------------------------------------------------------
  // Shift-then-rolling rates (lines 16-30, 111-185)

  /** The window of every rate: the last five fights. */
  const RateWindow: nat := 5

  /** `fighter{n}_win_rate_last_5`: the shifted rolling mean of the results,
      0.5 where no earlier result is defined. */
  function WinRate(keys: Column, won: Column): (r: Column)
    requires |keys| == |won|
    ensures |r| == |keys|
  {
    FillCol(History(keys, won, Rolling(RateWindow)), Num(0.5))
  }

  /** The win rate at row i is the mean of the defined results among the five
      same-slot fights before row i, or 0.5 when none is defined. */
  lemma WinRateAt(keys: Column, outcomes: Column, n: nat, i: nat)
    requires n == 1 || n == 2
    requires |keys| == |outcomes| && i < |keys|
    ensures var w := Mean(LastK(Pick(WonCol(outcomes, n), Before(keys, i)), RateWindow));
      WinRate(keys, WonCol(outcomes, n))[i] == if keys[i].Missing? || w.Missing? then Num(0.5) else w
  {
    RollingHistoryAt(keys, WonCol(outcomes, n), RateWindow, i);
  }

  /** Picking and taking a window keep the bounds of the values. */
  lemma WindowBounds(v: Column, idx: seq<nat>, k: nat, lo: real, hi: real)
    requires forall j :: 0 <= j < |idx| ==> idx[j] < |v|
    requires NumsIn(v, lo, hi)
    ensures NumsIn(LastK(Pick(v, idx), k), lo, hi)
  {
    var p := Pick(v, idx);
    var w := LastK(p, k);
    forall j | 0 <= j < |w| && w[j].Num?
      ensures lo <= w[j].x <= hi
    {
      assert w[j] == p[|p| - |w| + j];
    }
  }

  /** A rate of 0/1 results is within [0, 1]. */
  lemma WinRateBounds(keys: Column, outcomes: Column, n: nat, i: nat)
    requires n == 1 || n == 2
    requires |keys| == |outcomes| && i < |keys|
    ensures WinRate(keys, WonCol(outcomes, n))[i].Num?
    ensures 0.0 <= WinRate(keys, WonCol(outcomes, n))[i].x <= 1.0
  {
    var won := WonCol(outcomes, n);
    WinRateAt(keys, outcomes, n, i);
    WonFlags(outcomes, n);
    WindowBounds(won, Before(keys, i), RateWindow, 0.0, 1.0);
    MeanBounds(LastK(Pick(won, Before(keys, i)), RateWindow), 0.0, 1.0);
  }

  /** No lookahead: the win rate of row i is the same in any two tables that
      agree on the names up to row i and on the outcomes before row i; the
      outcome of row i itself and every later row are irrelevant. */
  lemma WinRateNoLookahead(keys1: Column, o1: Column, keys2: Column, o2: Column, n: nat, i: nat)
    requires n == 1 || n == 2
    requires |keys1| == |o1| && |keys2| == |o2| && i < |keys1| && i < |keys2|
    requires keys1[..i + 1] == keys2[..i + 1] && o1[..i] == o2[..i]
    ensures WinRate(keys1, WonCol(o1, n))[i] == WinRate(keys2, WonCol(o2, n))[i]
  {
    var w1 := WonCol(o1, n);
    var w2 := WonCol(o2, n);
    forall k | 0 <= k < i
      ensures w1[k] == w2[k]
    {
      assert o1[k] == o1[..i][k] && o2[k] == o2[..i][k];
    }
    assert w1[..i] == w2[..i];
    NoLookahead(keys1, w1, keys2, w2, Rolling(RateWindow), i);
  }

  /** No lookahead for a statistic average: wherever the window mean of row i
      is defined, statistics of row i and of later rows do not affect it. Rows
      without any earlier value take the column mean, a whole-column figure. */
  lemma AverageNoLookahead(keys1: Column, v1: Column, keys2: Column, v2: Column, window: nat, i: nat)
    requires |keys1| == |v1| && |keys2| == |v2| && i < |keys1| && i < |keys2|
    requires keys1[..i + 1] == keys2[..i + 1] && v1[..i] == v2[..i]
    requires History(keys1, v1, Rolling(window))[i] != Missing
    ensures HistoricalAvg(keys1, v1, window)[i] == HistoricalAvg(keys2, v2, window)[i]
    ensures HistoricalAvg(keys1, v1, window)[i] == History(keys1, v1, Rolling(window))[i]
  {
    NoLookahead(keys1, v1, keys2, v2, Rolling(window), i);
  }

  // ---------------------------------------------------------------------------
  // How a bout was won (lines 78-108)

  /** `pd.to_numeric(ROUND, errors='coerce')`: numbers stay, integer text is
      parsed, anything else is missing. */
  function RoundNumeric(c: Cell): (r: Cell)
    ensures r == Missing || r.Num?
    ensures c.Num? ==> r == c
  {
    match c
    case Num(_) => c
    case Text(s) => (match ParseInt(s) case Some(v) => Num(v as real) case None => Missing)
    case _ => Missing
  }

  function RoundCol(rounds: Column): (r: Column)
    ensures |r| == |rounds|
    ensures forall i :: 0 <= i < |rounds| ==> r[i] == RoundNumeric(rounds[i])
  {
    seq(|rounds|, i requires 0 <= i < |rounds| => RoundNumeric(rounds[i]))
  }

  /** `parse_time_seconds` of one TIME cell. A number or date renders as text
      without exactly two ":" parts and so reads as 0. */
  function TimeSeconds(c: Cell): P.Parsed<int>
  {
    match c
    case Missing => P.ParseTimeSeconds(None)
    case Text(s) => P.ParseTimeSeconds(Some(s))
    case _ => P.Ok(0)
  }

  /** `TIME.apply(parse_time_seconds)`; it raises (None) where some cell holds
      a part that is not an integer. */
  function TimeCol(times: Column): (r: Option<Column>)
    ensures r.Some? <==> forall i :: 0 <= i < |times| ==> TimeSeconds(times[i]).Ok?
    ensures r.Some? ==> |r.value| == |times|
    ensures r.Some? ==> forall i :: 0 <= i < |times| ==> r.value[i] == Num(TimeSeconds(times[i]).value as real)
  {
    if forall i :: 0 <= i < |times| ==> TimeSeconds(times[i]).Ok? then
      Some(seq(|times|, i requires 0 <= i < |times| =>
        match TimeSeconds(times[i]) case Ok(v) => Num(v as real) case ValueError => Missing))
    else None
  }

  /** A category as the text the pipeline stores. */
  function CategoryCell(c: Option<MethodCategory>): Cell
  {
    match c
    case Some(KoTko) => Text("KO/TKO")
    case Some(Submission) => Text("Submission")
    case Some(Decision) => Text("Decision")
    case None => Missing
  }

  /** `fighter{n}_win_method`: the method's category on slot n's wins, missing elsewhere. */
  function WinMethodCol(outcomes: Column, methods: Column, n: nat): (r: Column)
    requires |outcomes| == |methods|
    ensures |r| == |outcomes|
    ensures forall i :: 0 <= i < |outcomes| ==>
      r[i] == if outcomes[i] == Text(WinCode(n)) then CategoryCell(CategorizeMethod(methods[i])) else Missing
  {
    seq(|outcomes|, i requires 0 <= i < |outcomes| =>
      if outcomes[i] == Text(WinCode(n)) then CategoryCell(CategorizeMethod(methods[i])) else Missing)
  }

  /** `fighter{n}_win_round` and `fighter{n}_win_time_sec`: the value on slot
      n's wins, missing elsewhere. */
  function WhenWon(outcomes: Column, vals: Column, n: nat): (r: Column)
    requires |outcomes| == |vals|
    ensures |r| == |outcomes|
    ensures forall i :: 0 <= i < |outcomes| ==>
      r[i] == if outcomes[i] == Text(WinCode(n)) then vals[i] else Missing
  {
    seq(|outcomes|, i requires 0 <= i < |outcomes| =>
      if outcomes[i] == Text(WinCode(n)) then vals[i] else Missing)
  }

  /** An indicator over the win-method column: 1 when the category is one of
      `hits`, 0 for any other category, missing where no category is stored. */
  function IndicatorCol(m: Column, hits: seq<string>): (r: Column)
    ensures |r| == |m|
    ensures forall i :: 0 <= i < |m| ==> r[i] == Hit(m[i], hits)
    ensures forall i :: 0 <= i < |m| ==>
      (r[i] == Num(1.0) <==> m[i].Text? && m[i].s in hits) &&
      (r[i] == Num(0.0) <==> m[i] != Missing && !(m[i].Text? && m[i].s in hits)) &&
      (r[i] == Missing <==> m[i] == Missing)
  {
    seq(|m|, i requires 0 <= i < |m| => Hit(m[i], hits))
  }

  /** The indicator of one stored category. */
  function Hit(c: Cell, hits: seq<string>): Cell
  {
    if c.Text? && c.s in hits then Num(1.0)
    else if c != Missing then Num(0.0)
    else Missing
  }

  /** The four indicators of one category: all missing without a category,
      otherwise exactly one of KO, submission and decision is set and finish
      is KO or submission. */
  lemma CategoryHits(c: Option<MethodCategory>)
    ensures var x := CategoryCell(c);
      var fin, ko, sub, dec := Hit(x, FinishHits), Hit(x, KoHits), Hit(x, SubHits), Hit(x, DecisionHits);
      (c.None? ==> fin == Missing && ko == Missing && sub == Missing && dec == Missing) &&
      (c.Some? ==>
        fin.Num? && ko.Num? && sub.Num? && dec.Num? &&
        (ko == Num(1.0) <==> c == Some(KoTko)) &&
        (sub == Num(1.0) <==> c == Some(Submission)) &&
        (dec == Num(1.0) <==> c == Some(Decision)) &&
        ko.x + sub.x + dec.x == 1.0 &&
        fin.x == ko.x + sub.x && dec.x == 1.0 - fin.x)
  {
    match c
    case None =>
    case Some(KoTko) =>
      assert "KO/TKO" in FinishHits && "KO/TKO" in KoHits;
      assert "KO/TKO" !in SubHits && "KO/TKO" !in DecisionHits;
    case Some(Submission) =>
      assert "Submission" in FinishHits && "Submission" in SubHits;
      assert "Submission" !in KoHits && "Submission" !in DecisionHits;
    case Some(Decision) =>
      assert "Decision" in DecisionHits;
      assert "Decision" !in FinishHits && "Decision" !in KoHits && "Decision" !in SubHits;
  }

  const FinishHits: seq<string> := ["KO/TKO", "Submission"]
  const KoHits: seq<string> := ["KO/TKO"]
  const SubHits: seq<string> := ["Submission"]
  const DecisionHits: seq<string> := ["Decision"]

  /** `fighter{n}_win_early`: 1 when the win round is at most 2, 0 for a later
      round, missing where there is no win round. */
  function EarlyCol(rounds: Column): (r: Column)
    ensures |r| == |rounds|
    ensures forall i :: 0 <= i < |rounds| ==> (r[i] == Num(1.0) <==> rounds[i].Num? && rounds[i].x <= 2.0)
    ensures forall i :: 0 <= i < |rounds| ==> (r[i] == Num(0.0) <==> rounds[i].Num? && rounds[i].x > 2.0)
    ensures forall i :: 0 <= i < |rounds| ==> (r[i].Missing? <==> !rounds[i].Num?)
  {
    seq(|rounds|, i requires 0 <= i < |rounds| =>
      if rounds[i].Num? then Flag(rounds[i].x <= 2.0) else Missing)
  }

  /** The finish indicators of one row. On a win with a categorised method
      exactly one of KO, submission and decision is 1, finish is KO plus
      submission and decision is 1 minus finish; on any other row (a loss, a
      draw, an uncategorised method) all four are missing. */
  lemma IndicatorsAt(outcomes: Column, methods: Column, n: nat, i: nat)
    requires |outcomes| == |methods| && i < |outcomes|
    ensures var m := WinMethodCol(outcomes, methods, n);
      var cat := CategorizeMethod(methods[i]);
      var fin := IndicatorCol(m, FinishHits)[i];
      var ko := IndicatorCol(m, KoHits)[i];
      var sub := IndicatorCol(m, SubHits)[i];
      var dec := IndicatorCol(m, DecisionHits)[i];
      (outcomes[i] != Text(WinCode(n)) || cat.None? ==>
        fin == Missing && ko == Missing && sub == Missing && dec == Missing) &&
      (outcomes[i] == Text(WinCode(n)) && cat.Some? ==>
        fin.Num? && ko.Num? && sub.Num? && dec.Num? &&
        (ko == Num(1.0) <==> cat == Some(KoTko)) &&
        (sub == Num(1.0) <==> cat == Some(Submission)) &&
        (dec == Num(1.0) <==> cat == Some(Decision)) &&
        ko.x + sub.x + dec.x == 1.0 &&
        fin.x == ko.x + sub.x && dec.x == 1.0 - fin.x)
  {
    var m := WinMethodCol(outcomes, methods, n);
    if outcomes[i] == Text(WinCode(n)) {
      assert m[i] == CategoryCell(CategorizeMethod(methods[i]));
      CategoryHits(CategorizeMethod(methods[i]));
    } else {
      assert m[i] == Missing;
    }
  }

  /** The early indicator is defined only on wins with a known round, and is 1
      exactly on those decided in round 1 or 2. */
  lemma EarlyAt(outcomes: Column, rounds: Column, n: nat, i: nat)
    requires |outcomes| == |rounds| && i < |outcomes|
    ensures var e := EarlyCol(WhenWon(outcomes, RoundCol(rounds), n))[i];
      (e == Num(1.0) <==> outcomes[i] == Text(WinCode(n)) && RoundNumeric(rounds[i]).Num? && RoundNumeric(rounds[i]).x <= 2.0) &&
      (e != Missing ==> outcomes[i] == Text(WinCode(n)))
  {
  }

  /** The rates average only winning bouts: a finish-type rate at row i is the
      mean over the last five same-slot fights before row i, and every fight
      that contributes a defined value is one slot n won. */
  lemma RateCountsWins(keys: Column, outcomes: Column, methods: Column, n: nat, hits: seq<string>, i: nat)
    requires |keys| == |outcomes| == |methods| && i < |keys|
    ensures var ind := IndicatorCol(WinMethodCol(outcomes, methods, n), hits);
      History(keys, ind, Rolling(RateWindow))[i] ==
        (if keys[i].Missing? then Missing else Mean(LastK(Pick(ind, Before(keys, i)), RateWindow))) &&
      forall j :: 0 <= j < |keys| && ind[j] != Missing ==> outcomes[j] == Text(WinCode(n))
  {
    var ind := IndicatorCol(WinMethodCol(outcomes, methods, n), hits);
    RollingHistoryAt(keys, ind, RateWindow, i);
  }

  // ---------------------------------------------------------------------------
  // Default fills (lines 188-194)

  /** The fill of an average column that is entirely missing. */
  function AvgDefault(name: string): real
  {
    if Contains(name, "round") then 2.5 else 180.0
  }

  /** The RATE_COLS loop: each listed column present is filled with 0. */
  function FillRates(cols: map<string, Column>, names: seq<string>): (r: map<string, Column>)
    ensures r.Keys == cols.Keys
    ensures forall c :: c in cols ==> |r[c]| == |cols[c]|
    decreases |names|
  {
    if names == [] then cols
    else
      var prev := FillRates(cols, names[..|names| - 1]);
      var c := names[|names| - 1];
      if c in prev then prev[c := FillCol(prev[c], Num(0.0))] else prev
  }

  /** The AVG_COLS loop: each listed column present is filled with its median,
      or with its default when it holds no number. */
  function FillAvgs(cols: map<string, Column>, names: seq<string>): (r: map<string, Column>)
    ensures r.Keys == cols.Keys
    ensures forall c :: c in cols ==> |r[c]| == |cols[c]|
    decreases |names|
  {
    if names == [] then cols
    else
      var prev := FillAvgs(cols, names[..|names| - 1]);
      var c := names[|names| - 1];
      if c in prev then prev[c := AvgFill(prev[c], c)] else prev
  }

  /** One more listed name fills one more column, when it is present. */
  lemma FillAvgsStep(cols: map<string, Column>, names: seq<string>, k: nat)
    requires k < |names|
    ensures var prev := FillAvgs(cols, names[..k]);
      FillAvgs(cols, names[..k + 1]) ==
        if names[k] in prev then prev[names[k] := AvgFill(prev[names[k]], names[k])] else prev
  {
    assert names[..k + 1][..k] == names[..k];
  }

  function AvgFill(col: Column, name: string): (r: Column)
    ensures |r| == |col|
  {
    FillCol(col, Num(O.MedianOr(col, AvgDefault(name))))
  }

  predicate NoMissing(col: Column)
  {
    forall i :: 0 <= i < |col| ==> col[i] != Missing
  }

  lemma FillNoMissing(col: Column, v: Cell)
    requires NoMissing(col)
    ensures FillCol(col, v) == col
  {
  }

  /** After the RATE_COLS loop every listed column holds its old values where
      they were defined and 0 elsewhere; a name listed twice is filled once, in
      effect, and other columns are unchanged. */
  lemma {:induction false} FillRatesAt(cols: map<string, Column>, names: seq<string>)
    ensures forall c :: c in cols && c !in names ==> FillRates(cols, names)[c] == cols[c]
    ensures forall c :: c in cols && c in names ==> FillRates(cols, names)[c] == FillCol(cols[c], Num(0.0))
    decreases |names|
  {
    if names != [] {
      var init := names[..|names| - 1];
      FillRatesAt(cols, init);
      var c := names[|names| - 1];
      assert forall d :: d in names <==> d in init || d == c;
      if c in cols && c in init {
        FillNoMissing(FillCol(cols[c], Num(0.0)), Num(0.0));
      }
    }
  }

  /** After the AVG_COLS loop every listed column holds its old values where they
      were defined and, elsewhere, the median of its defined values (2.5 or 180
      when there are none); other columns are unchanged. */
  lemma {:induction false} FillAvgsAt(cols: map<string, Column>, names: seq<string>)
    ensures forall c :: c in cols && c !in names ==> FillAvgs(cols, names)[c] == cols[c]
    ensures forall c :: c in cols && c in names ==> FillAvgs(cols, names)[c] == AvgFill(cols[c], c)
    decreases |names|
  {
    if names != [] {
      var init := names[..|names| - 1];
      FillAvgsAt(cols, init);
      var c := names[|names| - 1];
      assert forall d :: d in names <==> d in init || d == c;
      if c in cols && c in init {
        var once := AvgFill(cols[c], c);
        FillNoMissing(once, Num(O.MedianOr(once, AvgDefault(c))));
      }
    }
  }

  /** An average column is left without gaps, keeps its defined values, and
      takes the median where one exists. */
  lemma AvgFillAt(col: Column, name: string, i: nat)
    requires i < |col|
    ensures AvgFill(col, name)[i] != Missing
    ensures col[i] != Missing ==> AvgFill(col, name)[i] == col[i]
    ensures col[i] == Missing && O.Median(col).Num? ==> AvgFill(col, name)[i] == O.Median(col)
    ensures col[i] == Missing && O.Median(col).Missing? ==>
      AvgFill(col, name)[i] == Num(if Contains(name, "round") then 2.5 else 180.0)
  {
  }

  // ---------------------------------------------------------------------------
  // The stage as a whole

  /** The eleven statistics whose three-fight averages line 70 computes. */
  const HistoricalStats: seq<string> := [
    "total_strikes_landed", "ground_landed", "KD", "head_landed",
    "body_landed", "leg_landed", "distance_landed", "clinch_landed",
    "takedowns_landed", "SUB.ATT", "REV."]

  predicate SlotsReady(cols: map<string, Column>, stats: seq<string>)
  {
    SlotName(1, "name") in cols && SlotName(2, "name") in cols &&
    forall s :: s in stats ==> SlotName(1, s) in cols && SlotName(2, s) in cols
  }

  /** The columns the stage reads. */
  predicate HistoricalReady(cols: map<string, Column>, rows: nat)
  {
    DetailsReady(cols, rows) &&
    SlotsReady(cols, ["sig_strikes_landed"]) && SlotsReady(cols, ["control_time_sec"]) &&
    SlotsReady(cols, HistoricalStats)
  }

  /** The columns the stage reads stay in place as columns are added. */
  lemma ReadyAfter(cols: map<string, Column>, r: map<string, Column>, rows: nat)
    requires HistoricalReady(cols, rows) && Shaped(r, rows) && cols.Keys <= r.Keys
    ensures HistoricalReady(r, rows)
  {
  }

  /** One shift-then-rolling rate: `fighter{n}_{ind}_shifted` and `fighter{n}_{out}`. */
  function RateStep(cols: map<string, Column>, rows: nat, n: nat, ind: string, out: string): (r: map<string, Column>)
    requires Shaped(cols, rows) && SlotName(n, "name") in cols && SlotName(n, ind) in cols
    ensures Shaped(r, rows) && cols.Keys <= r.Keys
    ensures forall c :: c in cols && !StartsWith(c, "fighter") ==> r[c] == cols[c]
  {
    var keys := cols[SlotName(n, "name")];
    var shifted := GroupApply(keys, cols[SlotName(n, ind)], Shift);
    cols[SlotName(n, ind + "_shifted") := shifted][SlotName(n, out) := GroupApply(keys, shifted, Rolling(RateWindow))]
  }

  /** Lines 12-30. */
  function OutcomeFeatures(cols: map<string, Column>, rows: nat): (r: map<string, Column>)
    requires HistoricalReady(cols, rows)
    ensures HistoricalReady(r, rows) && cols.Keys <= r.Keys
    ensures forall c :: c in cols && !StartsWith(c, "fighter") ==> r[c] == cols[c]
  {
    var o := cols["OUTCOME"];
    var s1 := cols[SlotName(1, "won") := WonCol(o, 1)];
    ShapedSet(cols, rows, SlotName(1, "won"), WonCol(o, 1));
    var c1 := RateStep(s1, rows, 1, "won", "win_rate_last_5");
    var s2 := c1[SlotName(2, "won") := WonCol(o, 2)];
    ShapedSet(c1, rows, SlotName(2, "won"), WonCol(o, 2));
    var c2 := RateStep(s2, rows, 2, "won", "win_rate_last_5");
    var r1 := SlotName(1, "win_rate_last_5");
    var r2 := SlotName(2, "win_rate_last_5");
    var c3 := c2[r1 := FillCol(c2[r1], Num(0.5))];
    ShapedSet(c2, rows, r1, FillCol(c2[r1], Num(0.5)));
    var c4 := c3[r2 := FillCol(c3[r2], Num(0.5))];
    ShapedSet(c3, rows, r2, FillCol(c3[r2], Num(0.5)));
    ReadyAfter(cols, c4, rows);
    c4
  }

  /** The columns lines 12-30 leave for slot n: its results, and its win rate
      as WinRate computes it, so that WinRateAt and WinRateNoLookahead speak of
      the column the stage writes. */
  lemma OutcomeColumns(cols: map<string, Column>, rows: nat, n: nat)
    requires HistoricalReady(cols, rows) && (n == 1 || n == 2)
    ensures var r := OutcomeFeatures(cols, rows);
      var won := WonCol(cols["OUTCOME"], n);
      r[SlotName(n, "won")] == won &&
      r[SlotName(n, "win_rate_last_5")] == WinRate(cols[SlotName(n, "name")], won)
  {
    var o := cols["OUTCOME"];
    var w1, w2 := SlotName(1, "won"), SlotName(2, "won");
    var s1 := cols[w1 := WonCol(o, 1)];
    ShapedSet(cols, rows, w1, WonCol(o, 1));
    var c1 := RateStep(s1, rows, 1, "won", "win_rate_last_5");
    var s2 := c1[w2 := WonCol(o, 2)];
    ShapedSet(c1, rows, w2, WonCol(o, 2));
    if n == 1 {
      FirstOutcomes(cols, rows, s1, c1);
      SecondKeepsFirst(c1, rows, s2, WonCol(o, 2));
    } else {
      FirstKeepsSecondName(cols, rows, s1, c1);
      SecondOutcomes(c1, rows, s2, WonCol(o, 2));
    }
  }

  /** Lines 12-19 for slot 1. */
  lemma FirstOutcomes(cols: map<string, Column>, rows: nat, s1: map<string, Column>, c1: map<string, Column>)
    requires HistoricalReady(cols, rows)
    requires s1 == cols[SlotName(1, "won") := WonCol(cols["OUTCOME"], 1)] && Shaped(s1, rows)
    requires c1 == RateStep(s1, rows, 1, "won", "win_rate_last_5")
    ensures c1[SlotName(1, "won")] == WonCol(cols["OUTCOME"], 1)
    ensures c1[SlotName(1, "win_rate_last_5")] ==
      History(cols[SlotName(1, "name")], WonCol(cols["OUTCOME"], 1), Rolling(RateWindow))
  {
    WonShiftedName();
    RateStepAt(s1, rows, 1, "won", "win_rate_last_5");
    SlotNameApart(1, "won", 1, "won_shifted");
    SlotNameApart(1, "won", 1, "win_rate_last_5");
    SlotNameApart(1, "name", 1, "won");
  }

  /** Lines 12-19 for slot 1 leave slot 2's names alone. */
  lemma FirstKeepsSecondName(cols: map<string, Column>, rows: nat, s1: map<string, Column>, c1: map<string, Column>)
    requires HistoricalReady(cols, rows)
    requires s1 == cols[SlotName(1, "won") := WonCol(cols["OUTCOME"], 1)] && Shaped(s1, rows)
    requires c1 == RateStep(s1, rows, 1, "won", "win_rate_last_5")
    ensures c1[SlotName(2, "name")] == cols[SlotName(2, "name")]
  {
    WonShiftedName();
    RateStepAt(s1, rows, 1, "won", "win_rate_last_5");
    SlotNameApart(2, "name", 1, "won");
    SlotNameApart(2, "name", 1, "won_shifted");
    SlotNameApart(2, "name", 1, "win_rate_last_5");
  }

  /** Lines 22-30 keep slot 1's results and rate, then fill the rate's gaps with 0.5. */
  lemma SecondKeepsFirst(c1: map<string, Column>, rows: nat, s2: map<string, Column>, won2: Column)
    requires Shaped(c1, rows) && SlotName(2, "name") in c1 && SlotName(1, "won") in c1
    requires SlotName(1, "win_rate_last_5") in c1
    requires s2 == c1[SlotName(2, "won") := won2] && Shaped(s2, rows)
    ensures var c2 := RateStep(s2, rows, 2, "won", "win_rate_last_5");
      var r1, r2 := SlotName(1, "win_rate_last_5"), SlotName(2, "win_rate_last_5");
      var c3 := c2[r1 := FillCol(c2[r1], Num(0.5))];
      var c4 := c3[r2 := FillCol(c3[r2], Num(0.5))];
      c4[SlotName(1, "won")] == c1[SlotName(1, "won")] && c4[r1] == FillCol(c1[r1], Num(0.5))
  {
    WonShiftedName();
    RateStepAt(s2, rows, 2, "won", "win_rate_last_5");
    SlotNameApart(1, "won", 2, "won");
    SlotNameApart(1, "won", 2, "won_shifted");
    SlotNameApart(1, "won", 2, "win_rate_last_5");
    SlotNameApart(1, "won", 1, "win_rate_last_5");
    SlotNameApart(1, "win_rate_last_5", 2, "won");
    SlotNameApart(1, "win_rate_last_5", 2, "won_shifted");
    SlotNameApart(1, "win_rate_last_5", 2, "win_rate_last_5");
  }

  /** Lines 22-30 for slot 2. */
  lemma SecondOutcomes(c1: map<string, Column>, rows: nat, s2: map<string, Column>, won2: Column)
    requires Shaped(c1, rows) && SlotName(2, "name") in c1 && SlotName(1, "win_rate_last_5") in c1
    requires s2 == c1[SlotName(2, "won") := won2] && Shaped(s2, rows)
    ensures var c2 := RateStep(s2, rows, 2, "won", "win_rate_last_5");
      var r1, r2 := SlotName(1, "win_rate_last_5"), SlotName(2, "win_rate_last_5");
      var c3 := c2[r1 := FillCol(c2[r1], Num(0.5))];
      var c4 := c3[r2 := FillCol(c3[r2], Num(0.5))];
      c4[SlotName(2, "won")] == won2 &&
      c4[r2] == FillCol(History(c1[SlotName(2, "name")], won2, Rolling(RateWindow)), Num(0.5))
  {
    WonShiftedName();
    RateStepAt(s2, rows, 2, "won", "win_rate_last_5");
    SlotNameApart(2, "name", 2, "won");
    SlotNameApart(2, "won", 2, "won_shifted");
    SlotNameApart(2, "won", 2, "win_rate_last_5");
    SlotNameApart(2, "won", 1, "win_rate_last_5");
    SlotNameApart(2, "win_rate_last_5", 1, "win_rate_last_5");
  }

  lemma WonShiftedName()
    ensures "won" + "_shifted" == "won_shifted"
  {
  }

  /** One shift-then-rolling rate writes its rate as the shifted rolling mean
      of the indicator and touches only its two columns. */
  lemma RateStepAt(cols: map<string, Column>, rows: nat, n: nat, ind: string, out: string)
    requires Shaped(cols, rows) && SlotName(n, "name") in cols && SlotName(n, ind) in cols
    ensures var r := RateStep(cols, rows, n, ind, out);
      SlotName(n, out) in r && r[SlotName(n, out)] == History(cols[SlotName(n, "name")], cols[SlotName(n, ind)], Rolling(RateWindow)) &&
      forall c :: c in cols && c != SlotName(n, ind + "_shifted") && c != SlotName(n, out) ==> r[c] == cols[c]
  {
  }

  /** One pair of three-fight averages of lines 33-60: both slots' shifted
      rolling means, then both filled with their own column mean. */
  function RecentPair(cols: map<string, Column>, rows: nat, src: string, stat: string): (r: map<string, Column>)
    requires Shaped(cols, rows) && SlotsReady(cols, [src])
    ensures Shaped(r, rows) && cols.Keys <= r.Keys
    ensures forall c :: c in cols && !StartsWith(c, "fighter") ==> r[c] == cols[c]
  {
    var a1 := AvgName(1, stat, 3);
    var a2 := AvgName(2, stat, 3);
    var h1 := History(cols[SlotName(1, "name")], cols[SlotName(1, src)], Rolling(3));
    var h2 := History(cols[SlotName(2, "name")], cols[SlotName(2, src)], Rolling(3));
    cols[a1 := h1][a2 := h2][a1 := FillCol(h1, Mean(h1))][a2 := FillCol(h2, Mean(h2))]
  }

  /** Each slot's average from lines 33-60 is the one HistoricalAvg computes,
      so that RollingHistoryAt, HistoricalAvgAt and AverageNoLookahead speak
      of the column the stage writes. */
  lemma RecentPairColumns(cols: map<string, Column>, rows: nat, src: string, stat: string, n: nat)
    requires Shaped(cols, rows) && SlotsReady(cols, [src]) && (n == 1 || n == 2)
    ensures RecentPair(cols, rows, src, stat)[AvgName(n, stat, 3)] ==
      HistoricalAvg(cols[SlotName(n, "name")], cols[SlotName(n, src)], 3)
  {
    var x := "avg_" + stat + "_last_" + NatStr(3);
    AvgNameIsSlotName(1, stat, 3);
    AvgNameIsSlotName(2, stat, 3);
    SlotNameApart(1, x, 2, x);
  }

  /** One statistic of the loop at lines 70-72, as `calc_historical_avg` writes it. */
  function AvgStep(cols: map<string, Column>, rows: nat, n: nat, stat: string): (r: map<string, Column>)
    requires Shaped(cols, rows) && SlotName(n, "name") in cols && SlotName(n, stat) in cols
    ensures Shaped(r, rows) && cols.Keys <= r.Keys
    ensures forall c :: c in cols && !StartsWith(c, "fighter") ==> r[c] == cols[c]
  {
    cols[AvgName(n, stat, 3) := HistoricalAvg(cols[SlotName(n, "name")], cols[SlotName(n, stat)], 3)]
  }

  /** The loop at lines 70-72 over a prefix of the statistics. */
  function StatAverages(cols: map<string, Column>, rows: nat, stats: seq<string>): (r: map<string, Column>)
    requires Shaped(cols, rows) && SlotsReady(cols, stats)
    ensures Shaped(r, rows) && cols.Keys <= r.Keys
    ensures forall c :: c in cols && !StartsWith(c, "fighter") ==> r[c] == cols[c]
    decreases |stats|
  {
    if stats == [] then cols
    else
      var prev := StatAverages(cols, rows, stats[..|stats| - 1]);
      var s := stats[|stats| - 1];
      AvgStep(AvgStep(prev, rows, 1, s), rows, 2, s)
  }

  lemma SlotsReadyGrow(cols: map<string, Column>, r: map<string, Column>, stats: seq<string>)
    requires SlotsReady(cols, stats) && cols.Keys <= r.Keys
    ensures SlotsReady(r, stats)
  {
  }

  /** One more round of the loop at lines 70-72. */
  lemma StatAveragesStep(cols: map<string, Column>, rows: nat, stats: seq<string>, k: nat)
    requires Shaped(cols, rows) && SlotsReady(cols, stats) && k < |stats|
    ensures SlotsReady(cols, stats[..k]) && SlotsReady(cols, stats[..k + 1])
    ensures var prev := StatAverages(cols, rows, stats[..k]);
      StatAverages(cols, rows, stats[..k + 1]) == AvgStep(AvgStep(prev, rows, 1, stats[k]), rows, 2, stats[k])
  {
    assert stats[..k + 1][..k] == stats[..k];
  }

  /** The columns lines 78-108 read and write. */
  predicate DetailsReady(cols: map<string, Column>, rows: nat)
  {
    Shaped(cols, rows) && "OUTCOME" in cols && "METHOD" in cols && "ROUND" in cols && "TIME" in cols &&
    SlotName(1, "name") in cols && SlotName(2, "name") in cols
  }

  /** Lines 84-108 for slot n. */
  function SlotDetails(cols: map<string, Column>, rows: nat, n: nat): (r: map<string, Column>)
    requires DetailsReady(cols, rows) && "ROUND_numeric" in cols && "TIME_seconds" in cols
    ensures DetailsReady(r, rows) && cols.Keys <= r.Keys
    ensures forall ind :: ind in RateInputs ==> SlotName(n, ind) in r
  {
    var o := cols["OUTCOME"];
    var m := WinMethodCol(o, cols["METHOD"], n);
    var rounds := WhenWon(o, cols["ROUND_numeric"], n);
    var times := WhenWon(o, cols["TIME_seconds"], n);
    var r1 := cols[SlotName(n, "win_method") := m];
    ShapedSet(cols, rows, SlotName(n, "win_method"), m);
    var r2 := r1[SlotName(n, "win_round") := rounds];
    ShapedSet(r1, rows, SlotName(n, "win_round"), rounds);
    var r3 := r2[SlotName(n, "win_time_sec") := times];
    ShapedSet(r2, rows, SlotName(n, "win_time_sec"), times);
    var r4 := r3[SlotName(n, "win_finish") := IndicatorCol(m, FinishHits)];
    ShapedSet(r3, rows, SlotName(n, "win_finish"), IndicatorCol(m, FinishHits));
    var r5 := r4[SlotName(n, "win_ko") := IndicatorCol(m, KoHits)];
    ShapedSet(r4, rows, SlotName(n, "win_ko"), IndicatorCol(m, KoHits));
    var r6 := r5[SlotName(n, "win_sub") := IndicatorCol(m, SubHits)];
    ShapedSet(r5, rows, SlotName(n, "win_sub"), IndicatorCol(m, SubHits));
    var r7 := r6[SlotName(n, "win_decision") := IndicatorCol(m, DecisionHits)];
    ShapedSet(r6, rows, SlotName(n, "win_decision"), IndicatorCol(m, DecisionHits));
    var r := r7[SlotName(n, "win_early") := EarlyCol(rounds)];
    ShapedSet(r7, rows, SlotName(n, "win_early"), EarlyCol(rounds));
    DetailsAfter(cols, r, rows);
    assert forall ind :: ind in RateInputs ==> SlotName(n, ind) in r by {
      forall ind | ind in RateInputs ensures SlotName(n, ind) in r {
        RateInputsCases(ind);
      }
    }
    r
  }

  /** The columns lines 78-108 read stay in place as columns are added. */
  lemma DetailsAfter(cols: map<string, Column>, r: map<string, Column>, rows: nat)
    requires DetailsReady(cols, rows) && Shaped(r, rows) && cols.Keys <= r.Keys
    ensures DetailsReady(r, rows)
  {
  }

  lemma RateInputsCases(ind: string)
    requires ind in RateInputs
    ensures ind == "win_finish" || ind == "win_ko" || ind == "win_sub" || ind == "win_decision" ||
      ind == "win_round" || ind == "win_early" || ind == "win_time_sec"
  {
  }

  /** The columns lines 111-185 read. */
  predicate RatesReady(cols: map<string, Column>, rows: nat)
  {
    Shaped(cols, rows) &&
    SlotName(1, "name") in cols && SlotName(2, "name") in cols &&
    forall ind :: ind in RateInputs ==> SlotName(1, ind) in cols && SlotName(2, ind) in cols
  }

  const RateInputs: seq<string> := ["win_finish", "win_ko", "win_sub", "win_decision", "win_round", "win_early", "win_time_sec"]

  /** Both slots' rate for one indicator. */
  function RatePair(cols: map<string, Column>, rows: nat, ind: string, out: string): (r: map<string, Column>)
    requires RatesReady(cols, rows) && ind in RateInputs
    ensures RatesReady(r, rows) && cols.Keys <= r.Keys
  {
    RateStep(RateStep(cols, rows, 1, ind, out), rows, 2, ind, out)
  }

  /** Lines 111-185. */
  function FinishRates(cols: map<string, Column>, rows: nat): (r: map<string, Column>)
    requires RatesReady(cols, rows)
    ensures Shaped(r, rows) && cols.Keys <= r.Keys
  {
    var c1 := RatePair(cols, rows, "win_finish", "finish_rate_last_5");
    var c2 := RatePair(c1, rows, "win_ko", "ko_rate_last_5");
    var c3 := RatePair(c2, rows, "win_sub", "sub_rate_last_5");
    var c4 := RatePair(c3, rows, "win_decision", "decision_rate_last_5");
    var c5 := RatePair(c4, rows, "win_round", "avg_finish_round_last_5");
    var c6 := RatePair(c5, rows, "win_early", "early_finish_rate_last_5");
    RatePair(c6, rows, "win_time_sec", "avg_finish_time_last_5")
  }

  /** Lines 78-108, given the parsed times. */
  function WinDetails(cols: map<string, Column>, rows: nat, times: Column): (r: map<string, Column>)
    requires DetailsReady(cols, rows) && |times| == rows
    ensures RatesReady(r, rows) && cols.Keys <= r.Keys
  {
    var c0 := cols["ROUND_numeric" := RoundCol(cols["ROUND"])]["TIME_seconds" := times];
    var c1 := SlotDetails(c0, rows, 1);
    SlotDetails(c1, rows, 2)
  }

  /** `create_historical_features` as a function of the table, the parsed
      times and the two fill lists. */
  function HistoricalSpec(cols: map<string, Column>, rows: nat, times: Column,
                          rateCols: seq<string>, avgCols: seq<string>): (r: map<string, Column>)
    requires HistoricalReady(cols, rows) && |times| == rows
  {
    var c5 := WinDetails(RollingStats(cols, rows), rows, times);
    FillAvgs(FillRates(FinishRates(c5, rows), rateCols), avgCols)
  }

  /** Lines 12-72: the rolling outcome rates and statistic averages, which keep TIME. */
  function RollingStats(cols: map<string, Column>, rows: nat): (r: map<string, Column>)
    requires HistoricalReady(cols, rows)
    ensures HistoricalReady(r, rows) && cols.Keys <= r.Keys
    ensures r["TIME"] == cols["TIME"]
  {
    assert !StartsWith("TIME", "fighter");
    var c1 := OutcomeFeatures(cols, rows);
    var c2 := RecentPair(c1, rows, "sig_strikes_landed", "sig_strikes");
    ReadyAfter(c1, c2, rows);
    var c3 := RecentPair(c2, rows, "control_time_sec", "control_time");
    ReadyAfter(c2, c3, rows);
    var c4 := StatAverages(c3, rows, HistoricalStats);
    ReadyAfter(c3, c4, rows);
    c4
  }

  // ---------------------------------------------------------------------------
  // Methods

  /** One shift-then-rolling rate for slot n. */
  method AddRate(f: Frame, n: nat, ind: string, out: string)
    requires f.Valid() && SlotName(n, "name") in f.cols && SlotName(n, ind) in f.cols
    modifies f
    ensures f.Valid() && f.rows == old(f.rows)
    ensures f.cols == RateStep(old(f.cols), old(f.rows), n, ind, out)
  {
    var keys := f.cols[SlotName(n, "name")];
    var shifted := GroupApply(keys, f.cols[SlotName(n, ind)], Shift);
    f.Set(SlotName(n, ind + "_shifted"), shifted);
    f.Set(SlotName(n, out), GroupApply(keys, shifted, Rolling(RateWindow)));
  }

  /** Lines 12-30. */
  method AddOutcomes(f: Frame)
    requires f.Valid() && HistoricalReady(f.cols, f.rows)
    modifies f
    ensures f.Valid() && f.rows == old(f.rows)
    ensures f.cols == OutcomeFeatures(old(f.cols), old(f.rows))
  {
    var o := f.cols["OUTCOME"];
    f.Set(SlotName(1, "won"), WonCol(o, 1));
    AddRate(f, 1, "won", "win_rate_last_5");
    f.Set(SlotName(2, "won"), WonCol(o, 2));
    AddRate(f, 2, "won", "win_rate_last_5");
    var r1 := SlotName(1, "win_rate_last_5");
    var r2 := SlotName(2, "win_rate_last_5");
    f.Set(r1, FillCol(f.cols[r1], Num(0.5)));
    f.Set(r2, FillCol(f.cols[r2], Num(0.5)));
  }

  /** One pair of lines 33-60. */
  method AddRecentPair(f: Frame, src: string, stat: string)
    requires f.Valid() && SlotsReady(f.cols, [src])
    modifies f
    ensures f.Valid() && f.rows == old(f.rows)
    ensures f.cols == RecentPair(old(f.cols), old(f.rows), src, stat)
  {
    var a1 := AvgName(1, stat, 3);
    var a2 := AvgName(2, stat, 3);
    var h1 := History(f.cols[SlotName(1, "name")], f.cols[SlotName(1, src)], Rolling(3));
    var h2 := History(f.cols[SlotName(2, "name")], f.cols[SlotName(2, src)], Rolling(3));
    f.Set(a1, h1);
    f.Set(a2, h2);
    f.Set(a1, FillCol(h1, Mean(h1)));
    f.Set(a2, FillCol(h2, Mean(h2)));
  }

  /** Lines 70-72: `for stat in historical_stats`. */
  method AddStatAverages(f: Frame)
    requires f.Valid() && SlotsReady(f.cols, HistoricalStats)
    modifies f
    ensures f.Valid() && f.rows == old(f.rows)
    ensures f.cols == StatAverages(old(f.cols), old(f.rows), HistoricalStats)
  {
    ghost var start := f.cols;
    var k := 0;
    while k < |HistoricalStats|
      invariant 0 <= k <= |HistoricalStats|
      invariant f.Valid() && f.rows == old(f.rows)
      invariant SlotsReady(start, HistoricalStats[..k])
      invariant f.cols == StatAverages(start, f.rows, HistoricalStats[..k])
      invariant start.Keys <= f.cols.Keys
    {
      var s := HistoricalStats[k];
      SlotsReadyGrow(start, f.cols, HistoricalStats);
      StatAveragesStep(start, f.rows, HistoricalStats, k);
      CalcHistoricalAvg(f, 1, s);
      CalcHistoricalAvg(f, 2, s);
      k := k + 1;
    }
    assert HistoricalStats[..k] == HistoricalStats;
  }

  /** Lines 78-108; `ok` is false where a TIME value does not parse. */
  method AddWinDetails(f: Frame) returns (ok: bool)
    requires f.Valid() && DetailsReady(f.cols, f.rows)
    modifies f
    ensures f.Valid() && f.rows == old(f.rows)
    ensures var times := TimeCol(old(f.cols)["TIME"]);
      ok == times.Some? && (ok ==> f.cols == WinDetails(old(f.cols), old(f.rows), times.value))
  {
    f.Set("ROUND_numeric", RoundCol(f.cols["ROUND"]));
    var times := TimeCol(f.cols["TIME"]);
    if times.None? {
      return false;
    }
    f.Set("TIME_seconds", times.value);
    AddSlotDetails(f, 1);
    AddSlotDetails(f, 2);
    return true;
  }

  /** Lines 84-108 for slot n. */
  method AddSlotDetails(f: Frame, n: nat)
    requires f.Valid() && DetailsReady(f.cols, f.rows) && "ROUND_numeric" in f.cols && "TIME_seconds" in f.cols
    modifies f
    ensures f.Valid() && f.rows == old(f.rows)
    ensures f.cols == SlotDetails(old(f.cols), old(f.rows), n)
  {
    var o := f.cols["OUTCOME"];
    var m := WinMethodCol(o, f.cols["METHOD"], n);
    var rounds := WhenWon(o, f.cols["ROUND_numeric"], n);
    var times := WhenWon(o, f.cols["TIME_seconds"], n);
    f.Set(SlotName(n, "win_method"), m);
    f.Set(SlotName(n, "win_round"), rounds);
    f.Set(SlotName(n, "win_time_sec"), times);
    f.Set(SlotName(n, "win_finish"), IndicatorCol(m, FinishHits));
    f.Set(SlotName(n, "win_ko"), IndicatorCol(m, KoHits));
    f.Set(SlotName(n, "win_sub"), IndicatorCol(m, SubHits));
    f.Set(SlotName(n, "win_decision"), IndicatorCol(m, DecisionHits));
    f.Set(SlotName(n, "win_early"), EarlyCol(rounds));
  }

  /** Both slots' rate for one indicator. */
  method AddRatePair(f: Frame, ind: string, out: string)
    requires f.Valid() && RatesReady(f.cols, f.rows) && ind in RateInputs
    modifies f
    ensures f.Valid() && f.rows == old(f.rows)
    ensures f.cols == RatePair(old(f.cols), old(f.rows), ind, out)
  {
    AddRate(f, 1, ind, out);
    AddRate(f, 2, ind, out);
  }

  /** Lines 111-185. */
  method AddFinishRates(f: Frame)
    requires f.Valid() && RatesReady(f.cols, f.rows)
    modifies f
    ensures f.Valid() && f.rows == old(f.rows)
    ensures f.cols == FinishRates(old(f.cols), old(f.rows))
  {
    AddRatePair(f, "win_finish", "finish_rate_last_5");
    AddRatePair(f, "win_ko", "ko_rate_last_5");
    AddRatePair(f, "win_sub", "sub_rate_last_5");
    AddRatePair(f, "win_decision", "decision_rate_last_5");
    AddRatePair(f, "win_round", "avg_finish_round_last_5");
    AddRatePair(f, "win_early", "early_finish_rate_last_5");
    AddRatePair(f, "win_time_sec", "avg_finish_time_last_5");
  }

  /** Lines 188-194: `for col in RATE_COLS` and `for col in AVG_COLS`. */
  method FillDefaults(f: Frame, rateCols: seq<string>, avgCols: seq<string>)
    requires f.Valid()
    modifies f
    ensures f.Valid() && f.rows == old(f.rows)
    ensures f.cols == FillAvgs(FillRates(old(f.cols), rateCols), avgCols)
  {
    FillRateCols(f, rateCols);
    FillAvgCols(f, avgCols);
  }

  /** Lines 188-190: every listed rate column present gets its NaNs set to 0. */
  method FillRateCols(f: Frame, rateCols: seq<string>)
    requires f.Valid()
    modifies f
    ensures f.Valid() && f.rows == old(f.rows)
    ensures f.cols == FillRates(old(f.cols), rateCols)
  {
    var k := 0;
    while k < |rateCols|
      invariant 0 <= k <= |rateCols|
      invariant f.Valid() && f.rows == old(f.rows)
      invariant f.cols == FillRates(old(f.cols), rateCols[..k])
    {
      assert rateCols[..k + 1][..k] == rateCols[..k];
      var c := rateCols[k];
      if c in f.cols {
        f.Set(c, FillCol(f.cols[c], Num(0.0)));
      }
      k := k + 1;
    }
    assert rateCols[..k] == rateCols;
  }

  /** Lines 192-194: every listed average column present gets its NaNs set to
      its median, or to its default when it holds no number. */
  method FillAvgCols(f: Frame, avgCols: seq<string>)
    requires f.Valid()
    modifies f
    ensures f.Valid() && f.rows == old(f.rows)
    ensures f.cols == FillAvgs(old(f.cols), avgCols)
  {
    var k := 0;
    while k < |avgCols|
      invariant 0 <= k <= |avgCols|
      invariant f.Valid() && f.rows == old(f.rows)
      invariant f.cols == FillAvgs(old(f.cols), avgCols[..k])
    {
      FillAvgsStep(old(f.cols), avgCols, k);
      FillAvgCol(f, avgCols[k]);
      k := k + 1;
    }
    assert avgCols[..k] == avgCols;
  }

  /** Lines 193-194 for one column: filled when present, else nothing changes. */
  method FillAvgCol(f: Frame, c: string)
    requires f.Valid()
    modifies f
    ensures f.Valid() && f.rows == old(f.rows)
    ensures f.cols == if c in old(f.cols) then old(f.cols)[c := AvgFill(old(f.cols)[c], c)] else old(f.cols)
  {
    if c in f.cols {
      f.Set(c, AvgFill(f.cols[c], c));
    }
  }

  /** Lines 12-72: the rolling outcome rates and statistic averages. */
  method AddRollingStats(f: Frame)
    requires f.Valid() && HistoricalReady(f.cols, f.rows)
    modifies f
    ensures f.Valid() && f.rows == old(f.rows)
    ensures f.cols == RollingStats(old(f.cols), old(f.rows))
  {
    AddOutcomes(f);
    ghost var c1 := f.cols;
    AddRecentPair(f, "sig_strikes_landed", "sig_strikes");
    ReadyAfter(c1, f.cols, f.rows);
    ghost var c2 := f.cols;
    AddRecentPair(f, "control_time_sec", "control_time");
    ReadyAfter(c2, f.cols, f.rows);
    AddStatAverages(f);
  }

  /** `create_historical_features(df)`; `ok` is false where parsing TIME raises. */
  method CreateHistoricalFeatures(f: Frame, rateCols: seq<string>, avgCols: seq<string>) returns (ok: bool)
    requires f.Valid() && HistoricalReady(f.cols, f.rows)
    modifies f
    ensures f.Valid() && f.rows == old(f.rows)
    ensures var times := TimeCol(old(f.cols)["TIME"]);
      ok == times.Some? &&
      (ok ==> f.cols == HistoricalSpec(old(f.cols), old(f.rows), times.value, rateCols, avgCols))
  {
    AddRollingStats(f);
    ok := AddWinDetails(f);
    if !ok {
      return;
    }
    AddRatesAndFills(f, rateCols, avgCols);
  }

  /** Lines 111-194: the finish-type rates, then the default fills. */
  method AddRatesAndFills(f: Frame, rateCols: seq<string>, avgCols: seq<string>)
    requires f.Valid() && RatesReady(f.cols, f.rows)
    modifies f
    ensures f.Valid() && f.rows == old(f.rows)
    ensures f.cols == FillAvgs(FillRates(FinishRates(old(f.cols), old(f.rows)), rateCols), avgCols)
  {
    AddFinishRates(f);
    FillDefaults(f, rateCols, avgCols);
  }
}
