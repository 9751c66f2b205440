/** The title-fight features: how many title fights a fighter had before the
    bout, the days since the last one, and whether the fighter comes in as the
    winner of a title fight (the "current champion"). */
module TitleFights {
  import opened Cells
  import opened Frames
  import opened Order
  import opened Groups

  // ---------------------------------------------------------------------------
  // Number of title fights (lines 13-25)

  /** `groupby(name)['is_title_fight'].shift(1)` followed by
      `groupby(name)[...].transform(fillna(0).cumsum())`. */
  function TitleCount(keys: Column, titles: Column): (r: Column)
    requires |keys| == |titles|
    ensures |r| == |keys|
  {
    History(keys, titles, ZeroFilledSum)
  }

  lemma FlagsPick(v: Column, idx: seq<nat>)
    requires forall k :: 0 <= k < |idx| ==> idx[k] < |v|
    requires Flags(v)
    ensures Flags(Pick(v, idx))
  {
  }

  /** With 0/1 title flags the count at row i is the number of earlier
      same-slot bouts that were title fights; it is 0 on a first appearance. */
  lemma TitleCountAt(keys: Column, titles: Column, i: nat)
    requires |keys| == |titles| && i < |keys| && !keys[i].Missing? && Flags(titles)
    ensures TitleCount(keys, titles)[i] == Num(Ones(Pick(titles, Before(keys, i))) as real)
    ensures Before(keys, i) == [] ==> TitleCount(keys, titles)[i] == Num(0.0)
  {
    var t := Pick(titles, Before(keys, i));
    HistoryAt(keys, titles, ZeroFilledSum, i);
    SumAfterShift(t);
    FlagsPick(titles, Before(keys, i));
    SumOfFlags(t);
  }

  /** Along a slot group the count never decreases. */
  lemma TitleCountMonotone(keys: Column, titles: Column, j: nat, i: nat)
    requires |keys| == |titles| && j < i < |keys| && !keys[i].Missing? && keys[j] == keys[i]
    requires Flags(titles)
    ensures TitleCount(keys, titles)[j].Num? && TitleCount(keys, titles)[i].Num?
    ensures TitleCount(keys, titles)[j].x <= TitleCount(keys, titles)[i].x
  {
    HistoryAt(keys, titles, ZeroFilledSum, i);
    HistoryAt(keys, titles, ZeroFilledSum, j);
    SumAfterShift(Pick(titles, Before(keys, i)));
    SumAfterShift(Pick(titles, Before(keys, j)));
    GroupSumMonotone(keys, titles, j, i, 1.0);
  }

  /** `a / (b + 1)`; a zero denominator (pandas' infinity) cannot occur for counts. */
  function RatioCol(a: Column, b: Column): (r: Column)
    requires |a| == |b|
    ensures |r| == |a|
  {
    seq(|a|, i requires 0 <= i < |a| =>
      if a[i].Num? && b[i].Num? && b[i].x + 1.0 != 0.0 then Num(a[i].x / (b[i].x + 1.0)) else Missing)
  }

  /** For non-negative counts the ratio is defined and satisfies
      ratio * (n2 + 1) == n1; it is 0 exactly when n1 is 0. */
  lemma RatioAt(a: Column, b: Column, i: nat)
    requires |a| == |b| && i < |a| && a[i].Num? && b[i].Num? && a[i].x >= 0.0 && b[i].x >= 0.0
    ensures RatioCol(a, b)[i].Num?
    ensures RatioCol(a, b)[i].x * (b[i].x + 1.0) == a[i].x
    ensures 0.0 <= RatioCol(a, b)[i].x <= a[i].x
    ensures RatioCol(a, b)[i].x == 0.0 <==> a[i].x == 0.0
  {
    var q := a[i].x / (b[i].x + 1.0);
    assert q * (b[i].x + 1.0) == a[i].x;
    assert q * 1.0 <= q * (b[i].x + 1.0) by {
      assert q >= 0.0;
    }
  }

  // ---------------------------------------------------------------------------
  // Days since the last title fight (lines 30-61)

  /** `DATE.where(is_title_fight.shift(1) == 1)` within each slot group: a row's
      own date when the previous same-slot bout was a title fight. */
  function TitleDate(keys: Column, dates: Column, titles: Column): (r: Column)
    requires |keys| == |dates| == |titles|
    ensures |r| == |keys|
  {
    var prev := GroupApply(keys, titles, Shift);
    seq(|keys|, i requires 0 <= i < |keys| =>
      if !keys[i].Missing? && prev[i] == Num(1.0) then dates[i] else Missing)
  }

  /** The forward-filled title date. */
  function LastTitleDate(keys: Column, dates: Column, titles: Column): (r: Column)
    requires |keys| == |dates| == |titles|
    ensures |r| == |keys|
  {
    GroupApply(keys, TitleDate(keys, dates, titles), FFill)
  }

  /** `(DATE - last_title_fight_date).dt.days`, then the median fill, or 365. */
  function DaysSinceTitle(keys: Column, dates: Column, titles: Column): (r: Column)
    requires |keys| == |dates| == |titles|
    ensures |r| == |keys|
  {
    var gaps := MinusCol(dates, LastTitleDate(keys, dates, titles));
    FillCol(gaps, Num(MedianOr(gaps, 365.0)))
  }

  /** The last title date is the date of a same-slot row j at or above row i
      whose previous same-slot bout was a title fight: the bout after the most
      recent earlier title fight, not the title fight itself. */
  lemma LastTitleDateSource(keys: Column, dates: Column, titles: Column, i: nat) returns (j: nat)
    requires |keys| == |dates| == |titles| && i < |keys|
    requires LastTitleDate(keys, dates, titles)[i] != Missing
    ensures j <= i && keys[j] == keys[i] && !keys[j].Missing?
    ensures PrevInGroup(keys, titles, keys[j], j) == Num(1.0)
    ensures LastTitleDate(keys, dates, titles)[i] == dates[j]
  {
    var td := TitleDate(keys, dates, titles);
    j := FFillSource(keys, td, i);
    ShiftAtMember(keys, titles, j);
  }

  /** Row j is the most recent same-slot row up to row i whose previous
      same-slot bout was a title fight and which has a date: the bout right
      after the latest earlier title fight. */
  predicate LatestTitleFollowUp(keys: Column, dates: Column, titles: Column, i: nat, j: nat)
    requires |keys| == |dates| == |titles| && i < |keys|
  {
    j <= i && keys[j] == keys[i] && PrevInGroup(keys, titles, keys[j], j) == Num(1.0) && dates[j] != Missing &&
    forall q :: j < q <= i && keys[q] == keys[i] && dates[q] != Missing ==>
      PrevInGroup(keys, titles, keys[q], q) != Num(1.0)
  }

  /** The last title date is the date of the most recent same-slot row j <= i
      whose previous same-slot bout was a title fight, and it is missing
      exactly when there is no such dated row. */
  lemma LastTitleDateLatest(keys: Column, dates: Column, titles: Column, i: nat) returns (j: nat)
    requires |keys| == |dates| == |titles| && i < |keys| && !keys[i].Missing?
    ensures LastTitleDate(keys, dates, titles)[i] == Missing ==>
      forall q :: 0 <= q <= i && keys[q] == keys[i] && dates[q] != Missing ==>
        PrevInGroup(keys, titles, keys[q], q) != Num(1.0)
    ensures LastTitleDate(keys, dates, titles)[i] != Missing ==>
      LatestTitleFollowUp(keys, dates, titles, i, j) && LastTitleDate(keys, dates, titles)[i] == dates[j]
  {
    var td := TitleDate(keys, dates, titles);
    j := FFillLatest(keys, td, i);
    forall q | 0 <= q <= i && keys[q] == keys[i]
      ensures td[q] == if PrevInGroup(keys, titles, keys[q], q) == Num(1.0) then dates[q] else Missing
    {
      ShiftAtMember(keys, titles, q);
    }
  }

  /** On a DATE column of dates (or NaT), a dated row that has a last title
      date counts its days from the bout after the most recent earlier
      same-slot title fight. */
  lemma DaysSinceTitleLatest(keys: Column, dates: Column, titles: Column, i: nat) returns (j: nat)
    requires |keys| == |dates| == |titles| && i < |keys| && !keys[i].Missing?
    requires Dates(dates) && dates[i].Date? && LastTitleDate(keys, dates, titles)[i] != Missing
    ensures LatestTitleFollowUp(keys, dates, titles, i, j) && dates[j].Date?
    ensures DaysSinceTitle(keys, dates, titles)[i] == Num((dates[i].day - dates[j].day) as real)
  {
    var last := LastTitleDate(keys, dates, titles);
    j := LastTitleDateLatest(keys, dates, titles, i);
    GapFromLast(dates, last, i, j);
    DaysSinceTitleCell(keys, dates, titles, i);
  }

  /** A defined last date taken from a dated column is a date, and the gap
      to it is the day difference. */
  lemma GapFromLast(dates: Column, last: Column, i: nat, j: nat)
    requires i < |dates| && i < |last| && j < |dates| && Dates(dates) && dates[i].Date?
    requires last[i] != Missing && last[i] == dates[j]
    ensures dates[j].Date? && Minus(dates[i], last[i]) == Num((dates[i].day - dates[j].day) as real)
  {
    var d := dates[j];
    assert d.Date? || d.Missing?;
  }

  /** Where the gap from the last title date is defined, it is the day count. */
  lemma DaysSinceTitleCell(keys: Column, dates: Column, titles: Column, i: nat)
    requires |keys| == |dates| == |titles| && i < |keys|
    ensures var last := LastTitleDate(keys, dates, titles);
      Minus(dates[i], last[i]) != Missing ==> DaysSinceTitle(keys, dates, titles)[i] == Minus(dates[i], last[i])
  {
    var last := LastTitleDate(keys, dates, titles);
    assert MinusCol(dates, last)[i] == Minus(dates[i], last[i]);
  }

  /** When the immediately preceding same-slot bout was a title fight the
      last title date is this bout's own date, so the day count is 0. */
  lemma DaysSinceTitleZero(keys: Column, dates: Column, titles: Column, i: nat)
    requires |keys| == |dates| == |titles| && i < |keys| && !keys[i].Missing?
    requires dates[i].Date? && PrevInGroup(keys, titles, keys[i], i) == Num(1.0)
    ensures LastTitleDate(keys, dates, titles)[i] == dates[i]
    ensures DaysSinceTitle(keys, dates, titles)[i] == Num(0.0)
  {
    var td := TitleDate(keys, dates, titles);
    ShiftAtMember(keys, titles, i);
    FFillAtDefined(keys, td, i);
  }

  /** On a date-sorted table every defined day count is at least 0. */
  lemma DaysSinceTitleNonneg(keys: Column, dates: Column, titles: Column, i: nat)
    requires |keys| == |dates| == |titles| && i < |keys| && Dates(dates) && DateSorted(dates)
    requires MinusCol(dates, LastTitleDate(keys, dates, titles))[i] != Missing
    ensures MinusCol(dates, LastTitleDate(keys, dates, titles))[i].Num?
    ensures MinusCol(dates, LastTitleDate(keys, dates, titles))[i].x >= 0.0
    ensures DaysSinceTitle(keys, dates, titles)[i] == MinusCol(dates, LastTitleDate(keys, dates, titles))[i]
  {
    var last := LastTitleDate(keys, dates, titles);
    assert MinusCol(dates, last)[i] == Minus(dates[i], last[i]);
    var j := LastTitleDateSource(keys, dates, titles, i);
    EarlierDateGap(dates, j, i);
  }

  /** The gap from an earlier row's date on a sorted date column. */
  lemma EarlierDateGap(dates: Column, j: nat, i: nat)
    requires j <= i < |dates| && Dates(dates) && DateSorted(dates)
    requires Minus(dates[i], dates[j]) != Missing
    ensures Minus(dates[i], dates[j]).Num? && Minus(dates[i], dates[j]).x >= 0.0
  {
    if j < i {
      assert DateLe(dates[j], dates[i]);
    }
  }

  /** A row with no earlier title fight in its group has no title date and
      takes the fill: the median of the defined counts, or 365. */
  lemma DaysSinceTitleNone(keys: Column, dates: Column, titles: Column, i: nat)
    requires |keys| == |dates| == |titles| && i < |keys|
    requires LastTitleDate(keys, dates, titles)[i] == Missing
    ensures var gaps := MinusCol(dates, LastTitleDate(keys, dates, titles));
      DaysSinceTitle(keys, dates, titles)[i] == Num(MedianOr(gaps, 365.0))
  {
  }

  /** A keyed row has no last title date exactly when none of its same-slot
      bouts up to it, with a date, followed a title fight. */
  lemma NoTitleDateIff(keys: Column, dates: Column, titles: Column, i: nat)
    requires |keys| == |dates| == |titles| && i < |keys| && !keys[i].Missing?
    ensures LastTitleDate(keys, dates, titles)[i] == Missing <==>
      forall q :: 0 <= q <= i && keys[q] == keys[i] && dates[q] != Missing ==>
        PrevInGroup(keys, titles, keys[q], q) != Num(1.0)
  {
    var j := LastTitleDateLatest(keys, dates, titles, i);
  }

  // ---------------------------------------------------------------------------
  // Current champion (lines 67-86)

  /** `groupby(name)['is_title_fight'].shift(1).fillna(0)`. */
  function LastWasTitle(keys: Column, titles: Column): (r: Column)
    requires |keys| == |titles|
    ensures |r| == |keys|
  {
    FillCol(GroupApply(keys, titles, Shift), Num(0.0))
  }

  /** `((last_fight_was_title == 1) & (won_shifted == 1)).astype(int)`. */
  function ChampionCol(lastTitle: Column, wonShifted: Column): (r: Column)
    requires |lastTitle| == |wonShifted|
    ensures |r| == |lastTitle|
    ensures forall i :: 0 <= i < |lastTitle| ==>
      (r[i] == Num(1.0) <==> lastTitle[i] == Num(1.0) && wonShifted[i] == Num(1.0)) &&
      (r[i] == Num(0.0) <==> !(lastTitle[i] == Num(1.0) && wonShifted[i] == Num(1.0)))
  {
    seq(|lastTitle|, i requires 0 <= i < |lastTitle| =>
      Flag(lastTitle[i] == Num(1.0) && wonShifted[i] == Num(1.0)))
  }

  /** A fighter is current champion exactly when the previous same-slot bout
      was a title fight and the fighter won it; never on a first appearance
      or without a name. */
  lemma ChampionAt(keys: Column, titles: Column, won: Column, i: nat)
    requires |keys| == |titles| == |won| && i < |keys|
    ensures var c := ChampionCol(LastWasTitle(keys, titles), GroupApply(keys, won, Shift))[i];
      (c == Num(1.0) <==> (!keys[i].Missing? &&
        PrevInGroup(keys, titles, keys[i], i) == Num(1.0) && PrevInGroup(keys, won, keys[i], i) == Num(1.0))) &&
      (keys[i].Missing? || Before(keys, i) == [] ==> c == Num(0.0))
  {
    if !keys[i].Missing? {
      ShiftAtMember(keys, titles, i);
      ShiftAtMember(keys, won, i);
    }
  }

  /** `champion_diff` is -1, 0 or 1. */
  lemma ChampionDiffRange(c1: Column, c2: Column, i: nat)
    requires |c1| == |c2| && i < |c1|
    requires (c1[i] == Num(0.0) || c1[i] == Num(1.0)) && (c2[i] == Num(0.0) || c2[i] == Num(1.0))
    ensures MinusCol(c1, c2)[i] == Num(-1.0) || MinusCol(c1, c2)[i] == Num(0.0) || MinusCol(c1, c2)[i] == Num(1.0)
    ensures MinusCol(c1, c2)[i] == Num(1.0) <==> c1[i] == Num(1.0) && c2[i] == Num(0.0)
    ensures MinusCol(c1, c2)[i] == Num(-1.0) <==> c1[i] == Num(0.0) && c2[i] == Num(1.0)
  {
    assert MinusCol(c1, c2)[i] == Minus(c1[i], c2[i]);
  }

  /** `both_champions`. */
  function BothCol(c1: Column, c2: Column): (r: Column)
    requires |c1| == |c2|
    ensures |r| == |c1|
    ensures forall i :: 0 <= i < |c1| ==>
      (r[i] == Num(1.0) <==> c1[i] == Num(1.0) && c2[i] == Num(1.0)) &&
      (r[i] == Num(0.0) <==> !(c1[i] == Num(1.0) && c2[i] == Num(1.0)))
  {
    seq(|c1|, i requires 0 <= i < |c1| => Flag(c1[i] == Num(1.0) && c2[i] == Num(1.0)))
  }

  // ---------------------------------------------------------------------------
  // The stage as a whole

  predicate TitleReady(cols: map<string, Column>, rows: nat)
  {
    Shaped(cols, rows) && "DATE" in cols && "is_title_fight" in cols &&
    "fighter1_name" in cols && "fighter2_name" in cols &&
    "fighter1_won_shifted" in cols && "fighter2_won_shifted" in cols
  }

  /** The eight intermediate columns line 89 drops. */
  const Intermediate: set<string> := {
    "fighter1_is_title_shifted", "fighter2_is_title_shifted",
    "fighter1_title_fight_date", "fighter2_title_fight_date",
    "fighter1_last_title_fight_date", "fighter2_last_title_fight_date",
    "fighter1_last_fight_was_title", "fighter2_last_fight_was_title"}

  /** Lines 13-25. */
  function CountFeatures(cols: map<string, Column>, rows: nat): (r: map<string, Column>)
    requires TitleReady(cols, rows)
    ensures TitleReady(r, rows) && cols.Keys <= r.Keys
  {
    var t := cols["is_title_fight"];
    var k1 := cols["fighter1_name"];
    var k2 := cols["fighter2_name"];
    var s1 := GroupApply(k1, t, Shift);
    var n1 := GroupApply(k1, s1, ZeroFilledSum);
    var s2 := GroupApply(k2, t, Shift);
    var n2 := GroupApply(k2, s2, ZeroFilledSum);
    cols["fighter1_is_title_shifted" := s1]["fighter1_num_title_fights" := n1]
        ["fighter2_is_title_shifted" := s2]["fighter2_num_title_fights" := n2]
        ["title_fights_diff" := MinusCol(n1, n2)]["title_fights_ratio" := RatioCol(n1, n2)]
  }

  /** Lines 30-61. */
  function DayFeatures(cols: map<string, Column>, rows: nat): (r: map<string, Column>)
    requires TitleReady(cols, rows)
    ensures TitleReady(r, rows) && cols.Keys <= r.Keys
  {
    var t := cols["is_title_fight"];
    var dates := cols["DATE"];
    var k1 := cols["fighter1_name"];
    var k2 := cols["fighter2_name"];
    var d1 := TitleDate(k1, dates, t);
    var d2 := TitleDate(k2, dates, t);
    var l1 := GroupApply(k1, d1, FFill);
    var l2 := GroupApply(k2, d2, FFill);
    var g1 := MinusCol(dates, l1);
    var g2 := MinusCol(dates, l2);
    var f1 := FillCol(g1, Num(MedianOr(g1, 365.0)));
    var f2 := FillCol(g2, Num(MedianOr(g2, 365.0)));
    var r := DayWrites(cols, rows, d1, l1, d2, l2, g1, g2, f1, f2, MinusCol(f1, f2));
    TitleReadyAfter(cols, r, rows);
    r
  }

  /** The nine writes of lines 30-61, in order, with the values as parameters. */
  function DayWrites(cols: map<string, Column>, rows: nat, d1: Column, l1: Column, d2: Column, l2: Column,
                     g1: Column, g2: Column, f1: Column, f2: Column, diff: Column): (r: map<string, Column>)
    requires Shaped(cols, rows)
    requires |d1| == |l1| == |d2| == |l2| == |g1| == |g2| == |f1| == |f2| == |diff| == rows
    ensures Shaped(r, rows) && cols.Keys <= r.Keys
  {
    var m1 := cols["fighter1_title_fight_date" := d1];
    ShapedSet(cols, rows, "fighter1_title_fight_date", d1);
    var m2 := m1["fighter1_last_title_fight_date" := l1];
    ShapedSet(m1, rows, "fighter1_last_title_fight_date", l1);
    var m3 := m2["fighter2_title_fight_date" := d2];
    ShapedSet(m2, rows, "fighter2_title_fight_date", d2);
    var m4 := m3["fighter2_last_title_fight_date" := l2];
    ShapedSet(m3, rows, "fighter2_last_title_fight_date", l2);
    var m5 := m4["fighter1_days_since_last_title_fight" := g1];
    ShapedSet(m4, rows, "fighter1_days_since_last_title_fight", g1);
    var m6 := m5["fighter2_days_since_last_title_fight" := g2];
    ShapedSet(m5, rows, "fighter2_days_since_last_title_fight", g2);
    var m7 := m6["fighter1_days_since_last_title_fight" := f1];
    ShapedSet(m6, rows, "fighter1_days_since_last_title_fight", f1);
    var m8 := m7["fighter2_days_since_last_title_fight" := f2];
    ShapedSet(m7, rows, "fighter2_days_since_last_title_fight", f2);
    var m9 := m8["days_since_last_title_fight_diff" := diff];
    ShapedSet(m8, rows, "days_since_last_title_fight_diff", diff);
    m9
  }

  /** What the writes leave in the columns they name, and that every other
      column stays. */
  lemma DayWritesAt(cols: map<string, Column>, rows: nat, d1: Column, l1: Column, d2: Column, l2: Column,
                    g1: Column, g2: Column, f1: Column, f2: Column, diff: Column)
    requires Shaped(cols, rows)
    requires |d1| == |l1| == |d2| == |l2| == |g1| == |g2| == |f1| == |f2| == |diff| == rows
    ensures var r := DayWrites(cols, rows, d1, l1, d2, l2, g1, g2, f1, f2, diff);
      r["fighter1_last_title_fight_date"] == l1 && r["fighter2_last_title_fight_date"] == l2 &&
      r["fighter1_days_since_last_title_fight"] == f1 && r["fighter2_days_since_last_title_fight"] == f2 &&
      r["days_since_last_title_fight_diff"] == diff &&
      forall c :: c in cols && c !in DayNames ==> r[c] == cols[c]
  {
  }

  /** The columns the stage reads stay in place as columns are added. */
  lemma TitleReadyAfter(cols: map<string, Column>, r: map<string, Column>, rows: nat)
    requires TitleReady(cols, rows) && Shaped(r, rows) && cols.Keys <= r.Keys
    ensures TitleReady(r, rows)
  {
  }

  /** Lines 67-86. */
  function ChampionFeatures(cols: map<string, Column>, rows: nat): (r: map<string, Column>)
    requires TitleReady(cols, rows)
    ensures TitleReady(r, rows) && cols.Keys <= r.Keys
  {
    var t := cols["is_title_fight"];
    var w1 := LastWasTitle(cols["fighter1_name"], t);
    var c1 := ChampionCol(w1, cols["fighter1_won_shifted"]);
    var w2 := LastWasTitle(cols["fighter2_name"], t);
    var c2 := ChampionCol(w2, cols["fighter2_won_shifted"]);
    cols["fighter1_last_fight_was_title" := w1]["fighter1_is_current_champion" := c1]
        ["fighter2_last_fight_was_title" := w2]["fighter2_is_current_champion" := c2]
        ["champion_diff" := MinusCol(c1, c2)]["both_champions" := BothCol(c1, c2)]
  }

  /** The columns lines 13-25 write: both slots' counts as TitleCount computes
      them, their difference and their ratio; every other column stays. */
  lemma CountColumns(cols: map<string, Column>, rows: nat)
    requires TitleReady(cols, rows)
    ensures var r := CountFeatures(cols, rows);
      var t := cols["is_title_fight"];
      var n1 := TitleCount(cols["fighter1_name"], t);
      var n2 := TitleCount(cols["fighter2_name"], t);
      r["fighter1_num_title_fights"] == n1 && r["fighter2_num_title_fights"] == n2 &&
      r["title_fights_diff"] == MinusCol(n1, n2) && r["title_fights_ratio"] == RatioCol(n1, n2) &&
      forall c :: c in cols && c !in CountNames ==> r[c] == cols[c]
  {
  }

  /** The columns lines 30-61 write: both slots' last title dates and day
      counts as LastTitleDate and DaysSinceTitle compute them, and the
      difference; every other column stays. */
  lemma DayColumns(cols: map<string, Column>, rows: nat)
    requires TitleReady(cols, rows)
    ensures var r := DayFeatures(cols, rows);
      var t, dates := cols["is_title_fight"], cols["DATE"];
      var k1, k2 := cols["fighter1_name"], cols["fighter2_name"];
      r["fighter1_last_title_fight_date"] == LastTitleDate(k1, dates, t) &&
      r["fighter2_last_title_fight_date"] == LastTitleDate(k2, dates, t) &&
      r["fighter1_days_since_last_title_fight"] == DaysSinceTitle(k1, dates, t) &&
      r["fighter2_days_since_last_title_fight"] == DaysSinceTitle(k2, dates, t) &&
      r["days_since_last_title_fight_diff"] == MinusCol(DaysSinceTitle(k1, dates, t), DaysSinceTitle(k2, dates, t)) &&
      forall c :: c in cols && c !in DayNames ==> r[c] == cols[c]
  {
    var t, dates := cols["is_title_fight"], cols["DATE"];
    var k1, k2 := cols["fighter1_name"], cols["fighter2_name"];
    var d1, d2 := TitleDate(k1, dates, t), TitleDate(k2, dates, t);
    var l1, l2 := LastTitleDate(k1, dates, t), LastTitleDate(k2, dates, t);
    var f1, f2 := DaysSinceTitle(k1, dates, t), DaysSinceTitle(k2, dates, t);
    var g1, g2 := MinusCol(dates, l1), MinusCol(dates, l2);
    assert DayFeatures(cols, rows) == DayWrites(cols, rows, d1, l1, d2, l2, g1, g2, f1, f2, MinusCol(f1, f2));
    DayWritesAt(cols, rows, d1, l1, d2, l2, g1, g2, f1, f2, MinusCol(f1, f2));
  }

  /** The columns lines 67-86 write: both slots' champion flags from
      LastWasTitle and ChampionCol, their difference and BothCol; every other
      column stays. */
  lemma ChampionColumns(cols: map<string, Column>, rows: nat)
    requires TitleReady(cols, rows)
    ensures var r := ChampionFeatures(cols, rows);
      var t := cols["is_title_fight"];
      var c1 := ChampionCol(LastWasTitle(cols["fighter1_name"], t), cols["fighter1_won_shifted"]);
      var c2 := ChampionCol(LastWasTitle(cols["fighter2_name"], t), cols["fighter2_won_shifted"]);
      r["fighter1_is_current_champion"] == c1 && r["fighter2_is_current_champion"] == c2 &&
      r["champion_diff"] == MinusCol(c1, c2) && r["both_champions"] == BothCol(c1, c2) &&
      forall c :: c in cols && c !in ChampionNames ==> r[c] == cols[c]
  {
  }

  const CountNames: set<string> := {
    "fighter1_is_title_shifted", "fighter1_num_title_fights", "fighter2_is_title_shifted",
    "fighter2_num_title_fights", "title_fights_diff", "title_fights_ratio"}

  const DayNames: set<string> := {
    "fighter1_title_fight_date", "fighter1_last_title_fight_date", "fighter2_title_fight_date",
    "fighter2_last_title_fight_date", "fighter1_days_since_last_title_fight",
    "fighter2_days_since_last_title_fight", "days_since_last_title_fight_diff"}

  const ChampionNames: set<string> := {
    "fighter1_last_fight_was_title", "fighter1_is_current_champion", "fighter2_last_fight_was_title",
    "fighter2_is_current_champion", "champion_diff", "both_champions"}

  /** `create_title_fight_features` as a function of the table. */
  function TitleSpec(cols: map<string, Column>, rows: nat): (r: map<string, Column>)
    requires TitleReady(cols, rows)
    ensures Shaped(r, rows)
    ensures forall c :: c in Intermediate ==> c !in r
  {
    var c3 := ChampionFeatures(DayFeatures(CountFeatures(cols, rows), rows), rows);
    assert Intermediate <= c3.Keys;
    c3 - Intermediate
  }

  method AddCountFeatures(f: Frame)
    requires f.Valid() && TitleReady(f.cols, f.rows)
    modifies f
    ensures f.Valid() && f.rows == old(f.rows)
    ensures f.cols == CountFeatures(old(f.cols), old(f.rows))
  {
    var t := f.cols["is_title_fight"];
    var k1 := f.cols["fighter1_name"];
    var k2 := f.cols["fighter2_name"];
    var s1 := GroupApply(k1, t, Shift);
    f.Set("fighter1_is_title_shifted", s1);
    var n1 := GroupApply(k1, s1, ZeroFilledSum);
    f.Set("fighter1_num_title_fights", n1);
    var s2 := GroupApply(k2, t, Shift);
    f.Set("fighter2_is_title_shifted", s2);
    var n2 := GroupApply(k2, s2, ZeroFilledSum);
    f.Set("fighter2_num_title_fights", n2);
    f.Set("title_fights_diff", MinusCol(n1, n2));
    f.Set("title_fights_ratio", RatioCol(n1, n2));
  }

  method AddDayFeatures(f: Frame)
    requires f.Valid() && TitleReady(f.cols, f.rows)
    modifies f
    ensures f.Valid() && f.rows == old(f.rows)
    ensures f.cols == DayFeatures(old(f.cols), old(f.rows))
  {
    var t := f.cols["is_title_fight"];
    var dates := f.cols["DATE"];
    var k1 := f.cols["fighter1_name"];
    var k2 := f.cols["fighter2_name"];
    var d1 := TitleDate(k1, dates, t);
    f.Set("fighter1_title_fight_date", d1);
    var l1 := GroupApply(k1, d1, FFill);
    f.Set("fighter1_last_title_fight_date", l1);
    var d2 := TitleDate(k2, dates, t);
    f.Set("fighter2_title_fight_date", d2);
    var l2 := GroupApply(k2, d2, FFill);
    f.Set("fighter2_last_title_fight_date", l2);
    var g1 := MinusCol(dates, l1);
    f.Set("fighter1_days_since_last_title_fight", g1);
    var g2 := MinusCol(dates, l2);
    f.Set("fighter2_days_since_last_title_fight", g2);
    var f1 := FillCol(g1, Num(MedianOr(g1, 365.0)));
    f.Set("fighter1_days_since_last_title_fight", f1);
    var f2 := FillCol(g2, Num(MedianOr(g2, 365.0)));
    f.Set("fighter2_days_since_last_title_fight", f2);
    f.Set("days_since_last_title_fight_diff", MinusCol(f1, f2));
  }

  method AddChampionFeatures(f: Frame)
    requires f.Valid() && TitleReady(f.cols, f.rows)
    modifies f
    ensures f.Valid() && f.rows == old(f.rows)
    ensures f.cols == ChampionFeatures(old(f.cols), old(f.rows))
  {
    var t := f.cols["is_title_fight"];
    var won1 := f.cols["fighter1_won_shifted"];
    var won2 := f.cols["fighter2_won_shifted"];
    var w1 := LastWasTitle(f.cols["fighter1_name"], t);
    f.Set("fighter1_last_fight_was_title", w1);
    var c1 := ChampionCol(w1, won1);
    f.Set("fighter1_is_current_champion", c1);
    var w2 := LastWasTitle(f.cols["fighter2_name"], t);
    f.Set("fighter2_last_fight_was_title", w2);
    var c2 := ChampionCol(w2, won2);
    f.Set("fighter2_is_current_champion", c2);
    f.Set("champion_diff", MinusCol(c1, c2));
    f.Set("both_champions", BothCol(c1, c2));
  }

  /** `create_title_fight_features(df)`. */
  method CreateTitleFightFeatures(f: Frame)
    requires f.Valid() && TitleReady(f.cols, f.rows)
    modifies f
    ensures f.Valid() && f.rows == old(f.rows)
    ensures f.cols == TitleSpec(old(f.cols), old(f.rows))
  {
    AddCountFeatures(f);
    AddDayFeatures(f);
    AddChampionFeatures(f);
    f.Drop(Intermediate);
  }
}
