/** The momentum features: the career win rate, recent form against it, and
    the current win and loss streaks, all over the earlier same-slot bouts. */
module Momentum {
  import opened Cells
  import opened Frames
  import opened Groups
  import H = Historical

  // ---------------------------------------------------------------------------
  // calc_streak (lines 3-10)

  /** The example run [1, 1, 0, 1]: win streaks [0, 1, 0, 1] and loss streaks
      [0, 0, 1, 0]; the run that starts the series counts from 0. */
  lemma StreakExample()
    ensures CalcStreak([Num(1.0), Num(1.0), Num(0.0), Num(1.0)], 1.0) == [0, 1, 0, 1]
    ensures CalcStreak([Num(1.0), Num(1.0), Num(0.0), Num(1.0)], 0.0) == [0, 0, 1, 0]
  {
    var s := [Num(1.0), Num(1.0), Num(0.0), Num(1.0)];
    assert Hit(s[0], 1.0) && Hit(s[1], 1.0) && !Hit(s[2], 1.0) && Hit(s[3], 1.0);
    assert !Hit(s[0], 0.0) && !Hit(s[1], 0.0) && Hit(s[2], 0.0) && !Hit(s[3], 0.0);
    StreakIsRunLength(s, 1.0, 1);
    StreakIsRunLength(s, 1.0, 3);
    StreakIsRunLength(s, 0.0, 2);
    assert TrailingHits(s, 1.0, 4) == 1;
    assert TrailingHits(s, 0.0, 3) == 1;
    assert NonHits(s, 1.0, 3) > 0;
    assert NonHits(s, 0.0, 2) > 0;
  }

  /** A missing entry counts as 0.5 and so breaks win runs and loss runs alike. */
  lemma MissingBreaksRuns(s: Column, p: nat)
    requires p < |s| && s[p] == Missing
    ensures CalcStreak(s, 1.0)[p] == 0 && CalcStreak(s, 0.0)[p] == 0
    ensures p + 1 < |s| ==> CalcStreak(s, 1.0)[p + 1] <= 1 && CalcStreak(s, 0.0)[p + 1] <= 1
  {
    if p + 1 < |s| {
      StreakIsRunLength(s, 1.0, p + 1);
      StreakIsRunLength(s, 0.0, p + 1);
      assert !Hit(s[p], 1.0) && !Hit(s[p], 0.0);
    }
  }

  // ---------------------------------------------------------------------------
  // Career win rate and momentum (lines 18-33)

  /** `groupby(name)[won_shifted].transform(expanding().mean()).fillna(0.5)`. */
  function CareerRate(keys: Column, wonShifted: Column): (r: Column)
    requires |keys| == |wonShifted|
    ensures |r| == |keys|
  {
    FillCol(GroupApply(keys, wonShifted, Expanding), Num(0.5))
  }

  /** The career rate at row i is the mean of all defined earlier same-slot
      results, or 0.5 when there is none. */
  lemma CareerRateAt(keys: Column, won: Column, i: nat)
    requires |keys| == |won| && i < |keys|
    ensures var m := Mean(Pick(won, Before(keys, i)));
      CareerRate(keys, GroupApply(keys, won, Shift))[i] ==
        if keys[i].Missing? || m.Missing? then Num(0.5) else m
  {
    HistoryAt(keys, won, Expanding, i);
    if !keys[i].Missing? {
      ExpandingAfterShift(Pick(won, Before(keys, i)));
    }
  }

  /** `win_rate_last_5 - career_win_rate`, then `fillna(0)`. */
  function MomentumCol(recent: Column, career: Column): (r: Column)
    requires |recent| == |career|
    ensures |r| == |recent|
  {
    FillCol(MinusCol(recent, career), Num(0.0))
  }

  /** Momentum is 0 whenever the fighter has at most five earlier same-slot
      bouts: both rates then average the same results. */
  lemma MomentumZero(keys: Column, won: Column, i: nat)
    requires |keys| == |won| && i < |keys| && |Before(keys, i)| <= H.RateWindow
    ensures MomentumCol(H.WinRate(keys, won), CareerRate(keys, GroupApply(keys, won, Shift)))[i] == Num(0.0)
  {
    SameHistory(keys, won, i);
    var h := History(keys, won, Expanding)[i];
    assert H.WinRate(keys, won)[i] == Fill(h, Num(0.5));
    assert CareerRate(keys, GroupApply(keys, won, Shift))[i] == Fill(h, Num(0.5));
    assert h.Missing? || h.Num? by {
      HistoryAt(keys, won, Expanding, i);
    }
  }

  /** With at most five earlier bouts the rolling window holds them all. */
  lemma SameHistory(keys: Column, won: Column, i: nat)
    requires |keys| == |won| && i < |keys| && |Before(keys, i)| <= H.RateWindow
    ensures History(keys, won, Rolling(H.RateWindow))[i] == History(keys, won, Expanding)[i]
  {
    HistoryAt(keys, won, Rolling(H.RateWindow), i);
    HistoryAt(keys, won, Expanding, i);
    if !keys[i].Missing? {
      var t := Pick(won, Before(keys, i));
      RollingAfterShift(t, H.RateWindow);
      ExpandingAfterShift(t);
    }
  }

  /** Momentum compares recent form with the career: it is the difference of
      two rates in [0, 1] and so lies in [-1, 1]. */
  lemma MomentumBounds(keys: Column, outcomes: Column, n: nat, i: nat)
    requires n == 1 || n == 2
    requires |keys| == |outcomes| && i < |keys|
    ensures var won := H.WonCol(outcomes, n);
      var m := MomentumCol(H.WinRate(keys, won), CareerRate(keys, GroupApply(keys, won, Shift)))[i];
      m.Num? && -1.0 <= m.x <= 1.0
  {
    var won := H.WonCol(outcomes, n);
    H.WinRateBounds(keys, outcomes, n, i);
    CareerRateAt(keys, won, i);
    H.WonFlags(outcomes, n);
    H.WindowBounds(won, Before(keys, i), |Before(keys, i)|, 0.0, 1.0);
    assert LastK(Pick(won, Before(keys, i)), |Before(keys, i)|) == Pick(won, Before(keys, i));
    MeanBounds(Pick(won, Before(keys, i)), 0.0, 1.0);
  }

  // ---------------------------------------------------------------------------
  // Streaks (lines 40-59)

  /** `groupby(name)[result].transform(calc_streak).fillna(0)` with t = 1 for
      wins and t = 0 for losses. */
  function StreakCol(keys: Column, result: Column, t: real): (r: Column)
    requires |keys| == |result|
    ensures |r| == |keys|
  {
    FillCol(GroupApply(keys, result, Streak(t)), Num(0.0))
  }

  /** On the shifted results a row's streak is the number of consecutive wins
      (t = 1) or losses (t = 0) in the same-slot bouts right before it; 0 on a
      first appearance and for a row without a name. */
  lemma StreakAt(keys: Column, won: Column, t: real, i: nat)
    requires |keys| == |won| && i < |keys| && (t == 1.0 || t == 0.0)
    ensures var b := Pick(won, Before(keys, i));
      StreakCol(keys, GroupApply(keys, won, Shift), t)[i] == Num(TrailingHits(b, t, |b|) as real)
    ensures Before(keys, i) == [] ==> StreakCol(keys, GroupApply(keys, won, Shift), t)[i] == Num(0.0)
  {
    HistoryAt(keys, won, Streak(t), i);
    if !keys[i].Missing? {
      StreakAfterShift(Pick(won, Before(keys, i)), t);
    }
  }

  /** A win streak and a loss streak are never both positive on one row. */
  lemma StreaksExclusiveAt(keys: Column, won: Column, i: nat)
    requires |keys| == |won| && i < |keys|
    ensures var s := GroupApply(keys, won, Shift);
      StreakCol(keys, s, 1.0)[i] == Num(0.0) || StreakCol(keys, s, 0.0)[i] == Num(0.0)
  {
    var s := GroupApply(keys, won, Shift);
    var b := Pick(won, Before(keys, i));
    StreakAt(keys, won, 1.0, i);
    StreakAt(keys, won, 0.0, i);
    assert StreakCol(keys, s, 1.0)[i] == Num(TrailingHits(b, 1.0, |b|) as real);
    assert StreakCol(keys, s, 0.0)[i] == Num(TrailingHits(b, 0.0, |b|) as real);
    TrailingExclusive(b, |b|);
  }

  /** The last cell cannot be both a win and a loss. */
  lemma TrailingExclusive(b: Column, n: nat)
    requires n <= |b|
    ensures Num(TrailingHits(b, 1.0, n) as real) == Num(0.0) || Num(TrailingHits(b, 0.0, n) as real) == Num(0.0)
  {
  }

  // ---------------------------------------------------------------------------
  // The stage as a whole

  predicate MomentumReady(cols: map<string, Column>, rows: nat)
  {
    Shaped(cols, rows) &&
    "fighter1_name" in cols && "fighter2_name" in cols &&
    "fighter1_won_shifted" in cols && "fighter2_won_shifted" in cols &&
    "fighter1_win_rate_last_5" in cols && "fighter2_win_rate_last_5" in cols
  }

  /** Lines 18-33. */
  function FormFeatures(cols: map<string, Column>, rows: nat): (r: map<string, Column>)
    requires MomentumReady(cols, rows)
    ensures MomentumReady(r, rows) && cols.Keys <= r.Keys
  {
    var c1 := CareerRate(cols["fighter1_name"], cols["fighter1_won_shifted"]);
    var c2 := CareerRate(cols["fighter2_name"], cols["fighter2_won_shifted"]);
    var m1 := MinusCol(cols["fighter1_win_rate_last_5"], c1);
    var m2 := MinusCol(cols["fighter2_win_rate_last_5"], c2);
    var md := MinusCol(m1, m2);
    cols["fighter1_career_win_rate" := c1]["fighter2_career_win_rate" := c2]
        ["fighter1_momentum" := m1]["fighter2_momentum" := m2]["momentum_diff" := md]
        ["fighter1_momentum" := FillCol(m1, Num(0.0))]["fighter2_momentum" := FillCol(m2, Num(0.0))]
        ["momentum_diff" := FillCol(md, Num(0.0))]
  }

  /** Lines 40-62. */
  function StreakFeatures(cols: map<string, Column>, rows: nat): (r: map<string, Column>)
    requires MomentumReady(cols, rows)
    ensures Shaped(r, rows) && "fighter1_result" !in r && "fighter2_result" !in r
  {
    var k1 := cols["fighter1_name"];
    var k2 := cols["fighter2_name"];
    var r1 := cols["fighter1_won_shifted"];
    var r2 := cols["fighter2_won_shifted"];
    var w1 := StreakCol(k1, r1, 1.0);
    var w2 := StreakCol(k2, r2, 1.0);
    var l1 := StreakCol(k1, r1, 0.0);
    var l2 := StreakCol(k2, r2, 0.0);
    cols["fighter1_result" := r1]["fighter2_result" := r2]
        ["fighter1_win_streak" := w1]["fighter2_win_streak" := w2]
        ["fighter1_loss_streak" := l1]["fighter2_loss_streak" := l2]
        ["win_streak_diff" := MinusCol(w1, w2)]["loss_streak_diff" := MinusCol(l1, l2)]
      - {"fighter1_result", "fighter2_result"}
  }

  /** `create_momentum_features` as a function of the table. */
  function MomentumSpec(cols: map<string, Column>, rows: nat): (r: map<string, Column>)
    requires MomentumReady(cols, rows)
  {
    StreakFeatures(FormFeatures(cols, rows), rows)
  }

  method AddFormFeatures(f: Frame)
    requires f.Valid() && MomentumReady(f.cols, f.rows)
    modifies f
    ensures f.Valid() && f.rows == old(f.rows)
    ensures f.cols == FormFeatures(old(f.cols), old(f.rows))
  {
    var rate1 := f.cols["fighter1_win_rate_last_5"];
    var rate2 := f.cols["fighter2_win_rate_last_5"];
    var c1 := CareerRate(f.cols["fighter1_name"], f.cols["fighter1_won_shifted"]);
    f.Set("fighter1_career_win_rate", c1);
    var c2 := CareerRate(f.cols["fighter2_name"], f.cols["fighter2_won_shifted"]);
    f.Set("fighter2_career_win_rate", c2);
    var m1 := MinusCol(rate1, c1);
    f.Set("fighter1_momentum", m1);
    var m2 := MinusCol(rate2, c2);
    f.Set("fighter2_momentum", m2);
    var md := MinusCol(m1, m2);
    f.Set("momentum_diff", md);
    f.Set("fighter1_momentum", FillCol(m1, Num(0.0)));
    f.Set("fighter2_momentum", FillCol(m2, Num(0.0)));
    f.Set("momentum_diff", FillCol(md, Num(0.0)));
  }

  method AddStreakFeatures(f: Frame)
    requires f.Valid() && MomentumReady(f.cols, f.rows)
    modifies f
    ensures f.Valid() && f.rows == old(f.rows)
    ensures f.cols == StreakFeatures(old(f.cols), old(f.rows))
  {
    var k1 := f.cols["fighter1_name"];
    var k2 := f.cols["fighter2_name"];
    var r1 := f.cols["fighter1_won_shifted"];
    var r2 := f.cols["fighter2_won_shifted"];
    f.Set("fighter1_result", r1);
    f.Set("fighter2_result", r2);
    var w1 := StreakCol(k1, r1, 1.0);
    f.Set("fighter1_win_streak", w1);
    var w2 := StreakCol(k2, r2, 1.0);
    f.Set("fighter2_win_streak", w2);
    var l1 := StreakCol(k1, r1, 0.0);
    f.Set("fighter1_loss_streak", l1);
    var l2 := StreakCol(k2, r2, 0.0);
    f.Set("fighter2_loss_streak", l2);
    f.Set("win_streak_diff", MinusCol(w1, w2));
    f.Set("loss_streak_diff", MinusCol(l1, l2));
    f.Drop({"fighter1_result", "fighter2_result"});
  }

  /** `create_momentum_features(df)`. */
  method CreateMomentumFeatures(f: Frame)
    requires f.Valid() && MomentumReady(f.cols, f.rows)
    modifies f
    ensures f.Valid() && f.rows == old(f.rows)
    ensures f.cols == MomentumSpec(old(f.cols), old(f.rows))
  {
    AddFormFeatures(f);
    AddStreakFeatures(f);
  }
}
