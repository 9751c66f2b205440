/** Shared feature helpers: the win-method categoriser and the shifted rolling
    average of one slot's statistic. */
module Helpers {
  import opened Cells
  import opened Text
  import opened Frames
  import opened Groups

  /** The three finish categories a method string is sorted into. */
  datatype MethodCategory = KoTko | Submission | Decision

  /** `fighter{n}_{stat}`: the column of slot n's statistic. */
  function SlotName(n: nat, stat: string): (r: string)
    ensures StartsWith(r, "fighter")
  {
    "fighter" + NatStr(n) + "_" + stat
  }

  /** Slot column names name one slot and one statistic: two of them are equal
      exactly when both the slot and the statistic are. */
  lemma SlotNameApart(n: nat, a: string, m: nat, b: string)
    requires (n == 1 || n == 2) && (m == 1 || m == 2)
    ensures SlotName(n, a) == SlotName(m, b) <==> n == m && a == b
  {
    var x := SlotName(n, a);
    var y := SlotName(m, b);
    assert |x| == 9 + |a| && |y| == 9 + |b|;
    if x == y {
      assert DigitChar(n) == x[7] == y[7] == DigitChar(m);
      assert x[9..] == a && y[9..] == b;
    }
  }

  /** `fighter{n}_avg_{stat}_last_{window}`. */
  function AvgName(n: nat, stat: string, window: nat): (r: string)
    ensures StartsWith(r, "fighter")
  {
    "fighter" + NatStr(n) + "_avg_" + stat + "_last_" + NatStr(window)
  }

  /** An average column is the slot column of the statistic `avg_{stat}_last_{window}`. */
  lemma AvgNameIsSlotName(n: nat, stat: string, window: nat)
    ensures AvgName(n, stat, window) == SlotName(n, "avg_" + stat + "_last_" + NatStr(window))
  {
    var d := NatStr(n);
    var w := NatStr(window);
    assert "_avg_" == "_" + "avg_";
    assert "fighter" + d + "_avg_" + stat + "_last_" + w == "fighter" + d + "_" + ("avg_" + stat + "_last_" + w);
  }

  /** `categorize_method`: missing and "--" carry no category; otherwise the
      lower-cased, stripped text is tested for "ko"/"tko", then for
      "submission"/"sub", then for "decision". Non-text cells render without
      any of these words. */
  function CategorizeMethod(how: Cell): (r: Option<MethodCategory>)
    ensures how.Missing? || how == Text("--") || !how.Text? ==> r == None
    ensures how.Text? && how != Text("--") ==>
      var m := Strip(Lower(how.s));
      (r == Some(KoTko) <==> Contains(m, "ko")) &&
      (r == Some(Submission) <==> !Contains(m, "ko") && Contains(m, "sub")) &&
      (r == Some(Decision) <==> !Contains(m, "ko") && !Contains(m, "sub") && Contains(m, "decision"))
  {
    if !how.Text? || how.s == "--" then None
    else
      var m := Strip(Lower(how.s));
      TkoHasKo(m);
      SubmissionHasSub(m);
      if Contains(m, "ko") || Contains(m, "tko") then Some(KoTko)
      else if Contains(m, "submission") || Contains(m, "sub") then Some(Submission)
      else if Contains(m, "decision") then Some(Decision)
      else None
  }

  /** "tko" contains "ko", so testing for "tko" adds nothing. */
  lemma TkoHasKo(m: string)
    ensures Contains(m, "tko") ==> Contains(m, "ko")
  {
    if Contains(m, "tko") {
      var k: nat :| k + 3 <= |m| && OccursAt(m, "tko", k);
      assert m[k + 1..k + 3] == m[k..k + 3][1..];
      assert OccursAt(m, "ko", k + 1);
    }
  }

  /** "submission" contains "sub", so testing for "submission" adds nothing. */
  lemma SubmissionHasSub(m: string)
    ensures Contains(m, "submission") ==> Contains(m, "sub")
  {
    if Contains(m, "submission") {
      var k: nat :| k + 10 <= |m| && OccursAt(m, "submission", k);
      assert m[k..k + 3] == m[k..k + 10][..3];
      assert OccursAt(m, "sub", k);
    }
  }

  lemma {:induction false} LowerIdempotent(s: string)
    ensures Lower(Lower(s)) == Lower(s)
  {
    forall k | 0 <= k < |s|
      ensures Lower(Lower(s))[k] == Lower(s)[k]
    {
      assert LowerChar(LowerChar(s[k])) == LowerChar(s[k]);
    }
  }

  /** Categorisation ignores letter case: a method and its lower-cased form
      (for text other than "--", which has no letters) get the same category. */
  lemma CategorizeIgnoresCase(s: string)
    requires s != "--"
    ensures CategorizeMethod(Text(Lower(s))) == CategorizeMethod(Text(s))
  {
    LowerIdempotent(s);
  }

  /** The values `calc_historical_avg` writes: the shifted rolling mean over the
      group's last `window` rows, with undefined entries taking that column's mean. */
  function HistoricalAvg(keys: Column, vals: Column, window: nat): (r: Column)
    requires |keys| == |vals|
    ensures |r| == |keys|
  {
    var avg := History(keys, vals, Rolling(window));
    FillCol(avg, Mean(avg))
  }

  /** A shifted rolling mean is the mean of the defined values among the
      `window` same-slot rows immediately before row i; row i and later rows
      never contribute. */
  lemma RollingHistoryAt(keys: Column, vals: Column, window: nat, i: nat)
    requires |keys| == |vals| && i < |keys|
    ensures History(keys, vals, Rolling(window))[i] ==
      if keys[i].Missing? then Missing else Mean(LastK(Pick(vals, Before(keys, i)), window))
  {
    HistoryAt(keys, vals, Rolling(window), i);
    if !keys[i].Missing? {
      RollingAfterShift(Pick(vals, Before(keys, i)), window);
    }
  }

  /** What `calc_historical_avg` puts in row i: the window mean when it is
      defined, and otherwise the mean of the column's defined window means. */
  lemma HistoricalAvgAt(keys: Column, vals: Column, window: nat, i: nat)
    requires |keys| == |vals| && i < |keys|
    ensures var w := if keys[i].Missing? then Missing else Mean(LastK(Pick(vals, Before(keys, i)), window));
      HistoricalAvg(keys, vals, window)[i] ==
        if w != Missing then w else Mean(History(keys, vals, Rolling(window)))
  {
    RollingHistoryAt(keys, vals, window, i);
  }

  /** `calc_historical_avg(df, n, stat, window)`: writes the average column once
      with the shifted rolling means, then once more with its gaps filled by
      its own mean. No other column changes. */
  method CalcHistoricalAvg(f: Frame, n: nat, stat: string, window: nat := 3)
    requires f.Valid() && SlotName(n, "name") in f.cols && SlotName(n, stat) in f.cols
    modifies f
    ensures f.Valid() && f.rows == old(f.rows)
    ensures f.cols == old(f.cols)[AvgName(n, stat, window) :=
      HistoricalAvg(old(f.cols)[SlotName(n, "name")], old(f.cols)[SlotName(n, stat)], window)]
  {
    var name := AvgName(n, stat, window);
    var avg := History(f.cols[SlotName(n, "name")], f.cols[SlotName(n, stat)], Rolling(window));
    f.Set(name, avg);
    f.Set(name, FillCol(f.cols[name], Mean(f.cols[name])));
  }
}
