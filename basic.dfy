/** The basic bout features: calendar month, ages, the title flag, the stance
    matchup, the date sort, the slot-1 minus slot-2 differences, and per slot
    the gap since the previous bout, the bout count and the career length. */
module Basic {
  import opened Cells
  import opened Text
  import opened Frames
  import opened Order
  import opened Groups
  import opened Calendar

  // ---------------------------------------------------------------------------
  // Row-wise features (lines 9-23)

  /** The calendar month of a day number counted from 1970-01-01, by the
      proleptic Gregorian civil-from-days conversion. */
  function MonthOfDay(day: int): (m: int)
    ensures 1 <= m <= 12
  {
    var z := day + 719468;
    var era := z / 146097;
    var doe := z - era * 146097;
    assert 0 <= doe < 146097;
    var yoe := (doe - doe / 1460 + doe / 36524 - doe / 146096) / 365;
    assert 0 <= yoe <= 399;
    DayOfYearNear(doe, yoe);
    var doy := doe - (365 * yoe + yoe / 4 - yoe / 100);
    var mp := (5 * doy + 2) / 153;
    if mp < 10 then mp + 3 else mp - 9
  }

  /** The day of the year within the 400-year era stays close to 0..365;
      the slack is enough to keep the month in range. */
  lemma DayOfYearNear(doe: int, yoe: int)
    requires 0 <= doe < 146097
    requires yoe == (doe - doe / 1460 + doe / 36524 - doe / 146096) / 365
    ensures -61 <= doe - (365 * yoe + yoe / 4 - yoe / 100) <= 366
  {
    var a, b, c := doe / 1460, doe / 36524, doe / 146096;
    assert 1460 * a <= doe < 1460 * a + 1460;
    assert 36524 * b <= doe < 36524 * b + 36524;
    assert 146096 * c <= doe < 146096 * c + 146096;
    assert 365 * yoe <= doe - a + b - c < 365 * yoe + 365;
    var y4, y100 := yoe / 4, yoe / 100;
    assert 4 * y4 <= yoe < 4 * y4 + 4;
    assert 100 * y100 <= yoe < 100 * y100 + 100;
  }

  /** The conversion gives back the month of every civil date: the day number
      of y-m-d, as the reference calendar counts it, has month m. */
  lemma MonthOfCivil(y: int, m: int, d: int)
    requires 1 <= m <= 12 && 1 <= d <= DaysInMonth(y, m)
    ensures MonthOfDay(DaysFromCivil(y, m, d)) == m
  {
    var yp := if m <= 2 then y - 1 else y;
    var mp := if m >= 3 then m - 3 else m + 9;
    var doy := (153 * mp + 2) / 5 + d - 1;
    var day := DaysFromCivil(y, m, d);
    CivilFromMarch(y, m, d);
    var era, yoe := yp / 400, yp % 400;
    EraSplit(yp);
    MarchDayRange(mp, d, IsLeap(y));
    if m == 2 && IsLeap(y) {
      LeapOfEraYear(y, yp, era, yoe);
    }
    var doe := 365 * yoe + yoe / 4 - yoe / 100 + doy;
    YearOfEra(yoe, doy);
    assert day + 719468 == 146097 * era + doe;
    MonthOfMarchDay(mp, d, IsLeap(y));
    MonthOfDaySteps(day, era, doe, yoe, doy, mp);
  }

  /** The month conversion step by step: with the era, day of era, year of
      era, day of year and March-based month index it computes, the month is
      mp + 3 from March on and mp - 9 in January and February. */
  lemma MonthOfDaySteps(day: int, era: int, doe: int, yoe: int, doy: int, mp: int)
    requires day + 719468 == 146097 * era + doe && 0 <= doe < 146097
    requires yoe == (doe - doe / 1460 + doe / 36524 - doe / 146096) / 365
    requires doy == doe - (365 * yoe + yoe / 4 - yoe / 100)
    requires mp == (5 * doy + 2) / 153
    ensures MonthOfDay(day) == if mp < 10 then mp + 3 else mp - 9
  {
    assert (day + 719468) / 146097 == era;
  }

  /** The day number of y-m-d, shifted to count from 0000-03-01, splits into
      whole March-based years yp and the day doy within year yp. */
  lemma CivilFromMarch(y: int, m: int, d: int)
    requires 1 <= m <= 12
    ensures var yp := if m <= 2 then y - 1 else y;
      var mp := if m >= 3 then m - 3 else m + 9;
      DaysFromCivil(y, m, d) + 719468 == 365 * yp + Leaps(yp) + (153 * mp + 2) / 5 + d - 1
  {
    LeapsStep(y);
    if m >= 3 {
      DaysBeforeMarchMonth(y, m);
    } else {
      assert DaysBeforeMonth(y, 2) == 31;
    }
  }

  /** Whole 400-year eras of 146097 days, and the years yoe of the last one. */
  lemma EraSplit(yp: int)
    ensures 365 * yp + Leaps(yp) == 146097 * (yp / 400) + 365 * (yp % 400) + (yp % 400) / 4 - (yp % 400) / 100
  {
    var era, yoe := yp / 400, yp % 400;
    assert yp == 400 * era + yoe;
    assert yp / 4 == 100 * era + yoe / 4;
    assert yp / 100 == 4 * era + yoe / 100;
  }

  /** The day within a March-based year is 0..364, or 365 on a leap day. */
  lemma MarchDayRange(mp: int, d: int, leap: bool)
    requires 0 <= mp <= 11 && 1 <= d
    requires d <= (if mp == 11 then (if leap then 29 else 28)
                   else if mp == 1 || mp == 3 || mp == 6 || mp == 8 then 30 else 31)
    ensures 0 <= (153 * mp + 2) / 5 + d - 1 <= 365
    ensures (153 * mp + 2) / 5 + d - 1 == 365 ==> mp == 11 && leap
  {
  }

  /** The year after the March-based year yoe of an era is a leap year in the
      era's terms when the civil year y it falls in is one. */
  lemma LeapOfEraYear(y: int, yp: int, era: int, yoe: int)
    requires yp == y - 1 && era == yp / 400 && yoe == yp % 400 && IsLeap(y)
    ensures (yoe + 1) % 4 == 0 && ((yoe + 1) % 100 != 0 || yoe == 399)
  {
    var w := yoe + 1;
    assert y == 400 * era + w && 1 <= w <= 400;
    EraResidues(era, w);
  }

  /** Adding whole eras keeps the residues modulo 4 and 100, and a year
      w in 1..400 of an era is a multiple of 400 only as w = 400. */
  lemma EraResidues(era: int, w: int)
    requires 1 <= w <= 400
    ensures (400 * era + w) % 4 == w % 4 && (400 * era + w) % 100 == w % 100
    ensures (400 * era + w) % 400 == 0 <==> w == 400
  {
    var y := 400 * era + w;
    assert y == 4 * (100 * era + w / 4) + w % 4;
    assert y == 100 * (4 * era + w / 100) + w % 100;
    assert y == 400 * era + w % 400 + 400 * (w / 400);
  }

  /** Hinnant's year-of-era step inverts the day count of an era: from the day
      of era of day doy of year yoe it recovers yoe. */
  lemma YearOfEra(yoe: int, doy: int)
    requires 0 <= yoe <= 399 && 0 <= doy <= 365
    requires doy == 365 ==> (yoe + 1) % 4 == 0 && ((yoe + 1) % 100 != 0 || yoe == 399)
    ensures var doe := 365 * yoe + yoe / 4 - yoe / 100 + doy;
      0 <= doe < 146097 && (doe - doe / 1460 + doe / 36524 - doe / 146096) / 365 == yoe
  {
    var c, b, a := yoe / 100, (yoe % 100) / 4, yoe % 4;
    YearOfEraParts(yoe);
    YearOfEraBlocks(c, b, a, doy);
    var doe := 365 * yoe + yoe / 4 - yoe / 100 + doy;
    assert doe == 36524 * c + 1461 * b + 365 * a + doy;
  }

  /** The year-of-era step on the day of era of day doy of year
      100 * c + 4 * b + a, written in centuries, four-year blocks and years. */
  lemma YearOfEraBlocks(c: int, b: int, a: int, doy: int)
    requires 0 <= c <= 3 && 0 <= b <= 24 && 0 <= a <= 3 && 0 <= doy <= 365
    requires doy == 365 ==> a == 3 && (b != 24 || c == 3)
    ensures var doe := 36524 * c + 1461 * b + 365 * a + doy;
      0 <= doe < 146097 && (doe - doe / 1460 + doe / 36524 - doe / 146096) / 365 == 100 * c + 4 * b + a
  {
    var t := 365 * a + doy;
    var delta := if 24 * c + b + t >= 1460 then 1 else 0;
    EraDivisions(c, b, a, doy);
    var doe := 36524 * c + 1461 * b + 365 * a + doy;
    var x := doe - doe / 1460 + doe / 36524 - doe / 146096;
    assert x == 365 * (100 * c + 4 * b + a) + doy - delta;
    DivByYear(x, 100 * c + 4 * b + a);
  }

  /** A count of days between 365 * k and 365 * k + 364 is in year k. */
  lemma DivByYear(x: int, k: int)
    requires 365 * k <= x < 365 * k + 365
    ensures x / 365 == k
  {
  }

  /** The year of era as centuries c, four-year blocks b and years a. */
  lemma YearOfEraParts(yoe: int)
    requires 0 <= yoe <= 399
    ensures var c, b, a := yoe / 100, (yoe % 100) / 4, yoe % 4;
      yoe == 100 * c + 4 * b + a && 0 <= c <= 3 && 0 <= b <= 24 && 0 <= a <= 3 &&
      yoe / 4 == 25 * c + b && yoe / 100 == c &&
      ((yoe + 1) % 4 == 0 <==> a == 3) && ((yoe + 1) % 100 == 0 <==> a == 3 && b == 24)
  {
  }

  /** The three divisions of the year-of-era step on the day of era of day
      doy of year 100 * c + 4 * b + a. */
  lemma EraDivisions(c: int, b: int, a: int, doy: int)
    requires 0 <= c <= 3 && 0 <= b <= 24 && 0 <= a <= 3 && 0 <= doy <= 365
    requires doy == 365 ==> a == 3 && (b != 24 || c == 3)
    ensures var t := 365 * a + doy;
      var doe := 36524 * c + 1461 * b + t;
      var top := if c == 3 && b == 24 && t == 1460 then 1 else 0;
      doe / 1460 == 25 * c + b + (if 24 * c + b + t >= 1460 then 1 else 0) &&
      doe / 36524 == c + top && doe / 146096 == top
  {
    var t := 365 * a + doy;
    assert t <= 1460;
    var doe := 36524 * c + 1461 * b + t;
    assert doe == 1460 * (25 * c + b) + 24 * c + b + t;
    assert doe == 36524 * c + 1461 * b + t;
  }

  /** The March-based month index mp is recovered from its day of year. */
  lemma MonthOfMarchDay(mp: int, d: int, leap: bool)
    requires 0 <= mp <= 11 && 1 <= d
    requires d <= (if mp == 11 then (if leap then 29 else 28)
                   else if mp == 1 || mp == 3 || mp == 6 || mp == 8 then 30 else 31)
    ensures (5 * ((153 * mp + 2) / 5 + d - 1) + 2) / 153 == mp
  {
  }

  /** `DATE.dt.month`: NaN for a missing date. */
  function MonthCol(dates: Column): (r: Column)
    ensures |r| == |dates|
    ensures forall i :: 0 <= i < |dates| ==> (r[i] != Missing <==> dates[i].Date?)
    ensures forall i :: 0 <= i < |dates| && r[i] != Missing ==> r[i].Num? && 1.0 <= r[i].x <= 12.0
  {
    seq(|dates|, i requires 0 <= i < |dates| =>
      if dates[i].Date? then Num(MonthOfDay(dates[i].day) as real) else Missing)
  }

  /** A bout dated y-m-d gets month m. */
  lemma MonthColAt(dates: Column, i: nat, y: int, m: int, d: int)
    requires i < |dates| && 1 <= m <= 12 && 1 <= d <= DaysInMonth(y, m)
    requires dates[i] == Date(DaysFromCivil(y, m, d))
    ensures MonthCol(dates)[i] == Num(m as real)
  {
    MonthOfCivil(y, m, d);
  }

  /** `(DATE - dob).dt.days / 365.25`: age in years, NaN when either date is missing. */
  function AgeCol(dates: Column, dobs: Column): (r: Column)
    requires |dates| == |dobs|
    ensures |r| == |dates|
    ensures forall i :: 0 <= i < |dates| ==> (r[i] != Missing <==> dates[i].Date? && dobs[i].Date?)
    ensures forall i :: 0 <= i < |dates| && r[i] != Missing ==>
      r[i].Num? && r[i].x * 365.25 == (dates[i].day - dobs[i].day) as real
  {
    seq(|dates|, i requires 0 <= i < |dates| =>
      if dates[i].Date? && dobs[i].Date? then Num((dates[i].day - dobs[i].day) as real / 365.25) else Missing)
  }

  /** `isna().astype(int)`. */
  function UnknownCol(c: Column): (r: Column)
    ensures |r| == |c|
    ensures forall i :: 0 <= i < |c| ==> r[i] == Flag(c[i] == Missing)
  {
    seq(|c|, i requires 0 <= i < |c| => Flag(c[i] == Missing))
  }

  /** The age-unknown flag is 1 exactly when the bout date or the birth date is missing. */
  lemma AgeUnknownFlag(dates: Column, dobs: Column, i: nat)
    requires |dates| == |dobs| && i < |dates|
    ensures UnknownCol(AgeCol(dates, dobs))[i] == Num(1.0) <==> !dates[i].Date? || !dobs[i].Date?
    ensures UnknownCol(AgeCol(dates, dobs))[i] == Num(0.0) <==> dates[i].Date? && dobs[i].Date?
  {
  }

  /** `TIME FORMAT.str.contains('5 Rnd').astype(int)`: 1 for a five-round bout.
      A cell that is not text gives NaN, which `astype(int)` refuses, so then
      the whole column fails. */
  function TitleFlags(formats: Column): (r: Option<Column>)
    ensures r.Some? <==> forall i :: 0 <= i < |formats| ==> formats[i].Text?
    ensures r.Some? ==> |r.value| == |formats|
    ensures r.Some? ==> forall i :: 0 <= i < |formats| ==>
      (r.value[i] == Num(1.0) <==> Contains(formats[i].s, "5 Rnd")) &&
      (r.value[i] == Num(0.0) <==> !Contains(formats[i].s, "5 Rnd"))
  {
    if forall i :: 0 <= i < |formats| ==> formats[i].Text? then
      Some(seq(|formats|, i requires 0 <= i < |formats| =>
        Flag(formats[i].Text? && Contains(formats[i].s, "5 Rnd"))))
    else None
  }

  /** A stance with `fillna('Unknown')`. */
  function StanceOr(c: Cell): string
  {
    if c.Text? then c.s else "Unknown"
  }

  /** `stance1.fillna('Unknown') + '_vs_' + stance2.fillna('Unknown')`. */
  function MatchupCol(s1: Column, s2: Column): (r: Column)
    requires |s1| == |s2|
    ensures |r| == |s1|
    ensures forall i :: 0 <= i < |s1| ==> r[i] == Text(StanceOr(s1[i]) + "_vs_" + StanceOr(s2[i]))
  {
    seq(|s1|, i requires 0 <= i < |s1| => Text(StanceOr(s1[i]) + "_vs_" + StanceOr(s2[i])))
  }

  /** The matchup splits back into the two stances (missing ones read "Unknown")
      when neither stance holds the joiner. */
  lemma MatchupSplits(s1: Column, s2: Column, i: nat)
    requires |s1| == |s2| && i < |s1|
    requires !Contains(StanceOr(s1[i]) + "_vs", "_vs_") && !Contains(StanceOr(s2[i]), "_vs_")
    ensures Split(MatchupCol(s1, s2)[i].s, "_vs_") == [StanceOr(s1[i]), StanceOr(s2[i])]
  {
    var a := StanceOr(s1[i]);
    var b := StanceOr(s2[i]);
    assert "_vs_"[..3] == "_vs";
    NoStartBeforeSep(a, b, "_vs_");
    SplitPair(a, b, "_vs_");
  }

  // ---------------------------------------------------------------------------
  // The date sort (line 26)

  /** The row order of `sort_values('DATE')`: stable, missing dates last. */
  function SortOrder(dates: Column): (r: seq<nat>)
    ensures |r| == |dates| && InRange(r, |dates|)
  {
    StableSort(dates, Iota(|dates|))
  }

  /** After the sort the dates ascend (missing last), every row appears exactly
      once, and rows of equal date keep their original order. */
  lemma SortedTable(cols: map<string, Column>, rows: nat)
    requires Shaped(cols, rows) && "DATE" in cols
    ensures var order := SortOrder(cols["DATE"]);
      var out := TakeRows(cols, rows, order);
      DateSorted(out["DATE"]) && multiset(order) == multiset(Iota(rows)) && StableBy(cols["DATE"], order)
  {
    var dates := cols["DATE"];
    var order := SortOrder(dates);
    SortOrdersTable(dates);
    assert TakeRows(cols, rows, order)["DATE"] == Pick(dates, order);
  }

  // ---------------------------------------------------------------------------
  // Differences between the slots (lines 29-33)

  /** `(a | b).astype(int)` on two 0/1 columns. */
  function OrCol(a: Column, b: Column): (r: Column)
    requires |a| == |b|
    ensures |r| == |a|
    ensures forall i :: 0 <= i < |a| ==> r[i] == Flag(a[i] == Num(1.0) || b[i] == Num(1.0))
  {
    seq(|a|, i requires 0 <= i < |a| => Flag(a[i] == Num(1.0) || b[i] == Num(1.0)))
  }

  /** Swapping the slots negates every difference. */
  lemma DiffSwap(a: Column, b: Column, i: nat)
    requires |a| == |b| && i < |a|
    ensures MinusCol(a, b)[i].Num? <==> MinusCol(b, a)[i].Num?
    ensures MinusCol(a, b)[i].Num? ==> MinusCol(a, b)[i].x == -MinusCol(b, a)[i].x
  {
  }

  /** `age_diff_unknown` is 1 exactly when either age is unknown, which is
      exactly when `age_diff` is missing. */
  lemma AgeDiffUnknown(dates: Column, dob1: Column, dob2: Column, i: nat)
    requires |dates| == |dob1| == |dob2| && i < |dates|
    ensures var age1 := AgeCol(dates, dob1);
      var age2 := AgeCol(dates, dob2);
      var flag := OrCol(UnknownCol(age1), UnknownCol(age2))[i];
      (flag == Num(1.0) <==> age1[i] == Missing || age2[i] == Missing) &&
      (flag == Num(1.0) <==> MinusCol(age1, age2)[i] == Missing)
  {
    var age1 := AgeCol(dates, dob1);
    var age2 := AgeCol(dates, dob2);
    AgeUnknownFlag(dates, dob1, i);
    AgeUnknownFlag(dates, dob2, i);
  }

  // ---------------------------------------------------------------------------
  // Per-slot group features (lines 36-53)

  /** `groupby(name)['DATE'].diff().dt.days`, then `fillna` with the median gap,
      or 180 when no gap is defined. */
  function DaysSince(keys: Column, dates: Column): (r: Column)
    requires |keys| == |dates|
    ensures |r| == |keys|
  {
    var gaps := GroupApply(keys, dates, Diff);
    FillCol(gaps, Num(MedianOr(gaps, 180.0)))
  }

  /** At a row with an earlier bout in its slot group the value is the day gap
      to that bout; at a group's first row (or a row without a name) it is the
      median of the defined gaps, or 180. */
  lemma DaysSinceAt(keys: Column, dates: Column, i: nat)
    requires |keys| == |dates| && i < |keys|
    ensures var gaps := GroupApply(keys, dates, Diff);
      var prev := PrevInGroup(keys, dates, keys[i], i);
      (!keys[i].Missing? && dates[i].Date? && prev.Date? ==>
        DaysSince(keys, dates)[i] == Num((dates[i].day - prev.day) as real)) &&
      (keys[i].Missing? || Before(keys, i) == [] ==>
        DaysSince(keys, dates)[i] == Num(MedianOr(gaps, 180.0)))
  {
    var gaps := GroupApply(keys, dates, Diff);
    if !keys[i].Missing? {
      DiffAt(keys, dates, i);
    }
  }

  /** On a date-sorted table a gap is never negative. */
  lemma GapNonnegative(keys: Column, dates: Column, i: nat)
    requires |keys| == |dates| && i < |keys| && !keys[i].Missing?
    requires DateSorted(dates) && dates[i].Date? && Before(keys, i) != []
    ensures GroupApply(keys, dates, Diff)[i].Num? && GroupApply(keys, dates, Diff)[i].x >= 0.0
  {
    DiffAt(keys, dates, i);
    PrevNotLater(keys, dates, i);
    NonnegativeGap(dates[i], PrevInGroup(keys, dates, keys[i], i));
  }

  /** On a date-sorted table the slot's previous bout is no later than this one. */
  lemma PrevNotLater(keys: Column, dates: Column, i: nat)
    requires |keys| == |dates| && i < |keys| && !keys[i].Missing?
    requires DateSorted(dates) && Before(keys, i) != []
    ensures DateLe(PrevInGroup(keys, dates, keys[i], i), dates[i])
  {
    var b := Before(keys, i);
    var j := b[|b| - 1];
    assert j < i;
    assert PrevInGroup(keys, dates, keys[i], i) == dates[j];
  }

  lemma NonnegativeGap(a: Cell, b: Cell)
    requires a.Date? && DateLe(b, a)
    ensures Minus(a, b).Num? && Minus(a, b).x >= 0.0
  {
  }

  /** `groupby(name).cumcount() + 1`. */
  function TotalFights(keys: Column): (r: Column)
    ensures |r| == |keys|
  {
    var counts := GroupApply(keys, keys, CumCount);
    seq(|keys|, i requires 0 <= i < |keys| => if counts[i].Num? then Num(counts[i].x + 1.0) else Missing)
  }

  /** The bout count is the row's 1-based position in its slot group: it counts
      this bout and the earlier bouts in the same slot only. */
  lemma TotalFightsAt(keys: Column, i: nat)
    requires i < |keys| && !keys[i].Missing?
    ensures TotalFights(keys)[i] == Num(|Before(keys, i)| as real + 1.0)
  {
    CumCountAt(keys, keys, i);
  }

  /** Along a slot group the count goes up by at least one from bout to bout. */
  lemma TotalFightsGrow(keys: Column, j: nat, i: nat)
    requires j < i < |keys| && !keys[i].Missing? && keys[j] == keys[i]
    ensures TotalFights(keys)[j].x + 1.0 <= TotalFights(keys)[i].x
  {
    TotalFightsAt(keys, i);
    TotalFightsAt(keys, j);
    BeforeGrows(keys, j, i);
  }

  /** A later bout of the same slot group has more earlier bouts. */
  lemma BeforeGrows(keys: Column, j: nat, i: nat)
    requires j < i < |keys| && !keys[i].Missing? && keys[j] == keys[i]
    ensures |Before(keys, j)| + 1 <= |Before(keys, i)|
  {
    var key := keys[i];
    MembersGrow(keys, key, j + 1, i);
    assert Members(keys, key, j + 1) == Members(keys, key, j) + [j];
  }

  /** `(DATE - groupby(name)['DATE'].transform('min')).dt.days`. */
  function DaysInUfc(keys: Column, dates: Column): (r: Column)
    requires |keys| == |dates|
    ensures |r| == |keys|
  {
    MinusCol(dates, GroupMinDate(keys, dates))
  }

  /** On a date-sorted table the career length is the gap to the group's first
      bout: at least 0, and 0 on that first bout. */
  lemma DaysInUfcAt(keys: Column, dates: Column, i: nat)
    requires |keys| == |dates| && i < |keys| && !keys[i].Missing?
    requires DateSorted(dates) && dates[i].Date?
    ensures var g := Group(keys, i);
      DaysInUfc(keys, dates)[i] == Num((dates[i].day - dates[g[0]].day) as real) &&
      DaysInUfc(keys, dates)[i].x >= 0.0 &&
      (Before(keys, i) == [] ==> DaysInUfc(keys, dates)[i].x == 0.0)
  {
    GroupMinIsFirst(keys, dates, i);
    var g := Group(keys, i);
    if g[0] < i {
      assert DateLe(dates[g[0]], dates[i]);
    }
  }

  // ---------------------------------------------------------------------------
  // The stage as a whole

  /** The columns the stage reads. */
  predicate BasicReady(cols: map<string, Column>, rows: nat)
  {
    Shaped(cols, rows) &&
    "DATE" in cols && "TIME FORMAT" in cols &&
    "fighter1_dob" in cols && "fighter2_dob" in cols &&
    "fighter1_stance" in cols && "fighter2_stance" in cols &&
    "fighter1_height" in cols && "fighter2_height" in cols &&
    "fighter1_weight" in cols && "fighter2_weight" in cols &&
    "fighter1_reach" in cols && "fighter2_reach" in cols &&
    "fighter1_name" in cols && "fighter2_name" in cols
  }

  /** Lines 9-23, given the title flags. */
  function RowFeatures(cols: map<string, Column>, rows: nat, titles: Column): (r: map<string, Column>)
    requires BasicReady(cols, rows) && |titles| == rows
    ensures BasicReady(r, rows)
  {
    var dates := cols["DATE"];
    var age1 := AgeCol(dates, cols["fighter1_dob"]);
    var age2 := AgeCol(dates, cols["fighter2_dob"]);
    cols["month" := MonthCol(dates)]
        ["fighter1_age" := age1]
        ["fighter2_age" := age2]
        ["fighter1_age_unknown" := UnknownCol(age1)]
        ["fighter2_age_unknown" := UnknownCol(age2)]
        ["is_title_fight" := titles]
        ["stance_matchup" := MatchupCol(cols["fighter1_stance"], cols["fighter2_stance"])]
  }

  /** The columns written by lines 9-23, which the later steps read. */
  predicate PairReady(cols: map<string, Column>, rows: nat)
  {
    BasicReady(cols, rows) &&
    "fighter1_age" in cols && "fighter2_age" in cols &&
    "fighter1_age_unknown" in cols && "fighter2_age_unknown" in cols
  }

  /** Line 26. */
  function Sorted(cols: map<string, Column>, rows: nat): (r: map<string, Column>)
    requires Shaped(cols, rows) && "DATE" in cols
    ensures Shaped(r, rows) && r.Keys == cols.Keys
  {
    TakeRows(cols, rows, SortOrder(cols["DATE"]))
  }

  /** Lines 29-33. */
  function PairFeatures(cols: map<string, Column>, rows: nat): (r: map<string, Column>)
    requires PairReady(cols, rows)
    ensures PairReady(r, rows)
  {
    cols["height_diff" := MinusCol(cols["fighter1_height"], cols["fighter2_height"])]
        ["weight_diff" := MinusCol(cols["fighter1_weight"], cols["fighter2_weight"])]
        ["reach_diff" := MinusCol(cols["fighter1_reach"], cols["fighter2_reach"])]
        ["age_diff" := MinusCol(cols["fighter1_age"], cols["fighter2_age"])]
        ["age_diff_unknown" := OrCol(cols["fighter1_age_unknown"], cols["fighter2_age_unknown"])]
  }

  /** Lines 36-55. */
  function SlotFeatures(cols: map<string, Column>, rows: nat): (r: map<string, Column>)
    requires BasicReady(cols, rows)
    ensures Shaped(r, rows)
  {
    var dates := cols["DATE"];
    var k1 := cols["fighter1_name"];
    var k2 := cols["fighter2_name"];
    var c1 := cols["fighter1_days_since_last_fight" := DaysSince(k1, dates)];
    ShapedSet(cols, rows, "fighter1_days_since_last_fight", DaysSince(k1, dates));
    var c2 := c1["fighter2_days_since_last_fight" := DaysSince(k2, dates)];
    ShapedSet(c1, rows, "fighter2_days_since_last_fight", DaysSince(k2, dates));
    var c3 := c2["fighter1_total_fights" := TotalFights(k1)];
    ShapedSet(c2, rows, "fighter1_total_fights", TotalFights(k1));
    var c4 := c3["fighter2_total_fights" := TotalFights(k2)];
    ShapedSet(c3, rows, "fighter2_total_fights", TotalFights(k2));
    var c5 := c4["fighter1_first_fight_date" := GroupMinDate(k1, dates)];
    ShapedSet(c4, rows, "fighter1_first_fight_date", GroupMinDate(k1, dates));
    var c6 := c5["fighter1_days_in_ufc" := DaysInUfc(k1, dates)];
    ShapedSet(c5, rows, "fighter1_days_in_ufc", DaysInUfc(k1, dates));
    var c7 := c6["fighter2_first_fight_date" := GroupMinDate(k2, dates)];
    ShapedSet(c6, rows, "fighter2_first_fight_date", GroupMinDate(k2, dates));
    var c8 := c7["fighter2_days_in_ufc" := DaysInUfc(k2, dates)];
    ShapedSet(c7, rows, "fighter2_days_in_ufc", DaysInUfc(k2, dates));
    c8 - {"fighter1_first_fight_date", "fighter2_first_fight_date"}
  }

  /** `create_basic_features` as a function of the table and the title flags. */
  function BasicSpec(cols: map<string, Column>, rows: nat, titles: Column): (r: map<string, Column>)
    requires BasicReady(cols, rows) && |titles| == rows
  {
    var r1 := RowFeatures(cols, rows, titles);
    var r2 := PairFeatures(Sorted(r1, rows), rows);
    SlotFeatures(r2, rows)
  }

  /** Lines 9-23; `ok` is false when the title flag cannot be computed. */
  method AddRowFeatures(f: Frame) returns (ok: bool)
    requires f.Valid() && BasicReady(f.cols, f.rows)
    modifies f
    ensures f.Valid() && f.rows == old(f.rows) && BasicReady(f.cols, f.rows)
    ensures var titles := TitleFlags(old(f.cols)["TIME FORMAT"]);
      ok == titles.Some? && (ok ==> f.cols == RowFeatures(old(f.cols), old(f.rows), titles.value))
  {
    var dates, dob1, dob2 := f.cols["DATE"], f.cols["fighter1_dob"], f.cols["fighter2_dob"];
    var format, stance1, stance2 := f.cols["TIME FORMAT"], f.cols["fighter1_stance"], f.cols["fighter2_stance"];
    f.Set("month", MonthCol(dates));
    var age1 := AgeCol(dates, dob1);
    f.Set("fighter1_age", age1);
    var age2 := AgeCol(dates, dob2);
    f.Set("fighter2_age", age2);
    f.Set("fighter1_age_unknown", UnknownCol(age1));
    f.Set("fighter2_age_unknown", UnknownCol(age2));
    var titles := TitleFlags(format);
    if titles.None? {
      return false;
    }
    f.Set("is_title_fight", titles.value);
    f.Set("stance_matchup", MatchupCol(stance1, stance2));
    return true;
  }

  /** Line 26: `df = df.sort_values('DATE').reset_index(drop=True)`. */
  method SortByDate(f: Frame)
    requires f.Valid() && "DATE" in f.cols
    modifies f
    ensures f.Valid() && f.rows == old(f.rows)
    ensures f.cols == Sorted(old(f.cols), old(f.rows))
  {
    var order := SortOrder(f.cols["DATE"]);
    f.Take(order);
  }

  /** Lines 29-33. */
  method AddPairFeatures(f: Frame)
    requires f.Valid() && PairReady(f.cols, f.rows)
    modifies f
    ensures f.Valid() && f.rows == old(f.rows)
    ensures f.cols == PairFeatures(old(f.cols), old(f.rows))
  {
    f.Set("height_diff", MinusCol(f.cols["fighter1_height"], f.cols["fighter2_height"]));
    f.Set("weight_diff", MinusCol(f.cols["fighter1_weight"], f.cols["fighter2_weight"]));
    f.Set("reach_diff", MinusCol(f.cols["fighter1_reach"], f.cols["fighter2_reach"]));
    f.Set("age_diff", MinusCol(f.cols["fighter1_age"], f.cols["fighter2_age"]));
    f.Set("age_diff_unknown", OrCol(f.cols["fighter1_age_unknown"], f.cols["fighter2_age_unknown"]));
  }

  /** Lines 36-55. */
  method AddSlotFeatures(f: Frame)
    requires f.Valid() && BasicReady(f.cols, f.rows)
    modifies f
    ensures f.Valid() && f.rows == old(f.rows)
    ensures f.cols == SlotFeatures(old(f.cols), old(f.rows))
  {
    var dates := f.cols["DATE"];
    var k1 := f.cols["fighter1_name"];
    var k2 := f.cols["fighter2_name"];
    f.Set("fighter1_days_since_last_fight", DaysSince(k1, dates));
    f.Set("fighter2_days_since_last_fight", DaysSince(k2, dates));
    f.Set("fighter1_total_fights", TotalFights(k1));
    f.Set("fighter2_total_fights", TotalFights(k2));
    f.Set("fighter1_first_fight_date", GroupMinDate(k1, dates));
    f.Set("fighter1_days_in_ufc", DaysInUfc(k1, dates));
    f.Set("fighter2_first_fight_date", GroupMinDate(k2, dates));
    f.Set("fighter2_days_in_ufc", DaysInUfc(k2, dates));
    f.Drop({"fighter1_first_fight_date", "fighter2_first_fight_date"});
  }

  /** `create_basic_features(df)`; `ok` is false where the title flag step raises. */
  method CreateBasicFeatures(f: Frame) returns (ok: bool)
    requires f.Valid() && BasicReady(f.cols, f.rows)
    modifies f
    ensures f.Valid() && f.rows == old(f.rows)
    ensures var titles := TitleFlags(old(f.cols)["TIME FORMAT"]);
      ok == titles.Some? && (ok ==> f.cols == BasicSpec(old(f.cols), old(f.rows), titles.value))
  {
    ok := AddRowFeatures(f);
    if !ok {
      return;
    }
    SortByDate(f);
    AddPairFeatures(f);
    AddSlotFeatures(f);
  }
}
