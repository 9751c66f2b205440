/** A reference proleptic Gregorian calendar, defined by counting: leap years,
    month lengths, and the day number of a civil date counted from 1970-01-01
    (the day numbers the `Date` cells hold). It is the independent definition
    against which the month extraction of the basic features is proved. */
module Calendar {

  predicate IsLeap(y: int)
  {
    y % 4 == 0 && (y % 100 != 0 || y % 400 == 0)
  }

  function DaysInMonth(y: int, m: int): (n: int)
    requires 1 <= m <= 12
    ensures 28 <= n <= 31
    ensures n == 29 <==> m == 2 && IsLeap(y)
  {
    if m == 2 then (if IsLeap(y) then 29 else 28)
    else if m == 4 || m == 6 || m == 9 || m == 11 then 30
    else 31
  }

  /** The days of year y in the months before month m. */
  function DaysBeforeMonth(y: int, m: int): (n: int)
    requires 1 <= m <= 12
  {
    if m == 1 then 0 else DaysBeforeMonth(y, m - 1) + DaysInMonth(y, m - 1)
  }

  /** The number of multiples of 4, less those of 100, plus those of 400, in 1..n. */
  function Leaps(n: int): int
  {
    n / 4 - n / 100 + n / 400
  }

  /** `Leaps` grows by one exactly at a leap year. */
  lemma LeapsStep(y: int)
    ensures Leaps(y) - Leaps(y - 1) == if IsLeap(y) then 1 else 0
  {
    StepDiv4(y);
    StepDiv100(y);
    StepDiv400(y);
    DivisorChain(y);
  }

  /** A multiple of 400 is one of 100, and a multiple of 100 is one of 4. */
  lemma DivisorChain(y: int)
    ensures y % 400 == 0 ==> y % 100 == 0
    ensures y % 100 == 0 ==> y % 4 == 0
  {
    if y % 400 == 0 {
      var k := y / 400;
      assert y == 400 * k;
      assert y / 100 == 4 * k;
    }
    if y % 100 == 0 {
      var k := y / 100;
      assert y == 100 * k;
      assert y / 4 == 25 * k;
    }
  }

  /** Floor division by 4 steps up by one exactly at a multiple of 4. */
  lemma StepDiv4(y: int)
    ensures (y - 1) / 4 == if y % 4 == 0 then y / 4 - 1 else y / 4
  {
    assert y == 4 * (y / 4) + y % 4;
  }

  /** Floor division by 100 steps up by one exactly at a multiple of 100. */
  lemma StepDiv100(y: int)
    ensures (y - 1) / 100 == if y % 100 == 0 then y / 100 - 1 else y / 100
  {
    assert y == 100 * (y / 100) + y % 100;
  }

  /** Floor division by 400 steps up by one exactly at a multiple of 400. */
  lemma StepDiv400(y: int)
    ensures (y - 1) / 400 == if y % 400 == 0 then y / 400 - 1 else y / 400
  {
    assert y == 400 * (y / 400) + y % 400;
  }

  /** The day number of January 1 of year y. */
  function DaysBeforeYear(y: int): int
  {
    365 * (y - 1970) + Leaps(y - 1) - Leaps(1969)
  }

  /** A year has 366 days when it is a leap year and 365 otherwise. */
  lemma YearLength(y: int)
    ensures DaysBeforeYear(y + 1) - DaysBeforeYear(y) == if IsLeap(y) then 366 else 365
  {
    LeapsStep(y);
  }

  /** The day number of the civil date y-m-d, counted from 1970-01-01. */
  function DaysFromCivil(y: int, m: int, d: int): int
    requires 1 <= m <= 12
  {
    DaysBeforeYear(y) + DaysBeforeMonth(y, m) + d - 1
  }

  /** Day 0 is 1970-01-01. */
  lemma Epoch()
    ensures DaysFromCivil(1970, 1, 1) == 0
  {
  }

  /** The first of a month follows the last day of the month before. */
  lemma NextMonth(y: int, m: int)
    requires 1 <= m < 12
    ensures DaysFromCivil(y, m + 1, 1) == DaysFromCivil(y, m, DaysInMonth(y, m)) + 1
  {
  }

  /** January 1 follows December 31 of the year before. */
  lemma NextYear(y: int)
    ensures DaysFromCivil(y + 1, 1, 1) == DaysFromCivil(y, 12, 31) + 1
  {
    YearLength(y);
    DaysBeforeMarchMonth(y, 12);
  }

  /** From March on, the days before a month follow the month's position in a
      year that starts on March 1: (153 * (m - 3) + 2) / 5 days after the 59 or
      60 days of January and February. */
  lemma DaysBeforeMarchMonth(y: int, m: int)
    requires 3 <= m <= 12
    ensures DaysBeforeMonth(y, m) == (if IsLeap(y) then 60 else 59) + (153 * (m - 3) + 2) / 5
  {
    if m == 3 {
      assert DaysBeforeMonth(y, 2) == 31;
    } else {
      DaysBeforeMarchMonth(y, m - 1);
      assert (153 * (m - 3) + 2) / 5 - (153 * (m - 4) + 2) / 5 == DaysInMonth(y, m - 1);
    }
  }
}
