/** The calendar of `Calendar` against the Gregorian one, by closed forms that count days
    without the length of any month. */
module Gregorian {
  import opened Calendar
  import opened Keys

  /** Leap days in the years 1 to y. */
  function LeapsUpTo(y: nat): nat
  {
    y / 4 - y / 100 + y / 400
  }

  /** Days from 1 January 1970 to 1 January of year y. */
  function DaysToYear(y: nat): int
    requires 1970 <= y
  {
    365 * (y - 1970) + LeapsUpTo(y - 1) - 477
  }

  predicate IsLeap(y: nat)
  {
    y % 4 == 0 && (y % 100 != 0 || y % 400 == 0)
  }

  lemma Step4(y: nat)
    requires 0 < y
    ensures y / 4 == (y - 1) / 4 + if y % 4 == 0 then 1 else 0
  {
  }

  lemma Step100(y: nat)
    requires 0 < y
    ensures y / 100 == (y - 1) / 100 + if y % 100 == 0 then 1 else 0
  {
  }

  lemma Step400(y: nat)
    requires 0 < y
    ensures y / 400 == (y - 1) / 400 + if y % 400 == 0 then 1 else 0
  {
  }

  lemma HundredsDivide(k: nat)
    ensures 100 * k % 100 == 0
  {
  }

  lemma FoursDivide(k: nat)
    ensures 4 * k % 4 == 0
  {
  }

  lemma CenturiesAreFourths(y: nat)
    ensures y % 400 == 0 ==> y % 100 == 0
    ensures y % 100 == 0 ==> y % 4 == 0
  {
    HundredsDivide(4 * (y / 400));
    FoursDivide(25 * (y / 100));
  }

  lemma LeapStep(y: nat)
    requires 0 < y
    ensures LeapsUpTo(y) == LeapsUpTo(y - 1) + if IsLeap(y) then 1 else 0
  {
    Step4(y);
    Step100(y);
    Step400(y);
    CenturiesAreFourths(y);
  }

  /** The year and the month within it of month 12 * n + j. */
  lemma MonthInYear(n: nat, j: nat)
    requires j < 12
    ensures (12 * n + j) / 12 == n && (12 * n + j) % 12 == j
  {
  }

  /** January and February. */
  lemma YearOpens(n: nat)
    ensures MonthStart(12 * n + 2) == MonthStart(12 * n) + 86400 * if IsLeap(1970 + n) then 60 else 59
  {
    MonthInYear(n, 0);
    MonthInYear(n, 1);
    assert MonthStart(12 * n + 1) == MonthStart(12 * n) + 31 * 86400;
  }

  lemma NextBegins(k: nat)
    ensures MonthStart(k + 1) == MonthStart(k) + 86400 * DaysIn(k)
  {
  }

  /** March to December, and January. */
  lemma MonthLasts(n: nat, m: nat)
    requires 1 <= m <= 11
    ensures DaysIn(12 * n + 1 + m) == (153 * m + 2) / 5 - (153 * (m - 1) + 2) / 5
  {
    if m <= 10 {
      MonthInYear(n, m + 1);
    } else {
      MonthInYear(n + 1, 0);
    }
  }

  /** From March on the months of a year begin by the rule (153 * m + 2) / 5, which runs on
      into the January and February after it. */
  lemma {:induction false} MonthsFromMarch(n: nat, m: nat)
    requires m < 12
    ensures MonthStart(12 * n + 2 + m) == MonthStart(12 * n + 2) + 86400 * ((153 * m + 2) / 5)
  {
    if m == 0 {
    } else {
      MonthsFromMarch(n, m - 1);
      NextBegins(12 * n + 2 + (m - 1));
      MonthLasts(n, m);
    }
  }

  /** A year lasts 365 days, or 366. */
  lemma YearPasses(n: nat)
    ensures MonthStart(12 * (n + 1)) == MonthStart(12 * n) + 86400 * if IsLeap(1970 + n) then 366 else 365
  {
    YearOpens(n);
    MonthsFromMarch(n, 10);
    assert 12 * n + 2 + 10 == 12 * (n + 1);
  }

  /** Years begin where the leap days before them put them. */
  lemma {:induction false} YearsBegin(n: nat)
    ensures MonthStart(12 * n) == 86400 * DaysToYear(1970 + n)
  {
    if n == 0 {
      assert LeapsUpTo(1969) == 477;
    } else {
      YearsBegin(n - 1);
      YearPasses(n - 1);
      LeapStep(1969 + n);
    }
  }

  /** Days from 1 January 1970 to 1 March of year y. */
  function DaysToMarch(y: nat): int
    requires 1970 <= y
  {
    365 * (y - 1970) + LeapsUpTo(y) - 418
  }

  lemma MarchAfterJanuary(y: nat)
    requires 1970 <= y
    ensures DaysToMarch(y) == DaysToYear(y) + if IsLeap(y) then 60 else 59
  {
    LeapStep(y);
  }

  lemma DaysAdd(start: int, days: int, more: int)
    requires start == 86400 * days
    ensures start + 86400 * more == 86400 * (days + more)
  {
  }

  lemma FirstOfMarch(y: nat)
    requires 1970 <= y
    ensures MonthStart(12 * (y - 1970) + 2) == 86400 * DaysToMarch(y)
  {
    YearsBegin(y - 1970);
    YearOpens(y - 1970);
    MarchAfterJanuary(y);
    DaysAdd(MonthStart(12 * (y - 1970)), DaysToYear(y), if IsLeap(y) then 60 else 59);
  }

  /** Months begin where the Gregorian calendar puts them: month m counted from March of year
      y, of which 10 and 11 are January and February of the next. */
  lemma MonthsBegin(y: nat, m: nat)
    requires 1970 <= y && m < 12
    ensures MonthStart(12 * (y - 1970) + 2 + m)
         == 86400 * (DaysToMarch(y) + (153 * m + 2) / 5)
  {
    FirstOfMarch(y);
    MonthsFromMarch(y - 1970, m);
  }

  /** Days from 1 January 1970 to the first of month m, counted from 1, of year y. */
  function DaysTo(y: nat, m: nat): int
    requires 1970 <= y && 1 <= m <= 12
  {
    if m <= 2 then DaysToYear(y) + 31 * (m - 1)
    else DaysToMarch(y) + (153 * (m - 3) + 2) / 5
  }

  lemma FebruaryFollows(n: nat)
    ensures MonthStart(12 * n + 1) == MonthStart(12 * n) + 86400 * 31
  {
    NextBegins(12 * n);
    MonthInYear(n, 0);
  }

  lemma FirstOfMonth(y: nat, m: nat)
    requires 1970 <= y && 1 <= m <= 12
    ensures MonthStart(12 * (y - 1970) + m - 1) == 86400 * DaysTo(y, m)
  {
    if m <= 2 {
      YearsBegin(y - 1970);
      FebruaryFollows(y - 1970);
    } else {
      MonthsBegin(y, m - 3);
    }
  }

  lemma LeapsRepeat(y: nat)
    ensures LeapsUpTo(y + 400) == LeapsUpTo(y) + 97
  {
    assert (y + 400) / 4 == y / 4 + 100;
    assert (y + 400) / 100 == y / 100 + 4;
    assert (y + 400) / 400 == y / 400 + 1;
  }

  lemma DaysRepeat(y: nat, m: nat)
    requires 1970 <= y && 1 <= m <= 12
    ensures DaysTo(y + 400, m) == DaysTo(y, m) + 146097
  {
    LeapsRepeat(y);
    LeapsRepeat(y - 1);
  }

  lemma FourHundredYears(y: nat, m: nat)
    requires 1970 <= y && 1 <= m <= 12
    ensures MonthStart(12 * (y + 400 - 1970) + m - 1) == MonthStart(12 * (y - 1970) + m - 1) + 86400 * 146097
  {
    FirstOfMonth(y, m);
    FirstOfMonth(y + 400, m);
    DaysRepeat(y, m);
  }

  /** The calendar repeats itself every 400 years, which have 146097 days. */
  lemma FourCenturies(k: nat)
    ensures MonthStart(k + 4800) == MonthStart(k) + 86400 * 146097
  {
    FourHundredYears(1970 + k / 12, k % 12 + 1);
  }

  /** Days to the first of the month after. */
  function DaysToNext(y: nat, m: nat): int
    requires 1970 <= y && 1 <= m <= 12
  {
    if m == 12 then DaysTo(y + 1, 1) else DaysTo(y, m + 1)
  }

  lemma FirstOfNextMonth(y: nat, m: nat)
    requires 1970 <= y && 1 <= m <= 12
    ensures MonthStart(12 * (y - 1970) + m) == 86400 * DaysToNext(y, m)
  {
    if m == 12 {
      FirstOfMonth(y + 1, 1);
    } else {
      FirstOfMonth(y, m + 1);
    }
  }

  /** Month m of year y has the number 100 * y + m, in both spellings. */
  lemma PeriodOfMonth(y: nat, m: nat)
    requires 1970 <= y && 1 <= m <= 12
    ensures var k := 12 * (y - 1970) + m - 1;
            PeriodInt(k) == 100 * y + m && (y < 10000 ==> Number(Label(k)) == 100 * y + m)
  {
    MonthInYear(y - 1970, m - 1);
    if y < 10000 {
      LabelIsPeriodInt(12 * (y - 1970) + m - 1);
    }
  }

  /** A second between the firsts of two consecutive months of the calendar lies in the first
      of them. */
  lemma MonthOfDate(t: nat, y: nat, m: nat)
    requires 1970 <= y && 1 <= m <= 12
    requires 86400 * DaysTo(y, m) <= t < 86400 * DaysToNext(y, m)
    ensures Month(t) == 12 * (y - 1970) + m - 1
  {
    FirstOfMonth(y, m);
    FirstOfNextMonth(y, m);
    MonthUnique(12 * (y - 1970) + m - 1, t);
  }

  /** The days from the 120th to the 150th after 1 January 1970 are May 1970 ... */
  lemma May1970(t: nat)
    requires 86400 * 120 <= t < 86400 * 151
    ensures Month(t) == 4 && PeriodInt(4) == 197005
  {
    assert DaysTo(1970, 5) == 120 && DaysToNext(1970, 5) == 151;
    MonthOfDate(t, 1970, 5);
  }

  /** ... and those from the 20635th to the 20665th are July 2026. */
  lemma July2026(t: nat)
    requires 86400 * 20635 <= t < 86400 * 20666
    ensures Month(t) == 678 && PeriodInt(678) == 202607
  {
    assert DaysTo(2026, 7) == 20635 && DaysToNext(2026, 7) == 20666;
    MonthOfDate(t, 2026, 7);
  }
}
