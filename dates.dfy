/** Calendar days as the JavaScript `Date` and date-fns code uses them, with one abstract
    calendar day per date (no time of day, no time zone). A day is the number of days since
    1970-01-01; a month is an absolute month index `year * 12 + month` with months counted
    from 0 as `Date.getMonth()` does, so that `new Date(y, m, 1)` with an out-of-range `m`
    normalises exactly as JavaScript does. */
module Dates {

  /** A calendar day: the number of days since 1970-01-01, which was a Thursday. */
  type Day = int

  /** `Date.getDay()`: 0 is Sunday, 6 is Saturday. */
  function Weekday(d: Day): (w: nat)
    ensures w < 7
  {
    (d + 4) % 7
  }

  /** The long English weekday names, indexed by `Weekday`. */
  const WeekdayNames: seq<string> :=
    ["Sunday", "Monday", "Tuesday", "Wednesday", "Thursday", "Friday", "Saturday"]

  /** `date.toLocaleDateString('en-US', { weekday: 'long' })`. */
  function WeekdayName(d: Day): (name: string)
  {
    WeekdayNames[Weekday(d)]
  }

  lemma WeekdayNamesDistinct()
    ensures |WeekdayNames| == 7
    ensures forall i, j :: 0 <= i < j < |WeekdayNames| ==> WeekdayNames[i] != WeekdayNames[j]
  {
  }

  /** Two days have the same weekday name exactly when they have the same weekday. */
  lemma WeekdayNameIff(d: Day, e: Day)
    ensures WeekdayName(d) == WeekdayName(e) <==> Weekday(d) == Weekday(e)
  {
    WeekdayNamesDistinct();
  }

  lemma WeekdayPeriodic(d: Day, k: int)
    ensures Weekday(d + 7 * k) == Weekday(d)
  {
  }

  lemma WeekdaySucc(d: Day)
    ensures Weekday(d + 1) == (Weekday(d) + 1) % 7
  {
  }

  /** date-fns `startOfWeek(d, { weekStartsOn })`: the latest day on or before `d`
      whose weekday is `weekStartsOn`. */
  function StartOfWeek(d: Day, weekStartsOn: nat): (s: Day)
    requires weekStartsOn < 7
    ensures s <= d < s + 7
    ensures Weekday(s) == weekStartsOn
  {
    d - (Weekday(d) - weekStartsOn + 7) % 7
  }

  /** date-fns `endOfWeek(d, { weekStartsOn })`, as a day. */
  function EndOfWeek(d: Day, weekStartsOn: nat): (e: Day)
    requires weekStartsOn < 7
    ensures e - 7 < d <= e
    ensures Weekday(e) == (weekStartsOn + 6) % 7
  {
    StartOfWeek(d, weekStartsOn) + 6
  }

  // ----- The proleptic Gregorian calendar -----

  predicate IsLeapYear(y: int) {
    y % 4 == 0 && (y % 100 != 0 || y % 400 == 0)
  }

  /** The year of an absolute month index (floor division, as JavaScript normalises months). */
  function YearOf(am: int): int {
    am / 12
  }

  /** The month, 0 to 11, of an absolute month index. */
  function MonthOf(am: int): (m: nat)
    ensures m < 12
  {
    am % 12
  }

  function DaysInMonthOfYear(y: int, m: nat): (n: int)
    requires m < 12
    ensures 28 <= n <= 31
    ensures n == 29 <==> m == 1 && IsLeapYear(y)
    ensures n == 28 <==> m == 1 && !IsLeapYear(y)
  {
    if m == 1 then (if IsLeapYear(y) then 29 else 28)
    else if m == 3 || m == 5 || m == 8 || m == 10 then 30
    else 31
  }

  /** The number of days of a month, also the day of month of its last day. */
  function DaysInMonth(am: int): (n: int)
    ensures 28 <= n <= 31
  {
    DaysInMonthOfYear(YearOf(am), MonthOf(am))
  }

  /** Days from 1970-01-01 to January 1 of year `y`. */
  function DaysBeforeYear(y: int): int {
    365 * (y - 1) + (y - 1) / 4 - (y - 1) / 100 + (y - 1) / 400 - 719162
  }

  /** Days from January 1 to the first of month `m` of year `y`. */
  function DaysBeforeMonth(y: int, m: nat): int
    requires m < 12
  {
    if m == 0 then 0 else DaysBeforeMonth(y, m - 1) + DaysInMonthOfYear(y, m - 1)
  }

  /** The first day of an absolute month: `new Date(year, month, 1)`. */
  function FirstOfMonth(am: int): Day {
    DaysBeforeYear(YearOf(am)) + DaysBeforeMonth(YearOf(am), MonthOf(am))
  }

  lemma YearLength(y: int)
    ensures DaysBeforeYear(y + 1) == DaysBeforeYear(y) + (if IsLeapYear(y) then 366 else 365)
  {
    assert y / 4 - (y - 1) / 4 == (if y % 4 == 0 then 1 else 0);
    assert y / 100 - (y - 1) / 100 == (if y % 100 == 0 then 1 else 0);
    assert y / 400 - (y - 1) / 400 == (if y % 400 == 0 then 1 else 0);
  }

  /** Consecutive months are contiguous: a month ends the day before the next one starts. */
  lemma {:induction false} NextMonthStart(am: int)
    ensures FirstOfMonth(am + 1) == FirstOfMonth(am) + DaysInMonth(am)
  {
    var y, m := YearOf(am), MonthOf(am);
    if m < 11 {
      assert YearOf(am + 1) == y && MonthOf(am + 1) == m + 1;
    } else {
      assert YearOf(am + 1) == y + 1 && MonthOf(am + 1) == 0;
      YearLength(y);
      MonthsFillYear(y);
    }
  }

  /** The twelve months of a year add up to the year's length. */
  lemma MonthsFillYear(y: int)
    ensures DaysBeforeMonth(y, 11) + 31 == if IsLeapYear(y) then 366 else 365
  {
    var leap := if IsLeapYear(y) then 1 else 0;
    assert DaysBeforeMonth(y, 1) == 31;
    assert DaysBeforeMonth(y, 2) == 59 + leap;
    assert DaysBeforeMonth(y, 3) == 90 + leap;
    assert DaysBeforeMonth(y, 4) == 120 + leap;
    assert DaysBeforeMonth(y, 5) == 151 + leap;
    assert DaysBeforeMonth(y, 6) == 181 + leap;
    assert DaysBeforeMonth(y, 7) == 212 + leap;
    assert DaysBeforeMonth(y, 8) == 243 + leap;
    assert DaysBeforeMonth(y, 9) == 273 + leap;
    assert DaysBeforeMonth(y, 10) == 304 + leap;
    assert DaysBeforeMonth(y, 11) == 334 + leap;
  }

  /** Later months start later, by at least 28 days per month. */
  lemma {:induction false} FirstOfMonthGrows(a: int, b: int)
    requires a <= b
    ensures FirstOfMonth(a) + 28 * (b - a) <= FirstOfMonth(b)
    decreases b - a
  {
    if a < b {
      FirstOfMonthGrows(a, b - 1);
      NextMonthStart(b - 1);
    }
  }

  /** A calendar date: `year`, `month` from 0 (January) to 11, `day` of month from 1. */
  datatype Civil = Civil(year: int, month: int, day: int)
  {
    predicate Valid() {
      0 <= month < 12 && 1 <= day <= DaysInMonth(year * 12 + month)
    }

    function AbsMonth(): int {
      year * 12 + month
    }

    /** The calendar day this date names. */
    function ToDay(): Day {
      FirstOfMonth(AbsMonth()) + day - 1
    }
  }

  lemma AbsMonthParts(c: Civil)
    requires c.Valid()
    ensures YearOf(c.AbsMonth()) == c.year && MonthOf(c.AbsMonth()) == c.month
  {
  }

  /** A valid date's day lies inside its month. */
  lemma DayInsideMonth(c: Civil)
    requires c.Valid()
    ensures InMonth(c.ToDay(), c.AbsMonth())
  {
    NextMonthStart(c.AbsMonth());
  }

  /** Day `d` lies in the month with absolute index `am`. */
  predicate InMonth(d: Day, am: int) {
    FirstOfMonth(am) <= d < FirstOfMonth(am + 1)
  }

  /** Every day lies in at most one month. */
  lemma MonthOfDayUnique(a1: int, a2: int, d: Day)
    requires InMonth(d, a1) && InMonth(d, a2)
    ensures a1 == a2
  {
    if a1 < a2 {
      FirstOfMonthGrows(a1 + 1, a2);
    } else if a2 < a1 {
      FirstOfMonthGrows(a2 + 1, a1);
    }
  }

  /** Distinct valid dates name distinct days, so a date string is a faithful name for a day. */
  lemma ToDayInjective(c1: Civil, c2: Civil)
    requires c1.Valid() && c2.Valid()
    requires c1.ToDay() == c2.ToDay()
    ensures c1 == c2
  {
    DayInsideMonth(c1);
    DayInsideMonth(c2);
    MonthOfDayUnique(c1.AbsMonth(), c2.AbsMonth(), c1.ToDay());
    AbsMonthParts(c1);
    AbsMonthParts(c2);
  }

  /** Anchor: 1970-01-01 is day 0, a Thursday. */
  lemma EpochAnchor()
    ensures Civil(1970, 0, 1).ToDay() == 0 && WeekdayName(0) == "Thursday"
  {
    assert YearOf(23640) == 1970 && MonthOf(23640) == 0;
    assert DaysBeforeYear(1970) == 0;
    assert WeekdayNames[4] == "Thursday";
  }

  /** Anchor: 2025-01-06 is day 20094, a Monday. */
  lemma MondayAnchor()
    ensures Civil(2025, 0, 6).ToDay() == 20094 && WeekdayName(20094) == "Monday"
  {
    assert YearOf(24300) == 2025 && MonthOf(24300) == 0;
    assert DaysBeforeYear(2025) == 20089;
  }

  /** The three-letter weekday names, indexed by `Weekday` (`weekday: 'short'`). */
  const WeekdayShortNames: seq<string> := ["Sun", "Mon", "Tue", "Wed", "Thu", "Fri", "Sat"]

  lemma WeekdayShortNamesDistinct()
    ensures |WeekdayShortNames| == 7
    ensures forall i, j :: 0 <= i < j < 7 ==> WeekdayShortNames[i] != WeekdayShortNames[j]
  {
  }

  /** The three-letter month names, January first (`'MMM'`, `month: 'short'`). */
  const MonthShortNames: seq<string> :=
    ["Jan", "Feb", "Mar", "Apr", "May", "Jun", "Jul", "Aug", "Sep", "Oct", "Nov", "Dec"]

  lemma MonthShortNamesShape()
    ensures |MonthShortNames| == 12
    ensures forall i :: 0 <= i < 12 ==> |MonthShortNames[i]| == 3
    ensures forall i, j :: 0 <= i < j < 12 ==> MonthShortNames[i] != MonthShortNames[j]
  {
  }

  // ----- From a day back to its date -----

  /** The month holding `d`, searching forward from month `am`. */
  function MonthAtOrAfter(d: Day, am: int): (r: int)
    requires FirstOfMonth(am) <= d
    ensures InMonth(d, r)
    decreases d - FirstOfMonth(am)
  {
    NextMonthStart(am);
    if d < FirstOfMonth(am + 1) then am else MonthAtOrAfter(d, am + 1)
  }

  /** The month holding `d`, searching backward from month `am`. */
  function MonthBefore(d: Day, am: int): (r: int)
    requires d < FirstOfMonth(am + 1)
    ensures InMonth(d, r)
    decreases FirstOfMonth(am + 1) - d
  {
    NextMonthStart(am);
    if FirstOfMonth(am) <= d then am else MonthBefore(d, am - 1)
  }

  /** The absolute month holding day `d`. */
  function MonthContaining(d: Day): (am: int)
    ensures InMonth(d, am)
  {
    assert FirstOfMonth(23640) == 0 by {
      assert YearOf(23640) == 1970 && MonthOf(23640) == 0;
    }
    if 0 <= d then MonthAtOrAfter(d, 23640) else MonthBefore(d, 23639)
  }

  /** The month holding a day is the only month that does. */
  lemma MonthContainingIs(d: Day, am: int)
    requires InMonth(d, am)
    ensures MonthContaining(d) == am
  {
    MonthOfDayUnique(MonthContaining(d), am, d);
  }

  /** The date a day names: the inverse of `Civil.ToDay`. */
  function CivilOf(d: Day): (c: Civil)
    ensures c.Valid() && c.ToDay() == d
  {
    var am := MonthContaining(d);
    NextMonthStart(am);
    Civil(YearOf(am), MonthOf(am), d - FirstOfMonth(am) + 1)
  }

  /** Naming a valid date's day gives the date back. */
  lemma CivilOfToDay(c: Civil)
    requires c.Valid()
    ensures CivilOf(c.ToDay()) == c
  {
    ToDayInjective(CivilOf(c.ToDay()), c);
  }

  /** `date.getDate()`: the day of the month, from 1. */
  function DayOfMonth(d: Day): (n: int)
    ensures 1 <= n <= DaysInMonth(MonthContaining(d))
    ensures d == FirstOfMonth(MonthContaining(d)) + n - 1
  {
    NextMonthStart(MonthContaining(d));
    d - FirstOfMonth(MonthContaining(d)) + 1
  }
}
