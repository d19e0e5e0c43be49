/** The habit card: per-day status, the week strip and its navigation, the weekly progress
    percentage, the trend series for the card's week / month / year tabs, and the footer. */
module HabitCard {
  import opened Dates
  import opened Habits
  import opened Numeric

  // ----- Per-day status and toggling -----

  datatype DateStatus = Future | Completed | Missed | Inactive

  /** `getDateStatus`: future first, then completed, then a missed target day, else inactive.
      The start date plays no part: a target day before the start date reads as missed. */
  function GetDateStatus(h: Habit, d: Day, today: Day): (s: DateStatus)
    ensures s == Future <==> d > today
    ensures s == Completed <==> d <= today && IsCompletedOn(h, d)
    ensures s == Missed <==> d <= today && !IsCompletedOn(h, d) && IsTargetDay(h, d)
    ensures s == Inactive <==> d <= today && !IsCompletedOn(h, d) && !IsTargetDay(h, d)
  {
    if d > today then Future
    else if IsCompletedOn(h, d) then Completed
    else if IsTargetDay(h, d) then Missed
    else Inactive
  }

  /** A completed day reports "completed" even when it is not a target day. */
  lemma CompletedBeatsTarget(h: Habit, d: Day, today: Day)
    requires d <= today && IsCompletedOn(h, d) && !IsTargetDay(h, d)
    ensures GetDateStatus(h, d, today) == Completed
  {
  }

  /** `handleToggleDay`: the date whose completion is toggled, or nothing for a future date. */
  function HandleToggleDay(d: Day, today: Day): (toggled: Option<Day>)
    ensures toggled == None <==> d > today
    ensures toggled != None ==> toggled == Some(d)
  {
    if d > today then None else Some(d)
  }

  // ----- The week strip -----

  /** The week shown on the card: seven days from a Monday, moved a week at a time. */
  class WeekView {
    var weekStart: Day

    ghost predicate Valid()
      reads this
    {
      WeekdayName(weekStart) == "Monday"
    }

    /** `weekDates`: the seven consecutive days of the shown week. */
    function WeekDates(): (ds: seq<Day>)
      reads this
      ensures |ds| == 7
      ensures forall i :: 0 <= i < 7 ==> ds[i] == weekStart + i
    {
      var start := weekStart;
      seq(7, i => start + i)
    }

    /** The initial state: the week (Monday to Sunday) that contains today. */
    constructor (today: Day)
      ensures Valid()
      ensures weekStart == StartOfWeek(today, 1)
      ensures today in WeekDates()
    {
      weekStart := StartOfWeek(today, 1);
      new;
      assert WeekDates()[today - weekStart] == today;
    }

    method PreviousWeek()
      requires Valid()
      modifies this
      ensures Valid()
      ensures weekStart == old(weekStart) - 7
    {
      WeekdayPeriodic(weekStart, -1);
      weekStart := weekStart - 7;
    }

    method NextWeek()
      requires Valid()
      modifies this
      ensures Valid()
      ensures weekStart == old(weekStart) + 7
    {
      WeekdayPeriodic(weekStart, 1);
      weekStart := weekStart + 7;
    }

    method GoToCurrentWeek(today: Day)
      modifies this
      ensures Valid()
      ensures weekStart == StartOfWeek(today, 1)
      ensures today in WeekDates()
    {
      weekStart := StartOfWeek(today, 1);
      assert WeekDates()[today - weekStart] == today;
    }
  }

  /** One step back and one step forward return to the same week. */
  method WeekNavigationRoundTrip(v: WeekView)
    requires v.Valid()
    modifies v
    ensures v.Valid() && v.weekStart == old(v.weekStart)
  {
    v.PreviousWeek();
    v.NextWeek();
  }

  // ----- Completion rates over lists of days -----

  /** How many days of `ds` are eligible: target days, on or after the start date and not in
      the future. */
  function EligibleTotal(h: Habit, ds: seq<Day>, today: Day): (n: nat)
    ensures n <= |ds|
  {
    |Filter(Eligible(h, today), ds)|
  }

  /** How many eligible days of `ds` are completed. */
  function EligibleDone(h: Habit, ds: seq<Day>, today: Day): (n: nat)
    ensures n <= EligibleTotal(h, ds, today)
  {
    |Filter(CompletedOn(h), Filter(Eligible(h, today), ds))|
  }

  /** `total > 0 ? Math.round((completed / total) * 100) : 0`. */
  function RateOf(completed: nat, total: nat): (r: int)
    ensures completed <= total ==> 0 <= r <= 100
    ensures total == 0 || completed == 0 ==> r == 0
    ensures 0 < total == completed ==> r == 100
  {
    if total > 0 then Percent(completed, total) else 0
  }

  /** The completion rate of a list of days: the rounded percentage of its eligible days that
      are completed, or 0 when it has none. */
  function WindowRate(h: Habit, ds: seq<Day>, today: Day): (r: int)
    ensures 0 <= r <= 100
  {
    RateOf(EligibleDone(h, ds, today), EligibleTotal(h, ds, today))
  }

  /** Extending a list by one day adds that day to the counts when it is eligible. */
  lemma TallySnoc(h: Habit, ds: seq<Day>, d: Day, today: Day)
    ensures EligibleTotal(h, ds + [d], today)
         == EligibleTotal(h, ds, today) + (if IsEligible(h, d, today) then 1 else 0)
    ensures EligibleDone(h, ds + [d], today)
         == EligibleDone(h, ds, today) + (if IsEligible(h, d, today) && IsCompletedOn(h, d) then 1 else 0)
  {
    var e := Filter(Eligible(h, today), ds);
    FilterSnoc(Eligible(h, today), ds, d);
    assert Eligible(h, today)(d) == IsEligible(h, d, today);
    if IsEligible(h, d, today) {
      FilterSnoc(CompletedOn(h), e, d);
      assert CompletedOn(h)(d) == IsCompletedOn(h, d);
    } else {
      assert Filter(Eligible(h, today), ds + [d]) == e;
    }
  }

  /** A list with no eligible day (all in the future, say) has rate 0. */
  lemma NoEligibleDayIsZero(h: Habit, ds: seq<Day>, today: Day)
    requires forall d :: d in ds ==> !IsEligible(h, d, today)
    ensures EligibleTotal(h, ds, today) == 0
    ensures WindowRate(h, ds, today) == 0
  {
    FilterNone(Eligible(h, today), ds);
  }

  /** A list whose eligible days are all completed, with at least one of them, has rate 100. */
  lemma AllEligibleDoneIsHundred(h: Habit, ds: seq<Day>, today: Day, w: Day)
    requires w in ds && IsEligible(h, w, today)
    requires forall d :: d in ds && IsEligible(h, d, today) ==> IsCompletedOn(h, d)
    ensures WindowRate(h, ds, today) == 100
  {
    var e := Filter(Eligible(h, today), ds);
    FilterMembers(Eligible(h, today), ds);
    assert w in e;
    FilterAll(CompletedOn(h), e);
  }

  /** A list none of whose eligible days is completed has rate 0. */
  lemma NoneDoneIsZero(h: Habit, ds: seq<Day>, today: Day)
    requires forall d :: d in ds && IsEligible(h, d, today) ==> !IsCompletedOn(h, d)
    ensures WindowRate(h, ds, today) == 0
  {
    var e := Filter(Eligible(h, today), ds);
    FilterMembers(Eligible(h, today), ds);
    FilterNone(CompletedOn(h), e);
  }

  /** Completing one more day never lowers a list's rate. */
  lemma CompletingRaisesRate(h: Habit, ds: seq<Day>, today: Day, d: Day)
    ensures WindowRate(h, ds, today)
         <= WindowRate(h.(completedDates := h.completedDates + [d]), ds, today)
  {
    var h' := h.(completedDates := h.completedDates + [d]);
    FilterAgree(Eligible(h', today), Eligible(h, today), ds);
    var e := Filter(Eligible(h, today), ds);
    FilterWeaker(CompletedOn(h), CompletedOn(h'), e);
    var t := EligibleTotal(h, ds, today);
    if t > 0 {
      PercentMonotone(EligibleDone(h, ds, today), EligibleDone(h', ds, today), t);
    }
  }

  // ----- Weekly progress -----

  /** `completionPercentage`: the rounded share of the shown week's eligible days that are
      completed, or 0 when the week has none. */
  function CompletionPercentage(h: Habit, weekStart: Day, today: Day): (p: int)
    ensures 0 <= p <= 100
  {
    WindowRate(h, DayRange(weekStart, 7), today)
  }

  /** A week entirely after today shows 0%. */
  lemma FutureWeekIsZero(h: Habit, weekStart: Day, today: Day)
    requires weekStart > today
    ensures CompletionPercentage(h, weekStart, today) == 0
  {
    DayRangeMembers(weekStart, 7);
    NoEligibleDayIsZero(h, DayRange(weekStart, 7), today);
  }

  // ----- The trend series of the card's analytics tabs -----

  datatype CardRange = WeekRange | MonthRange | YearRange

  /** A point of the week tab: 100 for a completed target day on or after the start date,
      otherwise 0. No future check is needed, as every point is on or before today. */
  function WeekPoint(h: Habit, d: Day): (v: int)
    ensures v == 0 || v == 100
    ensures !IsTargetDay(h, d) || d < h.startDate ==> v == 0
  {
    if !IsTargetDay(h, d) || d < h.startDate then 0
    else if IsCompletedOn(h, d) then 100 else 0
  }

  /** A week-tab point is the rate of its single day: the three tabs measure alike. */
  lemma WeekPointIsOneDayRate(h: Habit, d: Day, today: Day)
    requires d <= today
    ensures WeekPoint(h, d) == WindowRate(h, [d], today)
  {
    TallySnoc(h, [], d, today);
    assert [] + [d] == [d];
  }

  /** The days of the month with absolute index `am`. */
  function MonthDays(am: int): (ds: seq<Day>)
    ensures |ds| == DaysInMonth(am)
  {
    DayRange(FirstOfMonth(am), DaysInMonth(am))
  }

  /** The counting loop of one 7-day bucket of the month tab. */
  method CountWeekBucket(h: Habit, weekStart: Day, today: Day) returns (completed: nat, total: nat)
    ensures total == EligibleTotal(h, DayRange(weekStart, 7), today)
    ensures completed == EligibleDone(h, DayRange(weekStart, 7), today)
  {
    completed, total := 0, 0;
    for j := 0 to 7
      invariant total == EligibleTotal(h, DayRange(weekStart, j), today)
      invariant completed == EligibleDone(h, DayRange(weekStart, j), today)
    {
      var d := weekStart + j;
      RangeStep(h, weekStart, j, d, today);
      if d <= today && IsTargetDay(h, d) && h.startDate <= d {
        total := total + 1;
        if IsCompletedOn(h, d) { completed := completed + 1; }
      }
    }
  }

  /** Extending a run of consecutive days by its next day adds that day to the counts when it
      is eligible: the step of every counting loop over a run of days. */
  lemma RangeStep(h: Habit, lo: Day, n: nat, d: Day, today: Day)
    requires d == lo + n
    ensures EligibleTotal(h, DayRange(lo, n + 1), today)
         == EligibleTotal(h, DayRange(lo, n), today) + (if IsEligible(h, d, today) then 1 else 0)
    ensures EligibleDone(h, DayRange(lo, n + 1), today)
         == EligibleDone(h, DayRange(lo, n), today)
            + (if IsEligible(h, d, today) && IsCompletedOn(h, d) then 1 else 0)
  {
    DayRangeSnoc(lo, n);
    TallySnoc(h, DayRange(lo, n), d, today);
  }

  /** The counting loop of one month bucket of the year tab over the month of `len` days
      that starts on `first`: days 1 to 31, stopping at the first day past the month's end or
      past today. */
  method CountMonthBucket(h: Habit, first: Day, len: nat, today: Day) returns (completed: nat, total: nat)
    requires len <= 31
    ensures total == EligibleTotal(h, DayRange(first, len), today)
    ensures completed == EligibleDone(h, DayRange(first, len), today)
  {
    completed, total := 0, 0;
    var d := 1;
    ghost var n: nat := 0;
    while d <= 31
      invariant d == n + 1 && n <= len
      invariant total == EligibleTotal(h, DayRange(first, n), today)
      invariant completed == EligibleDone(h, DayRange(first, n), today)
    {
      var day := first + d - 1;
      if d > len || day > today {
        break;
      }
      RangeStep(h, first, n, day, today);
      if IsTargetDay(h, day) && h.startDate <= day {
        total := total + 1;
        if IsCompletedOn(h, day) { completed := completed + 1; }
      }
      d, n := d + 1, n + 1;
    }
    // The days not visited are past the month's end or all after today.
    SkippedDaysCount(h, first, n, len - n, today);
  }

  /** Days after today add nothing to the counts of the days before them. */
  lemma SkippedDaysCount(h: Habit, lo: Day, a: nat, b: nat, today: Day)
    requires b > 0 ==> lo + a > today
    ensures EligibleTotal(h, DayRange(lo, a + b), today) == EligibleTotal(h, DayRange(lo, a), today)
    ensures EligibleDone(h, DayRange(lo, a + b), today) == EligibleDone(h, DayRange(lo, a), today)
  {
    var p := Eligible(h, today);
    var front, back := DayRange(lo, a), DayRange(lo + a, b);
    DayRangeSplit(lo, a, b);
    DayRangeMembers(lo + a, b);
    FilterAppend(p, front, back);
    FilterNone(p, back);
    assert Filter(p, front + back) == Filter(p, front);
  }

  /** The week tab: one point per day for the last seven days, oldest first. */
  method WeekCompletionData(h: Habit, t: Day) returns (data: seq<int>)
    ensures |data| == 7
    ensures forall i :: 0 <= i < 7 ==> data[i] == WeekPoint(h, t - 6 + i)
  {
    var days: seq<Day> := [];
    var i := 6;
    while i >= 0
      invariant -1 <= i <= 6
      invariant |days| == 6 - i
      invariant forall k :: 0 <= k < |days| ==> days[k] == t - 6 + k
    {
      days := days + [t - i];
      i := i - 1;
    }
    data := [];
    for idx := 0 to 7
      invariant |data| == idx
      invariant forall k :: 0 <= k < idx ==> data[k] == WeekPoint(h, days[k])
    {
      data := data + [WeekPoint(h, days[idx])];
    }
  }

  /** The month tab: four consecutive 7-day buckets ending today, oldest first. */
  method MonthCompletionData(h: Habit, t: Day) returns (data: seq<int>)
    ensures |data| == 4
    ensures forall i :: 0 <= i < 4 ==> data[i] == WindowRate(h, DayRange(t - 27 + 7 * i, 7), t)
  {
    var weekStarts: seq<Day> := [];
    var i := 27;
    while i >= 0
      invariant -1 <= i <= 27 && i == 27 - 7 * |weekStarts|
      invariant forall k :: 0 <= k < |weekStarts| ==> weekStarts[k] == t - 27 + 7 * k
    {
      weekStarts := weekStarts + [t - i];
      i := i - 7;
    }
    data := [];
    for idx := 0 to 4
      invariant |data| == idx
      invariant forall k :: 0 <= k < idx ==> data[k] == WindowRate(h, DayRange(weekStarts[k], 7), t)
    {
      var completed, total := CountWeekBucket(h, weekStarts[idx], t);
      data := data + [RateOf(completed, total)];
    }
  }

  /** The year tab: the twelve months ending with the current one, oldest first. */
  method YearCompletionData(h: Habit, currentMonth: int, t: Day) returns (data: seq<int>)
    ensures |data| == 12
    ensures forall i :: 0 <= i < 12 ==> data[i] == WindowRate(h, MonthDays(currentMonth - 11 + i), t)
  {
    var months: seq<int> := [];
    var i := 11;
    while i >= 0
      invariant -1 <= i <= 11
      invariant |months| == 11 - i
      invariant forall k :: 0 <= k < |months| ==> months[k] == currentMonth - 11 + k
    {
      months := months + [currentMonth - i];
      i := i - 1;
    }
    data := [];
    for idx := 0 to 12
      invariant |data| == idx
      invariant forall k :: 0 <= k < idx ==> data[k] == WindowRate(h, MonthDays(months[k]), t)
    {
      var completed, total := CountMonthBucket(h, FirstOfMonth(months[idx]), DaysInMonth(months[idx]), t);
      data := data + [RateOf(completed, total)];
    }
  }

  /** `getCompletionData(range)`: 7 daily points, 4 weekly buckets or 12 monthly buckets,
      oldest first. `thisMonth` is the absolute index of today's month. */
  method GetCompletionData(h: Habit, range: CardRange, today: Day, thisMonth: int)
    returns (data: seq<int>)
    requires InMonth(today, thisMonth)
    ensures |data| == match range case WeekRange => 7 case MonthRange => 4 case YearRange => 12
    ensures forall i :: 0 <= i < |data| ==> 0 <= data[i] <= 100
    ensures range == WeekRange ==>
      forall i :: 0 <= i < 7 ==> data[i] == WeekPoint(h, today - 6 + i)
    ensures range == MonthRange ==>
      forall i :: 0 <= i < 4 ==> data[i] == WindowRate(h, DayRange(today - 27 + 7 * i, 7), today)
    ensures range == YearRange ==>
      forall i :: 0 <= i < 12 ==> data[i] == WindowRate(h, MonthDays(thisMonth - 11 + i), today)
  {
    match range {
      case WeekRange => data := WeekCompletionData(h, today);
      case MonthRange => data := MonthCompletionData(h, today);
      case YearRange => data := YearCompletionData(h, thisMonth, today);
    }
  }

  /** The last bucket of the year tab (`i == 11`) is the current month, which contains today. */
  lemma YearTabEndsWithThisMonth(today: Day, thisMonth: int)
    requires InMonth(today, thisMonth)
    ensures today in MonthDays(thisMonth)
  {
    NextMonthStart(thisMonth);
    DayRangeMembers(FirstOfMonth(thisMonth), DaysInMonth(thisMonth));
  }

  // ----- Header and footer -----

  /** date-fns `differenceInDays(now, start)`: whole days, truncated toward zero. `now` lies
      strictly inside `today`, after the start date's midnight when `start <= today` and
      before it otherwise, so a start date in the future loses the partial day. */
  function DaysSinceStart(h: Habit, today: Day): (n: int)
    ensures h.startDate <= today ==> n == today - h.startDate
    ensures h.startDate > today ==> n == today - h.startDate + 1 && n <= 0
  {
    if h.startDate <= today then today - h.startDate else today - h.startDate + 1
  }

  /** `Math.ceil(n / 7)`. */
  function CeilWeeks(n: int): (w: int)
    ensures 7 * w - 7 < n <= 7 * w
  {
    -((-n) / 7)
  }

  /** The footer's "N of M targets": `completedDates.length` of
      `targetDays.length * Math.ceil(daysSinceStart / 7)`. */
  function FooterTargets(h: Habit, today: Day): (r: (nat, int))
    ensures r.0 == |h.completedDates|
    ensures r.1 == |h.targetDays| * CeilWeeks(DaysSinceStart(h, today))
    ensures h.startDate <= today ==> r.1 >= 0
  {
    var w := CeilWeeks(DaysSinceStart(h, today));
    (|h.completedDates|, |h.targetDays| * w)
  }

  /** The footer counts every started week in full: in the first week after the start date,
      a habit with two target days already shows 2 targets. */
  lemma FooterCountsStartedWeeks(h: Habit, today: Day)
    requires h.startDate < today && h.startDate + 7 >= today
    ensures FooterTargets(h, today).1 == |h.targetDays|
  {
  }
}
