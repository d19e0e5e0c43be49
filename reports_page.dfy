/** The reports page: each habit's completion rate since its start date, the label of its
    target days, and the average rate over all habits. */
module ReportsPage {
  import opened Dates
  import opened Habits
  import opened Numeric

  /** The days from the start date through today. */
  function SinceStart(h: Habit, today: Day): (ds: seq<Day>)
    ensures |ds| == DaysThrough(h.startDate, today)
  {
    DayRange(h.startDate, DaysThrough(h.startDate, today))
  }

  /** The target days from the start date through today. */
  function PossibleDays(h: Habit, today: Day): (n: nat)
    ensures n <= DaysThrough(h.startDate, today)
  {
    |Filter(TargetDay(h), SinceStart(h, today))|
  }

  /** `totalPossible`: a loop over the days from the start date through today that counts the
      target days. */
  method TotalPossible(h: Habit, today: Day) returns (count: nat)
    ensures count == PossibleDays(h, today)
  {
    count := 0;
    var d := h.startDate;
    ghost var n: nat := 0;
    while d <= today
      invariant d == h.startDate + n
      invariant d <= today + 1 || n == 0
      invariant count == |Filter(TargetDay(h), DayRange(h.startDate, n))|
      decreases today - d
    {
      TargetStep(h, h.startDate, n, d);
      if IsTargetDay(h, d) {
        count := count + 1;
      }
      d, n := d + 1, n + 1;
    }
  }

  /** The step of the loop: the next day adds one to the count when it is a target day. */
  lemma TargetStep(h: Habit, lo: Day, n: nat, d: Day)
    requires d == lo + n
    ensures |Filter(TargetDay(h), DayRange(lo, n + 1))|
         == |Filter(TargetDay(h), DayRange(lo, n))| + (if IsTargetDay(h, d) then 1 else 0)
  {
    DayRangeSnoc(lo, n);
    FilterSnoc(TargetDay(h), DayRange(lo, n), d);
    assert TargetDay(h)(d) == IsTargetDay(h, d);
  }

  /** A habit that targets every day of the week can complete every day since its start. */
  lemma EveryDayTargeted(h: Habit, today: Day)
    requires forall w :: w in WeekdayNames ==> w in h.targetDays
    ensures PossibleDays(h, today) == DaysThrough(h.startDate, today)
  {
    FilterAll(TargetDay(h), SinceStart(h, today));
  }

  /** A habit that targets no weekday name has nothing to complete. */
  lemma NoDayTargeted(h: Habit, today: Day)
    requires forall w :: w in WeekdayNames ==> w !in h.targetDays
    ensures PossibleDays(h, today) == 0
  {
    FilterNone(TargetDay(h), SinceStart(h, today));
  }

  /** `getCompletionRate` as written: all recorded completions over the target days since the
      start date, rounded, or 0 when there are none. Nothing caps the result at 100. */
  function GetCompletionRate(h: Habit, today: Day): (r: int)
    ensures r >= 0
    ensures PossibleDays(h, today) == 0 ==> r == 0
    ensures |h.completedDates| <= PossibleDays(h, today) ==> r <= 100
    ensures 0 < PossibleDays(h, today) == |h.completedDates| ==> r == 100
  {
    var possible := PossibleDays(h, today);
    if possible > 0 then Percent(|h.completedDates|, possible) else 0
  }

  /** The rate of the source can pass 100%: a habit targeting Mondays only, started on Monday
      2025-01-06 and also completed on Tuesday 2025-01-07 (the card's header checkbox toggles
      today whatever the day), reports 200% on that Tuesday. */
  lemma CompletionRateExceeds100()
    ensures GetCompletionRate(Example(), 20095) == 200
  {
    var h := Example();
    MondayAnchor();
    assert WeekdayName(20095) == "Tuesday";
    var ds := SinceStart(h, 20095);
    assert ds == [20094, 20095];
    FilterSnoc(TargetDay(h), [20094], 20095);
    FilterSnoc(TargetDay(h), [], 20094);
    assert [] + [20094] == [20094];
    assert Filter(TargetDay(h), ds) == [20094];
    assert Ratio100(2, 1) == 200.0;
  }

  /** The habit of `CompletionRateExceeds100`. */
  function Example(): (h: Habit)
    ensures h.startDate == 20094 && |h.completedDates| == 2
  {
    Habit("h1", "Run", ["Monday"], 20094, [20094, 20095], map[], 0, 0, "2025-01-06")
  }

  /** The completed target days from the start date through today. */
  function CompletedTargetDays(h: Habit, today: Day): (n: nat)
    ensures n <= PossibleDays(h, today)
  {
    |Filter(CompletedOn(h), Filter(TargetDay(h), SinceStart(h, today)))|
  }

  /** The rate the page evidently means: completed target days since the start date over all
      target days since then, which stays within [0, 100]. */
  function CompletionRate(h: Habit, today: Day): (r: int)
    ensures 0 <= r <= 100
    ensures PossibleDays(h, today) == 0 ==> r == 0
  {
    var possible := PossibleDays(h, today);
    if possible > 0 then Percent(CompletedTargetDays(h, today), possible) else 0
  }

  /** The corrected rate is 100 exactly when every target day so far is completed. */
  lemma CompletionRateFull(h: Habit, today: Day)
    requires PossibleDays(h, today) > 0
    requires forall d :: h.startDate <= d <= today && IsTargetDay(h, d) ==> IsCompletedOn(h, d)
    ensures CompletionRate(h, today) == 100
  {
    var ds := SinceStart(h, today);
    var targets := Filter(TargetDay(h), ds);
    FilterMembers(TargetDay(h), ds);
    DayRangeMembers(h.startDate, DaysThrough(h.startDate, today));
    FilterAll(CompletedOn(h), targets);
  }

  /** On the example habit the corrected rate reads 100%, not 200%. */
  lemma CompletionRateOnExample()
    ensures CompletionRate(Example(), 20095) == 100
  {
    var h := Example();
    MondayAnchor();
    assert WeekdayName(20095) == "Tuesday";
    var ds := SinceStart(h, 20095);
    assert ds == [20094, 20095];
    FilterSnoc(TargetDay(h), [20094], 20095);
    FilterSnoc(TargetDay(h), [], 20094);
    assert [] + [20094] == [20094];
    assert Filter(TargetDay(h), ds) == [20094];
    FilterSnoc(CompletedOn(h), [], 20094);
  }

  // ----- Target-day labels -----

  const Weekdays: seq<string> := ["Monday", "Tuesday", "Wednesday", "Thursday", "Friday"]
  const Weekends: seq<string> := ["Saturday", "Sunday"]

  /** `getTargetDaysLabel`. */
  function GetTargetDaysLabel(targetDays: seq<string>): (kind: string)
    ensures kind == "Weekdays" <==> |targetDays| == 5 && forall w :: w in Weekdays ==> w in targetDays
    ensures kind == "Weekends" <==> |targetDays| == 2 && forall w :: w in Weekends ==> w in targetDays
    ensures kind == "Custom" <==> kind != "Weekdays" && kind != "Weekends"
  {
    if |targetDays| == 5 && forall w :: w in Weekdays ==> w in targetDays then "Weekdays"
    else if |targetDays| == 2 && forall w :: w in Weekends ==> w in targetDays then "Weekends"
    else "Custom"
  }

  /** Listing the same days in another order does not change the label. */
  lemma LabelIgnoresOrder(a: seq<string>, b: seq<string>)
    requires |a| == |b| && forall w :: w in a <==> w in b
    ensures GetTargetDaysLabel(a) == GetTargetDaysLabel(b)
  {
  }

  // ----- The average over all habits -----

  function Sum(xs: seq<int>): int {
    if xs == [] then 0 else Sum(xs[..|xs| - 1]) + xs[|xs| - 1]
  }

  lemma {:induction false} SumBounds(xs: seq<int>, lo: int, hi: int)
    requires forall i :: 0 <= i < |xs| ==> lo <= xs[i] <= hi
    ensures lo * |xs| <= Sum(xs) <= hi * |xs|
  {
    if xs != [] {
      SumBounds(xs[..|xs| - 1], lo, hi);
    }
  }

  /** `Math.round(sum / count)`, or 0 for no values. */
  function Average(xs: seq<int>): (r: int)
    ensures |xs| == 0 ==> r == 0
  {
    if |xs| > 0 then Round(Sum(xs) as real / |xs| as real) else 0
  }

  /** The rounded average keeps any bounds of the values (bounds around 0, the value for no
      values). */
  lemma AverageWithin(xs: seq<int>, lo: int, hi: int)
    requires lo <= 0 <= hi
    requires forall i :: 0 <= i < |xs| ==> lo <= xs[i] <= hi
    ensures lo <= Average(xs) <= hi
  {
    if xs == [] { return; }
    SumBounds(xs, lo, hi);
    var n := |xs| as real;
    var s := Sum(xs) as real;
    assert lo as real * n <= s <= hi as real * n;
    QuotientWithin(s, n, lo as real, hi as real);
    RoundWithin(s / n, lo, hi);
  }

  /** Each habit's rate as the page computes it (`getCompletionRate`), in the order of the
      habits. */
  function Rates(habits: seq<Habit>, today: Day): (rs: seq<int>)
    ensures |rs| == |habits|
    ensures forall i :: 0 <= i < |rs| ==> rs[i] == GetCompletionRate(habits[i], today)
  {
    seq(|habits|, i requires 0 <= i < |habits| => GetCompletionRate(habits[i], today))
  }

  /** The rounded mean of non-negative values is non-negative. */
  lemma {:induction false} AverageNonNegative(xs: seq<int>)
    requires forall i :: 0 <= i < |xs| ==> 0 <= xs[i]
    ensures 0 <= Average(xs)
  {
    if xs != [] {
      SumNonNegative(xs);
      QuotientNonNegative(Sum(xs) as real, |xs| as real);
    }
  }

  lemma {:induction false} SumNonNegative(xs: seq<int>)
    requires forall i :: 0 <= i < |xs| ==> 0 <= xs[i]
    ensures 0 <= Sum(xs)
  {
    if xs != [] {
      SumNonNegative(xs[..|xs| - 1]);
    }
  }

  lemma QuotientNonNegative(s: real, n: real)
    requires 0.0 <= s && 0.0 < n
    ensures 0.0 <= s / n
  {
  }

  /** No habit has more recorded completions than target days since its start. */
  predicate NoOvercount(habits: seq<Habit>, today: Day) {
    forall i :: 0 <= i < |habits| ==> |habits[i].completedDates| <= PossibleDays(habits[i], today)
  }

  /** `totalCompletionRate` as written: the rounded mean of the page's per-habit rates, or 0
      without habits. It is never negative, and it stays within 100 as long as no habit has
      more recorded completions than target days since its start; otherwise it can pass 100
      like the rates it averages. */
  function TotalCompletionRate(habits: seq<Habit>, today: Day): (r: int)
    ensures r >= 0
    ensures habits == [] ==> r == 0
    ensures NoOvercount(habits, today) ==> r <= 100
  {
    var rs := Rates(habits, today);
    AverageNonNegative(rs);
    if NoOvercount(habits, today) then
      AverageWithin(rs, 0, 100);
      Average(rs)
    else
      Average(rs)
  }

  /** The habit of `CompletionRateExceeds100` alone makes the page's total 200%. */
  lemma TotalCompletionRateExceeds100()
    ensures TotalCompletionRate([Example()], 20095) == 200
  {
    CompletionRateExceeds100();
    var rs := Rates([Example()], 20095);
    assert rs == [200];
    assert Sum(rs) == 200;
  }

  /** Each habit's corrected rate, in the order of the habits. */
  function CorrectedRates(habits: seq<Habit>, today: Day): (rs: seq<int>)
    ensures |rs| == |habits|
    ensures forall i :: 0 <= i < |rs| ==> rs[i] == CompletionRate(habits[i], today)
  {
    seq(|habits|, i requires 0 <= i < |habits| => CompletionRate(habits[i], today))
  }

  /** The total the page evidently means: the rounded mean of the corrected rates, which is
      a percentage whatever the habits. */
  function TotalCompletionRateCorrected(habits: seq<Habit>, today: Day): (r: int)
    ensures 0 <= r <= 100
    ensures habits == [] ==> r == 0
  {
    var rs := CorrectedRates(habits, today);
    AverageWithin(rs, 0, 100);
    Average(rs)
  }

  /** With every target day so far completed by every habit, the corrected total is 100. */
  lemma {:induction false} CorrectedTotalFull(habits: seq<Habit>, today: Day)
    requires habits != []
    requires forall i :: 0 <= i < |habits| ==> PossibleDays(habits[i], today) > 0
    requires forall i, d :: 0 <= i < |habits| && habits[i].startDate <= d <= today && IsTargetDay(habits[i], d)
               ==> IsCompletedOn(habits[i], d)
    ensures TotalCompletionRateCorrected(habits, today) == 100
  {
    var rs := CorrectedRates(habits, today);
    forall i | 0 <= i < |habits|
      ensures rs[i] == 100
    {
      CompletionRateFull(habits[i], today);
    }
    AverageOfHundreds(rs);
  }

  /** Averaging values that are all 100 gives 100. */
  lemma AverageOfHundreds(xs: seq<int>)
    requires xs != [] && forall i :: 0 <= i < |xs| ==> xs[i] == 100
    ensures Average(xs) == 100
  {
    SumBounds(xs, 100, 100);
    var n := |xs| as real;
    assert Sum(xs) as real == 100.0 * n;
    assert Sum(xs) as real / n == 100.0;
  }
}
