/** The analytics page: the reporting window, each habit's counts over it, the overall rate,
    the last-seven-days series, the top-10 comparison, the per-weekday statistics and the
    best performer. */
module AnalyticsPage {
  import opened Dates
  import opened Habits
  import opened Numeric
  import opened Sorting

  datatype TimeRange = Week | Month | Quarter | Year | All

  // ----- The reporting window -----

  /** `dateRange.start`: 7, 30, 90 or 365 days before today, or the epoch for "all". */
  function WindowStart(range: TimeRange, today: Day): (start: Day)
    ensures range != All ==> start < today
    ensures range == All ==> start == 0
  {
    match range
    case Week => today - 7
    case Month => today - 30
    case Quarter => today - 90
    case Year => today - 365
    case All => 0
  }

  /** `eachDayOfInterval` over the window: every day from its start through today. Both ends
      are included, so the "week" window holds eight days. */
  function WindowDays(range: TimeRange, today: Day): (ds: seq<Day>)
    ensures range == Week ==> |ds| == 8
    ensures range == Month ==> |ds| == 31
    ensures range == Quarter ==> |ds| == 91
    ensures range == Year ==> |ds| == 366
    ensures range == All ==> |ds| == if today >= 0 then today + 1 else 0
    ensures |ds| > 0 ==> ds[|ds| - 1] == today
  {
    var start := WindowStart(range, today);
    DayRange(start, DaysThrough(start, today))
  }

  /** `days.filter((_, index) => index % 7 === 0)`: the days at indices 0, 7, 14, … */
  function EverySeventh(ds: seq<Day>): (r: seq<Day>)
    ensures |r| == (|ds| + 6) / 7
    ensures forall k :: 0 <= k < |r| ==> 7 * k < |ds| && r[k] == ds[7 * k]
  {
    seq((|ds| + 6) / 7, k requires 0 <= k < (|ds| + 6) / 7 => ds[7 * k])
  }

  /** `effectiveDays`: the window, sampled weekly for "all". */
  function EffectiveDays(range: TimeRange, today: Day): (ds: seq<Day>)
    ensures range != All ==> ds == WindowDays(range, today)
  {
    var days := WindowDays(range, today);
    if range == All then EverySeventh(days) else days
  }

  /** Sampling "all" from the epoch keeps exactly the days since the epoch that are a multiple
      of seven days after it, so every sampled day is a Thursday, as the epoch was. */
  lemma AllSamplesThursdays(today: Day)
    ensures forall d :: d in EffectiveDays(All, today) <==> 0 <= d <= today && d % 7 == 0
    ensures forall d :: d in EffectiveDays(All, today) ==> WeekdayName(d) == "Thursday"
  {
    var days := WindowDays(All, today);
    var r := EffectiveDays(All, today);
    forall d | 0 <= d <= today && d % 7 == 0
      ensures d in r
    {
      assert r[d / 7] == d;
    }
  }

  // ----- Counts per habit -----

  /** `possibleCompletions`: the days of `ds` whose weekday the habit targets. */
  function Possible(h: Habit, ds: seq<Day>): (n: nat)
    ensures n <= |ds|
  {
    |Filter(TargetDay(h), ds)|
  }

  /** `completions`: the targeted days of `ds` that are completed. */
  function Completions(h: Habit, ds: seq<Day>): (n: nat)
    ensures n <= Possible(h, ds)
  {
    |Filter(CompletedOn(h), Filter(TargetDay(h), ds))|
  }

  /** The `forEach` over the days that counts one habit's possible and actual completions. */
  method CountHabit(h: Habit, ds: seq<Day>) returns (completions: nat, possible: nat)
    ensures possible == Possible(h, ds)
    ensures completions == Completions(h, ds)
  {
    completions, possible := 0, 0;
    for j := 0 to |ds|
      invariant possible == Possible(h, ds[..j])
      invariant completions == Completions(h, ds[..j])
    {
      var d := ds[j];
      CountStep(h, ds, j);
      if IsTargetDay(h, d) {
        possible := possible + 1;
        if IsCompletedOn(h, d) {
          completions := completions + 1;
        }
      }
    }
    assert ds[..|ds|] == ds;
  }

  /** The step of the counting loop: the day at index `j` adds to the counts when it is a
      (completed) target day. */
  lemma CountStep(h: Habit, ds: seq<Day>, j: nat)
    requires j < |ds|
    ensures Possible(h, ds[..j + 1]) == Possible(h, ds[..j]) + (if IsTargetDay(h, ds[j]) then 1 else 0)
    ensures Completions(h, ds[..j + 1])
         == Completions(h, ds[..j]) + (if IsTargetDay(h, ds[j]) && IsCompletedOn(h, ds[j]) then 1 else 0)
  {
    var d := ds[j];
    assert ds[..j + 1] == ds[..j] + [d];
    CountSnoc(TargetDay(h), CompletedOn(h), ds[..j], d);
    assert TargetDay(h)(d) == IsTargetDay(h, d) && CompletedOn(h)(d) == IsCompletedOn(h, d);
  }

  /** One entry of `habitCompletions`. */
  datatype HabitCompletion = HabitCompletion(
    name: string, completions: nat, possibleCompletions: nat, completionRate: real)

  /** A habit's entry: its counts, and its two-decimal percentage or 0 without possible days. */
  function Row(h: Habit, ds: seq<Day>): (r: HabitCompletion)
    ensures r.name == h.name
    ensures r.completions <= r.possibleCompletions == Possible(h, ds)
    ensures 0.0 <= r.completionRate <= 100.0
  {
    var p := Possible(h, ds);
    var c := Completions(h, ds);
    HabitCompletion(h.name, c, p, if p > 0 then Percent2(c, p) else 0.0)
  }

  /** `habitCompletions`: the entries of the habits that have possible days, in habit order. */
  function Rows(habits: seq<Habit>, ds: seq<Day>): (rows: seq<HabitCompletion>)
    ensures |rows| <= |habits|
    ensures forall r :: r in rows ==>
      0 < r.possibleCompletions && r.completions <= r.possibleCompletions
      && 0.0 <= r.completionRate <= 100.0
  {
    if habits == [] then []
    else
      var r := Row(habits[|habits| - 1], ds);
      Rows(habits[..|habits| - 1], ds) + (if r.possibleCompletions > 0 then [r] else [])
  }

  /** The `map` and `filter` that build `habitCompletions`. */
  method HabitCompletions(habits: seq<Habit>, ds: seq<Day>) returns (rows: seq<HabitCompletion>)
    ensures rows == Rows(habits, ds)
  {
    rows := [];
    for i := 0 to |habits|
      invariant rows == Rows(habits[..i], ds)
    {
      var h := habits[i];
      assert habits[..i + 1][..i] == habits[..i];
      var completions, possible := CountHabit(h, ds);
      if possible > 0 {
        var rate := Percent2(completions, possible);
        rows := rows + [HabitCompletion(h.name, completions, possible, rate)];
      }
    }
    assert habits[..|habits|] == habits;
  }

  /** A habit has an entry exactly when it has a possible day in the window. */
  lemma {:induction false} RowsAreTheScheduledHabits(habits: seq<Habit>, ds: seq<Day>)
    ensures forall h :: h in habits && Possible(h, ds) > 0 ==> Row(h, ds) in Rows(habits, ds)
    ensures forall r :: r in Rows(habits, ds) ==> exists h :: h in habits && r == Row(h, ds)
  {
    if habits != [] {
      var init := habits[..|habits| - 1];
      RowsAreTheScheduledHabits(init, ds);
      assert habits == init + [habits[|habits| - 1]];
    }
  }

  // ----- The overall rate -----

  /** `habitCompletions.reduce((sum, h) => sum + h.completions, 0)`. */
  function TotalCompletions(rows: seq<HabitCompletion>): nat {
    if rows == [] then 0
    else TotalCompletions(rows[..|rows| - 1]) + rows[|rows| - 1].completions
  }

  /** `habitCompletions.reduce((sum, h) => sum + h.possibleCompletions, 0)`. */
  function TotalPossible(rows: seq<HabitCompletion>): nat {
    if rows == [] then 0
    else TotalPossible(rows[..|rows| - 1]) + rows[|rows| - 1].possibleCompletions
  }

  lemma {:induction false} TotalsBounded(rows: seq<HabitCompletion>)
    requires forall r :: r in rows ==> r.completions <= r.possibleCompletions
    ensures TotalCompletions(rows) <= TotalPossible(rows)
  {
    if rows != [] {
      var init := rows[..|rows| - 1];
      assert forall r :: r in init ==> r in rows;
      TotalsBounded(init);
    }
  }

  /** The overall rate: all completions over all possible completions, at two decimals, or 0
      when nothing was possible. */
  function OverallRate(rows: seq<HabitCompletion>): (rate: real)
    requires forall r :: r in rows ==> r.completions <= r.possibleCompletions
    ensures 0.0 <= rate <= 100.0
    ensures TotalPossible(rows) == 0 ==> rate == 0.0
  {
    TotalsBounded(rows);
    var possible := TotalPossible(rows);
    if possible > 0 then Percent2(TotalCompletions(rows), possible) else 0.0
  }

  /** Possible days summed over every habit, dropped or not. */
  function SumPossible(habits: seq<Habit>, ds: seq<Day>): nat {
    if habits == [] then 0
    else SumPossible(habits[..|habits| - 1], ds) + Possible(habits[|habits| - 1], ds)
  }

  /** Completions summed over every habit, dropped or not. */
  function SumCompletions(habits: seq<Habit>, ds: seq<Day>): nat {
    if habits == [] then 0
    else SumCompletions(habits[..|habits| - 1], ds) + Completions(habits[|habits| - 1], ds)
  }

  lemma TotalsSnoc(rows: seq<HabitCompletion>, r: HabitCompletion)
    ensures TotalCompletions(rows + [r]) == TotalCompletions(rows) + r.completions
    ensures TotalPossible(rows + [r]) == TotalPossible(rows) + r.possibleCompletions
  {
    assert (rows + [r])[..|rows|] == rows;
  }

  /** Dropping the habits without possible days changes neither total. */
  lemma {:induction false} DroppedHabitsAddNothing(habits: seq<Habit>, ds: seq<Day>)
    ensures TotalPossible(Rows(habits, ds)) == SumPossible(habits, ds)
    ensures TotalCompletions(Rows(habits, ds)) == SumCompletions(habits, ds)
  {
    if habits != [] {
      var init := habits[..|habits| - 1];
      DroppedHabitsAddNothing(init, ds);
      RowsTotalsStep(habits, ds);
    }
  }

  /** The totals of the entries grow by the last habit's counts, whether or not it has an
      entry. */
  lemma RowsTotalsStep(habits: seq<Habit>, ds: seq<Day>)
    requires habits != []
    ensures TotalPossible(Rows(habits, ds))
         == TotalPossible(Rows(habits[..|habits| - 1], ds)) + Possible(habits[|habits| - 1], ds)
    ensures TotalCompletions(Rows(habits, ds))
         == TotalCompletions(Rows(habits[..|habits| - 1], ds)) + Completions(habits[|habits| - 1], ds)
  {
    var rows, r := Rows(habits[..|habits| - 1], ds), Row(habits[|habits| - 1], ds);
    if r.possibleCompletions > 0 {
      TotalsSnoc(rows, r);
    } else {
      assert rows + [] == rows;
    }
  }

  /** The overall rate weighs each habit by its possible days: it is the rate of the pooled
      counts of all habits. */
  lemma OverallIsPooled(habits: seq<Habit>, ds: seq<Day>)
    ensures OverallRate(Rows(habits, ds))
         == if SumPossible(habits, ds) > 0
            then Percent2(SumCompletions(habits, ds), SumPossible(habits, ds)) else 0.0
  {
    DroppedHabitsAddNothing(habits, ds);
  }

  /** One habit done 1 of 1 days and one done 0 of 3 days give 25%, not the 50% mean of
      their rates. */
  lemma PooledIsNotTheMean()
    ensures OverallRate([HabitCompletion("a", 1, 1, 100.0), HabitCompletion("b", 0, 3, 0.0)]) == 25.0
  {
    var rows := [HabitCompletion("a", 1, 1, 100.0), HabitCompletion("b", 0, 3, 0.0)];
    assert rows[..1][..0] == [];
    assert TotalCompletions(rows) == 1 && TotalPossible(rows) == 4;
    assert Ratio100(1, 4) == 25.0;
    RoundOfInt(2500);
    assert ToFixed2(25.0) == 25.0;
  }

  function TargetsOn(d: Day): Habit -> bool {
    h => IsTargetDay(h, d)
  }

  function DoneAndTargetedOn(d: Day): Habit -> bool {
    h => IsTargetDay(h, d) && IsCompletedOn(h, d)
  }

  function DoneOn(d: Day): Habit -> bool {
    h => IsCompletedOn(h, d)
  }

  // ----- The last seven days -----

  /** A `streakData` point: of the habits targeting `d`, the share completed on it. */
  function StreakPoint(habits: seq<Habit>, d: Day): (v: real)
    ensures 0.0 <= v <= 100.0
  {
    var total := CountWhere(habits, TargetsOn(d));
    var completions := CountWhere(habits, DoneAndTargetedOn(d));
    CountWeaker(habits, DoneAndTargetedOn(d), TargetsOn(d));
    if total > 0 then Percent2(completions, total) else 0.0
  }

  /** When every habit targeting `d` is completed on it, and one does, the point is 100. */
  lemma StreakPointAllDone(habits: seq<Habit>, d: Day)
    requires exists h :: h in habits && IsTargetDay(h, d)
    requires forall h :: h in habits && IsTargetDay(h, d) ==> IsCompletedOn(h, d)
    ensures StreakPoint(habits, d) == 100.0
  {
    CountAgree(habits, DoneAndTargetedOn(d), TargetsOn(d));
    var h :| h in habits && IsTargetDay(h, d);
    CountPositive(habits, TargetsOn(d), h);
    RoundOfInt(10000);
  }

  /** `streakData`: seven points, the last one today. */
  function StreakData(habits: seq<Habit>, today: Day): (series: seq<real>)
    ensures |series| == 7
    ensures forall i :: 0 <= i < 7 ==> series[i] == StreakPoint(habits, today - 6 + i)
    ensures forall i :: 0 <= i < 7 ==> 0.0 <= series[i] <= 100.0
  {
    seq(7, i => StreakPoint(habits, today - 6 + i))
  }

  /** A `weeklyData` point: the share of all habits completed on `d`. */
  function WeeklyPoint(habits: seq<Habit>, d: Day): (v: real)
    ensures 0.0 <= v <= 100.0
    ensures habits == [] ==> v == 0.0
  {
    if |habits| > 0 then Percent2(CountWhere(habits, DoneOn(d)), |habits|) else 0.0
  }

  /** `weeklyData`: seven points, the last one today. */
  function WeeklyData(habits: seq<Habit>, today: Day): (series: seq<real>)
    ensures |series| == 7
    ensures forall i :: 0 <= i < 7 ==> series[i] == WeeklyPoint(habits, today - 6 + i)
    ensures forall i :: 0 <= i < 7 ==> 0.0 <= series[i] <= 100.0
  {
    seq(7, i => WeeklyPoint(habits, today - 6 + i))
  }

  /** Both series measure the same day: a completion the streak series counts the weekly
      series counts too. */
  lemma StreakDoneIsWeeklyDone(habits: seq<Habit>, d: Day)
    ensures CountWhere(habits, DoneAndTargetedOn(d)) <= CountWhere(habits, DoneOn(d))
  {
    CountWeaker(habits, DoneAndTargetedOn(d), DoneOn(d));
  }

  // ----- The top ten -----

  function ByRate(): HabitCompletion -> real {
    (r: HabitCompletion) => r.completionRate
  }

  /** `sortedHabits`: the entries sorted by rate, highest first, at most ten of them. */
  function TopHabits(rows: seq<HabitCompletion>): (top: seq<HabitCompletion>)
    ensures |top| == if |rows| <= 10 then |rows| else 10
    ensures SortedDesc(top, ByRate())
    ensures multiset(top) <= multiset(rows)
    ensures |rows| <= 10 ==> multiset(top) == multiset(rows)
    ensures forall t, r :: t in top && r in multiset(rows) - multiset(top)
              ==> r.completionRate <= t.completionRate
  {
    TopK(rows, 10, ByRate())
  }

  datatype ComparisonEntry = ComparisonEntry(name: string, completion: real)

  /** `habitComparison`: the names and rates of the top entries, highest rate first. */
  function HabitComparison(rows: seq<HabitCompletion>): (entries: seq<ComparisonEntry>)
    ensures |entries| <= 10 && |entries| == |TopHabits(rows)|
    ensures forall i :: 0 <= i < |entries| ==>
      entries[i] == ComparisonEntry(TopHabits(rows)[i].name, TopHabits(rows)[i].completionRate)
    ensures forall i, j :: 0 <= i < j < |entries| ==> entries[i].completion >= entries[j].completion
  {
    var top := TopHabits(rows);
    assert forall i, j :: 0 <= i < j < |top| ==> ByRate()(top[i]) >= ByRate()(top[j]);
    seq(|top|, i requires 0 <= i < |top| => ComparisonEntry(top[i].name, top[i].completionRate))
  }

  // ----- Statistics per weekday -----

  const WeekOrder: seq<string> :=
    ["Monday", "Tuesday", "Wednesday", "Thursday", "Friday", "Saturday", "Sunday"]

  /** `day.substring(0, 3)`. */
  function ShortName(w: string): string {
    if |w| <= 3 then w else w[..3]
  }

  function NamedDay(w: string): Day -> bool {
    d => WeekdayName(d) == w
  }

  /** `dayNames.filter(d => d === day).length`: the days of `ds` named `w`. */
  function Occurrences(ds: seq<Day>, w: string): (n: nat)
    ensures n <= |ds|
  {
    |Filter(NamedDay(w), ds)|
  }

  /** `completionsOnDay`: the habit's recorded completions, over all time, that fall on a
      weekday named `w`. */
  function CompletionsOnWeekday(h: Habit, w: string): (n: nat)
    ensures n <= |h.completedDates|
  {
    |Filter(NamedDay(w), h.completedDates)|
  }

  function Min(a: nat, b: nat): (m: nat)
    ensures m <= a && m <= b && (m == a || m == b)
  {
    if a <= b then a else b
  }

  /** `totalCompleted`: each habit's completions on `w`, capped at the occurrences of `w`. */
  function CappedTotal(habits: seq<Habit>, ds: seq<Day>, w: string): (n: nat)
    ensures n <= |habits| * Occurrences(ds, w)
  {
    if habits == [] then 0
    else
      var init := habits[..|habits| - 1];
      var occ := Occurrences(ds, w);
      var n := CappedTotal(init, ds, w) + Min(CompletionsOnWeekday(habits[|habits| - 1], w), occ);
      assert |habits| * occ == |init| * occ + occ;
      n
  }

  /** A `dayStats` value: the rounded capped completions over `habits.length` times the
      occurrences, or 0 when `w` does not occur. It lies in [0, 100] thanks to the cap. */
  function DayStatValue(habits: seq<Habit>, ds: seq<Day>, w: string): (v: int)
    ensures 0 <= v <= 100
    ensures Occurrences(ds, w) == 0 ==> v == 0
  {
    var possible := |habits| * Occurrences(ds, w);
    if possible > 0 then Percent(CappedTotal(habits, ds, w), possible) else 0
  }

  datatype DayStat = DayStat(name: string, value: int)

  /** `dayStats`: for each weekday from Monday to Sunday, the loop over the habits that sums
      the occurrences and the capped completions. */
  method DayStats(habits: seq<Habit>, ds: seq<Day>) returns (stats: seq<DayStat>)
    ensures |stats| == 7
    ensures forall k :: 0 <= k < 7 ==>
      stats[k] == DayStat(ShortName(WeekOrder[k]), DayStatValue(habits, ds, WeekOrder[k]))
  {
    stats := [];
    for k := 0 to 7
      invariant |stats| == k
      invariant forall i :: 0 <= i < k ==>
        stats[i] == DayStat(ShortName(WeekOrder[i]), DayStatValue(habits, ds, WeekOrder[i]))
    {
      var day := WeekOrder[k];
      var totalPossible, totalCompleted := 0, 0;
      for j := 0 to |habits|
        invariant totalPossible == j * Occurrences(ds, day)
        invariant totalCompleted == CappedTotal(habits[..j], ds, day)
      {
        assert habits[..j + 1][..j] == habits[..j];
        var dayOccurrences := Occurrences(ds, day);
        totalPossible := totalPossible + dayOccurrences;
        var completionsOnDay := CompletionsOnWeekday(habits[j], day);
        totalCompleted := totalCompleted + Min(completionsOnDay, dayOccurrences);
      }
      assert habits[..|habits|] == habits;
      var rate := if totalPossible > 0 then Percent(totalCompleted, totalPossible) else 0;
      stats := stats + [DayStat(ShortName(day), rate)];
    }
  }

  /** With the "all" range only Thursdays are sampled, so every other weekday reads 0. */
  lemma AllRangeRatesOnlyThursday(habits: seq<Habit>, today: Day, w: string)
    requires w != "Thursday"
    ensures DayStatValue(habits, EffectiveDays(All, today), w) == 0
  {
    var ds := EffectiveDays(All, today);
    AllSamplesThursdays(today);
    FilterNone(NamedDay(w), ds);
  }

  /** `completedDates.some(...)`: some completion falls on a weekday named `w`. */
  predicate CompletedSomeOn(h: Habit, w: string) {
    exists d :: d in h.completedDates && WeekdayName(d) == w
  }

  function TargetsName(w: string): Habit -> bool {
    (h: Habit) => w in h.targetDays
  }

  function TargetsAndDoneSomeOn(w: string): Habit -> bool {
    (h: Habit) => w in h.targetDays && CompletedSomeOn(h, w)
  }

  /** A `weeklyPerformance` value: of the habits targeting `w`, the share with some completion
      ever on that weekday. */
  function PerformanceValue(habits: seq<Habit>, w: string): (v: real)
    ensures 0.0 <= v <= 100.0
    ensures CountWhere(habits, TargetsName(w)) == 0 ==> v == 0.0
  {
    var total := CountWhere(habits, TargetsName(w));
    CountWeaker(habits, TargetsAndDoneSomeOn(w), TargetsName(w));
    if total > 0 then Percent2(CountWhere(habits, TargetsAndDoneSomeOn(w)), total) else 0.0
  }

  datatype DayPerformance = DayPerformance(day: string, value: real)

  /** `weeklyPerformance`: one value per weekday, Monday first. */
  function WeeklyPerformance(habits: seq<Habit>): (stats: seq<DayPerformance>)
    ensures |stats| == 7
    ensures forall k :: 0 <= k < 7 ==>
      stats[k] == DayPerformance(ShortName(WeekOrder[k]), PerformanceValue(habits, WeekOrder[k]))
    ensures forall k :: 0 <= k < 7 ==> 0.0 <= stats[k].value <= 100.0
  {
    seq(7, k requires 0 <= k < 7 => DayPerformance(ShortName(WeekOrder[k]), PerformanceValue(habits, WeekOrder[k])))
  }

  // ----- The whole memo -----

  datatype Analytics = Analytics(
    completionRate: real,
    streakData: seq<real>,
    habitComparison: seq<ComparisonEntry>,
    bestDays: seq<DayStat>,
    weeklyData: Option<seq<real>>,
    weeklyPerformance: Option<seq<DayPerformance>>)

  /** `analyticsData`: the empty result while loading or without habits (whose weekly series
      are absent), otherwise every statistic over the effective days. */
  method AnalyticsData(habits: seq<Habit>, loading: bool, range: TimeRange, today: Day)
    returns (a: Analytics)
    ensures loading || habits == [] ==> a == Analytics(0.0, [], [], [], None, None)
    ensures !loading && habits != [] ==>
      a.completionRate == OverallRate(Rows(habits, EffectiveDays(range, today)))
    ensures !loading && habits != [] ==>
      a.habitComparison == HabitComparison(Rows(habits, EffectiveDays(range, today)))
    ensures !loading && habits != [] ==>
      |a.bestDays| == 7 && forall k :: 0 <= k < 7 ==>
        a.bestDays[k] == DayStat(ShortName(WeekOrder[k]), DayStatValue(habits, EffectiveDays(range, today), WeekOrder[k]))
    ensures !loading && habits != [] ==>
      a.streakData == StreakData(habits, today) && a.weeklyData == Some(WeeklyData(habits, today))
    ensures !loading && habits != [] ==> a.weeklyPerformance == Some(WeeklyPerformance(habits))
  {
    if loading || habits == [] {
      return Analytics(0.0, [], [], [], None, None);
    }
    var ds := EffectiveDays(range, today);
    var rows := HabitCompletions(habits, ds);
    var bestDays := DayStats(habits, ds);
    a := Analytics(OverallRate(rows), StreakData(habits, today), HabitComparison(rows),
                   bestDays, Some(WeeklyData(habits, today)), Some(WeeklyPerformance(habits)));
  }

  // ----- The best performer -----

  datatype Performer = Performer(name: string, rate: real, completions: nat, total: nat)

  /** A habit's counts over the whole window and its unrounded rate, 0 without possible days. */
  function PerformerOf(h: Habit, ds: seq<Day>): (p: Performer)
    ensures p.name == h.name && p.total == Possible(h, ds) && p.completions == Completions(h, ds)
    ensures 0.0 <= p.rate <= 100.0
    ensures p.rate == 0.0 <==> p.total == 0 || p.completions == 0
  {
    var t := Possible(h, ds);
    var c := Completions(h, ds);
    Performer(h.name, if t > 0 then Ratio100(c, t) else 0.0, c, t)
  }

  /** Every habit's performer, in habit order. */
  function Performers(habits: seq<Habit>, ds: seq<Day>): (ps: seq<Performer>)
    ensures |ps| == |habits|
    ensures forall i :: 0 <= i < |habits| ==> ps[i] == PerformerOf(habits[i], ds)
  {
    seq(|habits|, i requires 0 <= i < |habits| => PerformerOf(habits[i], ds))
  }

  /** The `reduce`: a later performer replaces the best so far only with a strictly greater
      rate. */
  function BestOf(ps: seq<Performer>): (best: Option<Performer>)
    ensures best.None? <==> ps == []
  {
    if ps == [] then None
    else
      var sofar := BestOf(ps[..|ps| - 1]);
      var p := ps[|ps| - 1];
      if sofar.None? || p.rate > sofar.value.rate then Some(p) else sofar
  }

  /** `bestPerformer`: null without habits, otherwise the reduce over the habits, each counted
      over every day of the window. */
  method BestPerformer(habits: seq<Habit>, range: TimeRange, today: Day) returns (best: Option<Performer>)
    ensures best == BestOf(Performers(habits, WindowDays(range, today)))
  {
    if |habits| == 0 {
      return None;
    }
    var ds := WindowDays(range, today);
    ghost var ps := Performers(habits, ds);
    best := None;
    for i := 0 to |habits|
      invariant best == BestOf(ps[..i])
    {
      assert ps[..i + 1][..i] == ps[..i];
      var h := habits[i];
      var actual, possible := CountHabit(h, ds);
      var rate := if possible > 0 then Ratio100(actual, possible) else 0.0;
      if best.None? || rate > best.value.rate {
        best := Some(Performer(h.name, rate, actual, possible));
      }
    }
    assert ps[..|habits|] == ps;
  }

  /** No performer has a higher rate than the best one. */
  lemma {:induction false} BestIsMaximum(ps: seq<Performer>)
    requires ps != []
    ensures forall j :: 0 <= j < |ps| ==> ps[j].rate <= BestOf(ps).value.rate
  {
    var init := ps[..|ps| - 1];
    if init != [] {
      BestIsMaximum(init);
      assert forall j :: 0 <= j < |init| ==> ps[j] == init[j];
    }
  }

  /** The best performer is one of the performers, and every one before it has a strictly
      lower rate: among tied habits the earliest wins. */
  lemma {:induction false} BestIsEarliest(ps: seq<Performer>)
    requires ps != []
    ensures exists i :: 0 <= i < |ps| && BestOf(ps).value == ps[i]
              && forall j :: 0 <= j < i ==> ps[j].rate < ps[i].rate
  {
    var n := |ps|;
    var init := ps[..n - 1];
    if init == [] {
      assert BestOf(ps).value == ps[0];
    } else {
      var sofar := BestOf(init);
      if ps[n - 1].rate > sofar.value.rate {
        BestIsMaximum(init);
        assert forall j :: 0 <= j < n - 1 ==> ps[j] == init[j];
        assert BestOf(ps).value == ps[n - 1];
      } else {
        BestIsEarliest(init);
        var i :| 0 <= i < |init| && sofar.value == init[i]
                 && forall j :: 0 <= j < i ==> init[j].rate < init[i].rate;
        assert forall j :: 0 <= j <= i ==> ps[j] == init[j];
        assert BestOf(ps).value == ps[i];
      }
    }
  }
}
