/** The pre-made challenges: a fixed table of challenges, each a list of habits with their
    target weekdays, and starting one, which creates its habits one after another. */
module PreMadeChallenges {
  import opened Dates
  import opened Habits
  import opened Text
  import opened DateFormats
  import opened Toasts

  /** A habit of a challenge: its name and the weekday names it targets. */
  datatype HabitTemplate = HabitTemplate(name: string, targetDays: seq<string>)

  /** A challenge as listed (its icon left out). */
  datatype Challenge = Challenge(
    id: string,
    title: string,
    description: string,
    duration: string,
    habits: seq<HabitTemplate>)

  const EveryDay: seq<string> := ["Monday", "Tuesday", "Wednesday", "Thursday", "Friday", "Saturday", "Sunday"]
  const MonWedFri: seq<string> := ["Monday", "Wednesday", "Friday"]
  const TueThuSat: seq<string> := ["Tuesday", "Thursday", "Saturday"]

  const Challenges: seq<Challenge> := [
    Challenge("fitness-30", "30-Day Fitness Challenge",
      "Build strength and improve your fitness with daily exercises", "30 days",
      [HabitTemplate("Morning Workout", MonWedFri),
       HabitTemplate("Evening Stretch", TueThuSat),
       HabitTemplate("10,000 Steps", EveryDay)]),
    Challenge("reading-21", "21-Day Reading Challenge",
      "Develop a daily reading habit and expand your knowledge", "21 days",
      [HabitTemplate("Read 30 Minutes", EveryDay)]),
    Challenge("sleep-14", "14-Day Sleep Challenge",
      "Improve your sleep quality and establish a healthy sleep routine", "14 days",
      [HabitTemplate("Bedtime at 10 PM", EveryDay),
       HabitTemplate("No Screens 1 Hour Before Bed", EveryDay)]),
    Challenge("nutrition-30", "30-Day Nutrition Challenge",
      "Develop healthy eating habits and improve your diet", "30 days",
      [HabitTemplate("Eat 5 Servings of Vegetables", EveryDay),
       HabitTemplate("Drink 8 Glasses of Water", EveryDay)]),
    Challenge("mindfulness-21", "21-Day Mindfulness Challenge",
      "Practice mindfulness and improve your mental well-being", "21 days",
      [HabitTemplate("10-Minute Meditation", EveryDay),
       HabitTemplate("Gratitude Journal", MonWedFri)])
  ]

  /** The "(n days/week)" shown next to a habit. */
  function DaysPerWeek(h: HabitTemplate): nat {
    |h.targetDays|
  }

  /** At least one weekday name, none twice. */
  predicate WellFormedDays(days: seq<string>) {
    days != [] && Distinct(days) && forall k :: 0 <= k < |days| ==> days[k] in WeekdayNames
  }

  /** A habit whose target days are between one and seven different weekday names. */
  predicate WellFormed(h: HabitTemplate) {
    WellFormedDays(h.targetDays)
  }

  /** Seven different weekday names are all of them. */
  lemma {:induction false} DistinctWeekdaysAtMostSeven(days: seq<string>)
    requires Distinct(days) && forall k :: 0 <= k < |days| ==> days[k] in WeekdayNames
    ensures |days| <= 7
  {
    var s := set k | 0 <= k < |days| :: days[k];
    assert s <= set k | 0 <= k < 7 :: WeekdayNames[k];
    SetOfIndexSize(days);
    ImageSize(WeekdayNames, 7);
    SubsetSize(s, set k | 0 <= k < 7 :: WeekdayNames[k]);
  }

  /** A subset is no larger than its superset. */
  lemma {:induction false} SubsetSize(a: set<string>, b: set<string>)
    requires a <= b
    ensures |a| <= |b|
    decreases |a|
  {
    if a != {} {
      var x :| x in a;
      SubsetSize(a - {x}, b - {x});
    }
  }

  /** The values of a list without repeats are as many as its positions. */
  lemma {:induction false} SetOfIndexSize(days: seq<string>)
    requires Distinct(days)
    ensures |set k | 0 <= k < |days| :: days[k]| == |days|
  {
    if days != [] {
      var init := days[..|days| - 1];
      SetOfIndexSize(init);
      assert (set k | 0 <= k < |days| :: days[k])
          == (set k | 0 <= k < |init| :: init[k]) + {days[|days| - 1]};
      assert days[|days| - 1] !in (set k | 0 <= k < |init| :: init[k]);
    }
  }

  /** The first `n` values of a list are at most `n` values. */
  lemma {:induction false} ImageSize(s: seq<string>, n: nat)
    requires n <= |s|
    ensures |set k | 0 <= k < n :: s[k]| <= n
  {
    if n > 0 {
      ImageSize(s, n - 1);
      assert (set k | 0 <= k < n :: s[k]) == (set k | 0 <= k < n - 1 :: s[k]) + {s[n - 1]};
    }
  }

  /** The day lists of the table: three or seven different weekday names. */
  lemma DayListsWellFormed()
    ensures WellFormedDays(MonWedFri) && WellFormedDays(TueThuSat) && WellFormedDays(EveryDay)
  {
  }

  /** Habit `j` of challenge `i` targets one of those lists. */
  lemma HabitDayList(i: nat, j: nat)
    requires i < |Challenges| && j < |Challenges[i].habits|
    ensures var days := Challenges[i].habits[j].targetDays;
            days == MonWedFri || days == TueThuSat || days == EveryDay
  {
    if i == 0 {
      assert j < 3;
    } else if i == 1 {
    } else if i == 2 {
    } else if i == 3 {
    } else {
      assert i == 4;
    }
  }

  /** Every habit of the table targets at least one day and only weekday names, none twice,
      so the days per week shown lie between 1 and 7. */
  lemma ChallengeTableWellFormed()
    ensures forall i, j :: 0 <= i < |Challenges| && 0 <= j < |Challenges[i].habits| ==>
              WellFormed(Challenges[i].habits[j]) && 1 <= DaysPerWeek(Challenges[i].habits[j]) <= 7
  {
    DayListsWellFormed();
    forall i, j | 0 <= i < |Challenges| && 0 <= j < |Challenges[i].habits|
      ensures WellFormed(Challenges[i].habits[j]) && 1 <= DaysPerWeek(Challenges[i].habits[j]) <= 7
    {
      HabitDayList(i, j);
      DistinctWeekdaysAtMostSeven(Challenges[i].habits[j].targetDays);
    }
  }

  /** The challenges have distinct ids. */
  lemma ChallengeIdsDistinct()
    ensures forall i, j :: 0 <= i < j < |Challenges| ==> Challenges[i].id != Challenges[j].id
  {
  }

  // ----- Starting a challenge -----

  /** What `startChallenge` hands to `addHabit` for one habit. */
  datatype NewHabit = NewHabit(
    name: string,
    targetDays: seq<string>,
    startDate: string,
    completedDates: seq<string>,
    completionTimestamps: map<string, string>,
    streak: int,
    highestStreak: int,
    createdAt: string)

  /** `now.split('T')[0]`: the date part of an ISO timestamp. */
  function StartDateOf(now: string): (date: string)
    ensures 'T' !in date
  {
    Split(now, 'T')[0]
  }

  /** The date part of `toISOString()` for an instant of a day in years 0 to 9999 is that
      day's `yyyy-MM-dd` string. */
  lemma StartDateIsTheDay(d: Day, time: string)
    requires 0 <= CivilOf(d).year
    ensures StartDateOf(IsoDate(d) + "T" + time) == IsoDate(d)
  {
    var c := CivilOf(d);
    NoLetterT(ZeroPadded(c.year, 4), ZeroPadded(c.month + 1, 2), ZeroPadded(c.day, 2));
    assert IsoDate(d) + "T" + time == IsoDate(d) + ['T'] + time;
    SplitCons(IsoDate(d), time, 'T');
  }

  lemma NoLetterT(y: string, m: string, d: string)
    requires AllDigits(y) && AllDigits(m) && AllDigits(d)
    ensures 'T' !in y + "-" + m + "-" + d
  {
    var s := y + "-" + m + "-" + d;
    forall k | 0 <= k < |s|
      ensures s[k] != 'T'
    {
      assert IsDigit(s[k]) || s[k] == '-';
    }
  }

  function SuccessToast(title: string): Toast {
    Toast("Started " + title + " successfully!", "", false)
  }

  const FailureToast: Toast := Toast("Failed to start challenge. Please try again.", "", true)

  /** `startChallenge`: one `addHabit` call per habit of the challenge, in order, each a
      fresh record (no completions, both streaks 0) starting on the date part of `now` and
      created at `now`. `outcome(i)` is what the `i`-th call does; the first call that
      throws ends the loop, and the toast reports the failure; when every call resolves,
      the toast names the challenge. */
  method StartChallenge(c: Challenge, now: string, outcome: nat -> AddResult)
    returns (calls: seq<NewHabit>, toast: Toast)
    ensures |calls| <= |c.habits|
    ensures forall k :: 0 <= k < |calls| ==>
              calls[k] == NewHabit(c.habits[k].name, c.habits[k].targetDays, StartDateOf(now), [], map[], 0, 0, now)
    ensures forall k :: 0 <= k < |calls| - 1 ==> outcome(k).Added?
    ensures toast == SuccessToast(c.title) <==>
              |calls| == |c.habits| && forall k :: 0 <= k < |calls| ==> outcome(k).Added?
    ensures toast != SuccessToast(c.title) ==>
              toast == FailureToast && |calls| >= 1 && outcome(|calls| - 1).Failed?
  {
    calls := [];
    var i := 0;
    while i < |c.habits|
      invariant i <= |c.habits| && |calls| == i
      invariant forall k :: 0 <= k < i ==>
                  calls[k] == NewHabit(c.habits[k].name, c.habits[k].targetDays, StartDateOf(now), [], map[], 0, 0, now)
                  && outcome(k).Added?
    {
      var h := c.habits[i];
      calls := calls + [NewHabit(h.name, h.targetDays, StartDateOf(now), [], map[], 0, 0, now)];
      if outcome(i).Failed? {
        return calls, FailureToast;
      }
      i := i + 1;
    }
    toast := SuccessToast(c.title);
  }
}
