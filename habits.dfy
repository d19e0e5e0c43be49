/** The habit record the analytics read, the day predicates the habit card, the analytics
    page, the reports page and the calendar test it with, and `Array.prototype.filter` over
    lists of days, which is how all of them count. */
module Habits {
  import opened Dates

  /** A tracked routine as the backend stores it. `targetDays` holds weekday names
      ("Monday" … "Sunday"); `completedDates` is the list of completed days, each stored as
      a `yyyy-MM-dd` string and modelled by the day it names. */
  datatype Habit = Habit(
    id: string,
    name: string,
    targetDays: seq<string>,
    startDate: Day,
    completedDates: seq<Day>,
    completionTimestamps: map<Day, string>,
    streak: int,
    highestStreak: int,
    createdAt: string)

  /** `habit.targetDays.includes(dayName)`. */
  predicate IsTargetDay(h: Habit, d: Day) {
    WeekdayName(d) in h.targetDays
  }

  /** `habit.completedDates.includes(dateString)`. */
  predicate IsCompletedOn(h: Habit, d: Day) {
    d in h.completedDates
  }

  /** A target day on or after the start date: the calendar's "scheduled habit". */
  predicate IsScheduled(h: Habit, d: Day) {
    IsTargetDay(h, d) && h.startDate <= d
  }

  /** A scheduled day that is not in the future: the habit card's eligible day. */
  predicate IsEligible(h: Habit, d: Day, today: Day) {
    IsScheduled(h, d) && d <= today
  }

  // ----- The same tests as filter callbacks -----

  function TargetDay(h: Habit): Day -> bool {
    d => IsTargetDay(h, d)
  }

  function CompletedOn(h: Habit): Day -> bool {
    d => IsCompletedOn(h, d)
  }

  function Eligible(h: Habit, today: Day): Day -> bool {
    d => IsEligible(h, d, today)
  }

  datatype Option<T> = None | Some(value: T)

  /** No value occurs twice. */
  predicate Distinct<T(==)>(s: seq<T>) {
    forall i, j :: 0 <= i < j < |s| ==> s[i] != s[j]
  }

  // ----- Lists of days and filtering them -----

  /** The number of days from `lo` through `hi`, both included. */
  function DaysThrough(lo: Day, hi: Day): (n: nat)
    ensures lo <= hi ==> lo + n - 1 == hi
    ensures hi < lo ==> n == 0
  {
    if lo <= hi then hi - lo + 1 else 0
  }

  /** `eachDayOfInterval`: the `n` consecutive days from `lo`. */
  function DayRange(lo: Day, n: nat): (ds: seq<Day>)
    ensures |ds| == n
    ensures forall i :: 0 <= i < n ==> ds[i] == lo + i
  {
    seq(n, i => lo + i)
  }

  lemma DayRangeMembers(lo: Day, n: nat)
    ensures forall d :: d in DayRange(lo, n) <==> lo <= d < lo + n
  {
    forall d | lo <= d < lo + n
      ensures d in DayRange(lo, n)
    {
      assert DayRange(lo, n)[d - lo] == d;
    }
  }

  lemma DayRangeSnoc(lo: Day, n: nat)
    ensures DayRange(lo, n + 1) == DayRange(lo, n) + [lo + n]
  {
  }

  lemma DayRangeSplit(lo: Day, a: nat, b: nat)
    ensures DayRange(lo, a + b) == DayRange(lo, a) + DayRange(lo + a, b)
  {
  }

  /** `ds.filter(p)`: the days of `ds` that pass `p`, in order. */
  function Filter(p: Day -> bool, ds: seq<Day>): (r: seq<Day>)
    ensures |r| <= |ds|
    decreases |ds|
  {
    if ds == [] then []
    else
      var last := ds[|ds| - 1];
      Filter(p, ds[..|ds| - 1]) + (if p(last) then [last] else [])
  }

  /** The filter keeps exactly the days of `ds` that pass `p`. */
  lemma {:induction false} FilterMembers(p: Day -> bool, ds: seq<Day>)
    ensures forall d :: d in Filter(p, ds) <==> d in ds && p(d)
    decreases |ds|
  {
    if ds != [] {
      var init := ds[..|ds| - 1];
      FilterMembers(p, init);
      assert ds == init + [ds[|ds| - 1]];
    }
  }

  /** Filtering a list extended by one day: the step a counting loop takes. */
  lemma FilterSnoc(p: Day -> bool, ds: seq<Day>, d: Day)
    ensures Filter(p, ds + [d]) == Filter(p, ds) + (if p(d) then [d] else [])
  {
    assert (ds + [d])[..|ds|] == ds;
  }

  /** Filtering distributes over concatenation. */
  lemma {:induction false} FilterAppend(p: Day -> bool, a: seq<Day>, b: seq<Day>)
    ensures Filter(p, a + b) == Filter(p, a) + Filter(p, b)
    decreases |b|
  {
    if b == [] {
      assert a + b == a;
    } else {
      var init, last := b[..|b| - 1], b[|b| - 1];
      assert b == init + [last];
      assert a + b == (a + init) + [last];
      FilterAppend(p, a, init);
      FilterSnoc(p, a + init, last);
      FilterSnoc(p, init, last);
    }
  }

  /** Two tests that agree on every day of `ds` filter it alike. */
  lemma {:induction false} FilterAgree(p: Day -> bool, q: Day -> bool, ds: seq<Day>)
    requires forall d :: d in ds ==> p(d) == q(d)
    ensures Filter(p, ds) == Filter(q, ds)
    decreases |ds|
  {
    if ds != [] {
      var init := ds[..|ds| - 1];
      assert forall d :: d in init ==> d in ds;
      FilterAgree(p, q, init);
    }
  }

  /** A filter that no day passes leaves nothing. */
  lemma FilterNone(p: Day -> bool, ds: seq<Day>)
    requires forall d :: d in ds ==> !p(d)
    ensures Filter(p, ds) == []
  {
    FilterMembers(p, ds);
  }

  /** A filter that every day passes keeps everything. */
  lemma {:induction false} FilterAll(p: Day -> bool, ds: seq<Day>)
    requires forall d :: d in ds ==> p(d)
    ensures Filter(p, ds) == ds
    decreases |ds|
  {
    if ds != [] {
      var init, last := ds[..|ds| - 1], ds[|ds| - 1];
      assert ds == init + [last];
      assert forall d :: d in init ==> d in ds;
      FilterAll(p, init);
      FilterSnoc(p, init, last);
    }
  }

  /** A filter that passes at least the days another passes keeps at least as many. */
  lemma {:induction false} FilterWeaker(p: Day -> bool, q: Day -> bool, ds: seq<Day>)
    requires forall d :: d in ds && p(d) ==> q(d)
    ensures |Filter(p, ds)| <= |Filter(q, ds)|
    decreases |ds|
  {
    if ds != [] {
      var init := ds[..|ds| - 1];
      assert forall d :: d in init ==> d in ds;
      FilterWeaker(p, q, init);
    }
  }

  /** One more day adds one to the count of the days that pass `p` when it passes, and one
      to the count of those that also pass `q` when it passes both. */
  lemma CountSnoc(p: Day -> bool, q: Day -> bool, ds: seq<Day>, d: Day)
    ensures |Filter(p, ds + [d])| == |Filter(p, ds)| + (if p(d) then 1 else 0)
    ensures |Filter(q, Filter(p, ds + [d]))|
         == |Filter(q, Filter(p, ds))| + (if p(d) && q(d) then 1 else 0)
  {
    FilterSnoc(p, ds, d);
    if p(d) {
      FilterSnoc(q, Filter(p, ds), d);
    } else {
      assert Filter(p, ds + [d]) == Filter(p, ds);
    }
  }

  // ----- Counting habits -----

  /** `habits.filter(p).length`. */
  function CountWhere(hs: seq<Habit>, p: Habit -> bool): (n: nat)
    ensures n <= |hs|
  {
    if hs == [] then 0
    else CountWhere(hs[..|hs| - 1], p) + (if p(hs[|hs| - 1]) then 1 else 0)
  }

  /** A test that passes at least the habits another passes counts at least as many. */
  lemma {:induction false} CountWeaker(hs: seq<Habit>, p: Habit -> bool, q: Habit -> bool)
    requires forall h :: h in hs && p(h) ==> q(h)
    ensures CountWhere(hs, p) <= CountWhere(hs, q)
  {
    if hs != [] {
      var init := hs[..|hs| - 1];
      assert forall h :: h in init ==> h in hs;
      CountWeaker(init, p, q);
    }
  }

  /** Two tests that agree on every habit count alike. */
  lemma {:induction false} CountAgree(hs: seq<Habit>, p: Habit -> bool, q: Habit -> bool)
    requires forall h :: h in hs ==> p(h) == q(h)
    ensures CountWhere(hs, p) == CountWhere(hs, q)
  {
    if hs != [] {
      var init := hs[..|hs| - 1];
      assert forall h :: h in init ==> h in hs;
      CountAgree(init, p, q);
    }
  }

  /** A habit that passes the test makes the count positive. */
  lemma {:induction false} CountPositive(hs: seq<Habit>, p: Habit -> bool, h: Habit)
    requires h in hs && p(h)
    ensures CountWhere(hs, p) > 0
  {
    var init, last := hs[..|hs| - 1], hs[|hs| - 1];
    assert hs == init + [last];
    if h != last {
      CountPositive(init, p, h);
    }
  }
}
