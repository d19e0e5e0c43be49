/** The full-screen calendar: the colour of a day from the share of its scheduled habits
    completed, the grid of whole weeks around the shown month, month navigation through the
    `MMM-yyyy` label, the add-event form, and the order of the events list. */
module FullscreenCalendar {
  import opened Dates
  import opened Habits
  import opened Numeric
  import opened Text
  import opened DateFormats
  import Heatmap = HabitHeatmap
  import opened Sorting
  import opened Toasts

  // ----- Day colour -----

  /** The calendar's own copy of `getCellColor`, on the finite ratios it is given. */
  function GetCellColor(value: real): (color: string)
    ensures color == Heatmap.Shades[Heatmap.Shade(Finite(value))]
  {
    if value == 0.0 then Heatmap.Empty
    else if value < 0.5 then Heatmap.Light
    else if value < 0.8 then Heatmap.Medium
    else Heatmap.Dark
  }

  /** Both copies of `getCellColor` paint every value alike. */
  lemma SameColorsAsHeatmap(value: real)
    ensures GetCellColor(value) == Heatmap.GetCellColor(Finite(value))
  {
  }

  function ScheduledOn(d: Day): Habit -> bool {
    h => IsScheduled(h, d)
  }

  function ScheduledAndDoneOn(d: Day): Habit -> bool {
    h => IsScheduled(h, d) && IsCompletedOn(h, d)
  }

  /** `getDayCompletionRatio`: 0 for a day after today or with no scheduled habit, otherwise
      the share of the scheduled habits completed on that day. */
  function DayCompletionRatio(day: Day, today: Day, habits: seq<Habit>): (r: real)
    ensures 0.0 <= r <= 1.0
    ensures day > today ==> r == 0.0
    ensures CountWhere(habits, ScheduledOn(day)) == 0 ==> r == 0.0
    ensures day <= today && CountWhere(habits, ScheduledOn(day)) > 0 ==>
              r == CountWhere(habits, ScheduledAndDoneOn(day)) as real
                   / CountWhere(habits, ScheduledOn(day)) as real
  {
    if day > today then 0.0
    else
      var scheduled := CountWhere(habits, ScheduledOn(day));
      if scheduled == 0 then 0.0
      else
        var completed := CountWhere(habits, ScheduledAndDoneOn(day));
        CountWeaker(habits, ScheduledAndDoneOn(day), ScheduledOn(day));
        QuotientWithin(completed as real, scheduled as real, 0.0, 1.0);
        completed as real / scheduled as real
  }

  /** A past day whose scheduled habits are all completed, with at least one scheduled,
      has ratio 1 and the darkest colour. */
  lemma AllScheduledDoneIsDark(day: Day, today: Day, habits: seq<Habit>)
    requires day <= today
    requires exists h :: h in habits && IsScheduled(h, day)
    requires forall h :: h in habits && IsScheduled(h, day) ==> IsCompletedOn(h, day)
    ensures DayCompletionRatio(day, today, habits) == 1.0
    ensures GetCellColor(DayCompletionRatio(day, today, habits)) == Heatmap.Dark
  {
    var scheduled := CountWhere(habits, ScheduledOn(day));
    CountAgree(habits, ScheduledAndDoneOn(day), ScheduledOn(day));
    var h :| h in habits && IsScheduled(h, day);
    CountPositive(habits, ScheduledOn(day), h);
    QuotientWithin(scheduled as real, scheduled as real, 1.0, 1.0);
  }

  /** A past day on which some scheduled habit is completed has a positive ratio, and one on
      which none is has ratio 0. */
  lemma RatioPositiveIffSomeDone(day: Day, today: Day, habits: seq<Habit>)
    requires day <= today
    ensures DayCompletionRatio(day, today, habits) > 0.0 <==>
              exists h :: h in habits && IsScheduled(h, day) && IsCompletedOn(h, day)
  {
    if h :| h in habits && IsScheduled(h, day) && IsCompletedOn(h, day) {
      CountPositive(habits, ScheduledAndDoneOn(day), h);
      CountPositive(habits, ScheduledOn(day), h);
    } else {
      CountNone(habits, ScheduledAndDoneOn(day));
    }
  }

  /** A test that no habit passes counts none. */
  lemma {:induction false} CountNone(hs: seq<Habit>, p: Habit -> bool)
    requires forall h :: h in hs ==> !p(h)
    ensures CountWhere(hs, p) == 0
  {
    if hs != [] {
      var init := hs[..|hs| - 1];
      assert forall h :: h in init ==> h in hs;
      CountNone(init, p);
    }
  }

  // ----- The grid -----

  /** `eachDayOfInterval` from the Sunday starting the week of `first` to the Saturday ending
      the week of `last`. */
  function WeeksAround(first: Day, last: Day): (days: seq<Day>)
    requires first <= last
    ensures |days| % 7 == 0
    ensures |days| == Weekday(first) + (last - first + 1)
                      + Heatmap.RemainingCells(Weekday(first), last - first + 1)
    ensures Weekday(days[0]) == 0
    ensures forall i :: 0 <= i < |days| ==> days[i] == days[0] + i
    ensures days[0] <= first < days[0] + 7
    ensures days[|days| - 1] - 7 < last <= days[|days| - 1]
  {
    var start := StartOfWeek(first, 0);
    var end := EndOfWeek(last, 0);
    var w, n := Weekday(first), last - first + 1;
    SundayWeek(first);
    SundayWeek(last);
    WeekdayAfter(first, n - 1);
    TrailingBlanks(w + n);
    DayRange(start, end - start + 1)
  }

  /** A week that starts on Sunday starts `Weekday(d)` days before `d`. */
  lemma SundayWeek(d: Day)
    ensures StartOfWeek(d, 0) == d - Weekday(d)
    ensures EndOfWeek(d, 0) == d - Weekday(d) + 6
  {
    var w := Weekday(d);
    assert (w - 0 + 7) % 7 == w;
  }

  /** The weekday `k` days after `d`. */
  lemma WeekdayAfter(d: Day, k: nat)
    ensures Weekday(d + k) == (Weekday(d) + k) % 7
  {
  }

  /** The days after a last day in column `(s - 1) % 7` fill the week exactly as the heat
      map's remaining cells do. */
  lemma TrailingBlanks(s: int)
    requires s >= 1
    ensures 6 - (s - 1) % 7 == Heatmap.RemainingCells(0, s)
  {
  }

  /** The grid of the month `am`: the whole weeks from its 1st to its last day. */
  function MonthGrid(am: int): (days: seq<Day>)
    ensures |days| % 7 == 0 && 28 <= |days| <= 42
    ensures |days| == Weekday(FirstOfMonth(am)) + DaysInMonth(am)
                      + Heatmap.RemainingCells(Weekday(FirstOfMonth(am)), DaysInMonth(am))
    ensures Weekday(days[0]) == 0
    ensures forall i :: 0 <= i < |days| ==> days[i] == days[0] + i
    ensures days[0] <= FirstOfMonth(am) < days[0] + 7
    ensures days[|days| - 1] - 7 < FirstOfMonth(am + 1) - 1 <= days[|days| - 1]
  {
    NextMonthStart(am);
    WeeksAround(FirstOfMonth(am), FirstOfMonth(am + 1) - 1)
  }

  /** Every day of the month is in the grid, and the first cell is a Sunday, so it needs no
      column offset. */
  lemma GridCoversMonth(am: int)
    ensures forall d :: InMonth(d, am) ==> d in MonthGrid(am)
  {
    var days := MonthGrid(am);
    forall d | InMonth(d, am)
      ensures d in days
    {
      assert days[d - days[0]] == d;
    }
  }

  // ----- The month label -----

  /** `format(first, 'MMM-yyyy')` for a month of year 1 or later (absolute month 12 on). */
  function FormatMonth(am: int): (text: string)
    requires am >= 12
    ensures |text| >= 8 && text[3] == '-'
  {
    MonthShortNamesShape();
    MonthShortNames[MonthOf(am)] + "-" + ZeroPadded(YearOf(am), 4)
  }

  /** The index of a month's short name, or 12 when it is none. */
  function MonthIndex(name: string, from: nat): (i: nat)
    requires from <= 12
    ensures from <= i <= 12
    ensures i < 12 ==> MonthShortNames[i] == name
    ensures forall k :: from <= k < i ==> MonthShortNames[k] != name
    decreases 12 - from
  {
    if from == 12 then 12
    else if MonthShortNames[from] == name then from
    else MonthIndex(name, from + 1)
  }

  /** `parse(label, 'MMM-yyyy')` as an absolute month, or `None` for an invalid date. */
  function ParseMonth(text: string): (am: Option<int>)
    ensures am.Some? ==> am.value >= 12
  {
    if |text| >= 5 && text[3] == '-' && AllDigits(text[4..]) && ParseDigits(text[4..]) >= 1 then
      var m := MonthIndex(text[..3], 0);
      if m < 12 then Some(ParseDigits(text[4..]) * 12 + m) else None
    else None
  }

  /** Every month label reads back as its month. */
  lemma MonthRoundTrip(am: int)
    requires am >= 12
    ensures ParseMonth(FormatMonth(am)) == Some(am)
  {
    MonthShortNamesShape();
    var text := FormatMonth(am);
    var m := MonthOf(am);
    assert text[..3] == MonthShortNames[m];
    assert text[4..] == ZeroPadded(YearOf(am), 4);
    assert MonthIndex(text[..3], 0) == m;
  }

  /** The 1st of a month lies in that month. */
  lemma FirstDayInItsMonth(am: int)
    ensures MonthContaining(FirstOfMonth(am)) == am
  {
    NextMonthStart(am);
    MonthContainingIs(FirstOfMonth(am), am);
  }

  /** `format(add(firstDayCurrentMonth, { months: k }), 'MMM-yyyy')`: the label `k` months
      after (before, for negative `k`) the month a label names. */
  method StepMonth(text: string, k: int) returns (next: string)
    requires ParseMonth(text).Some? && ParseMonth(text).value + k >= 12
    ensures next == FormatMonth(ParseMonth(text).value + k)
  {
    var am := ParseMonth(text).value;
    var first := FirstOfMonth(am);
    FirstDayInItsMonth(am);
    next := FormatMonth(MonthContaining(first) + k);
  }

  // ----- Events -----

  /** An event as stored: `datetime` is a `yyyy-MM-dd` date and `time` an `HH:mm` time. */
  datatype Event = Event(id: string, name: string, time: string, datetime: string, userId: string)

  /** What `handleAddEvent` hands to `addEvent`. */
  datatype EventInput = EventInput(name: string, time: string, datetime: string, userId: string)

  /** The add-event form's fields. */
  datatype NewEvent = NewEvent(name: string, date: string, time: string)

  const DefaultErrorText: string := "There was a problem adding your event. Please try again."

  /** The events of one day: `userEvents.filter(e => e.datetime === format(day, 'yyyy-MM-dd'))`. */
  function EventsOn(events: seq<Event>, day: Day): (r: seq<Event>)
    requires CivilOf(day).year >= 0
    ensures forall e :: e in r <==> e in events && e.datetime == IsoDate(day)
  {
    if events == [] then []
    else
      var init, last := events[..|events| - 1], events[|events| - 1];
      assert events == init + [last];
      EventsOn(init, day) + (if last.datetime == IsoDate(day) then [last] else [])
  }

  /** The sort key, `new Date(`${datetime}T${time}`).getTime()` in minutes, for an event
      whose date and time parse; other events compare as equal to everything (their key is
      NaN) and are given 0 here. */
  function SortKey(e: Event): int {
    match (ParseIsoDate(e.datetime), ParseTime(e.time))
    case (Some(d), Some(t)) => d * 1440 + t
    case _ => 0
  }

  /** On events that parse, the key orders by date and then by time. */
  lemma SortKeyOrder(e1: Event, e2: Event)
    requires ParseIsoDate(e1.datetime).Some? && ParseTime(e1.time).Some?
    requires ParseIsoDate(e2.datetime).Some? && ParseTime(e2.time).Some?
    ensures SortKey(e1) <= SortKey(e2) <==>
              ParseIsoDate(e1.datetime).value < ParseIsoDate(e2.datetime).value
              || (ParseIsoDate(e1.datetime) == ParseIsoDate(e2.datetime)
                  && ParseTime(e1.time).value <= ParseTime(e2.time).value)
  {
    var d1, d2 := ParseIsoDate(e1.datetime).value, ParseIsoDate(e2.datetime).value;
    var t1, t2 := ParseTime(e1.time).value, ParseTime(e2.time).value;
    if d1 < d2 {
      assert d1 * 1440 + 1440 <= d2 * 1440;
    } else if d2 < d1 {
      assert d2 * 1440 + 1440 <= d1 * 1440;
    }
  }

  /** `userEvents.sort(...)`: the events list, sorted in place by date and time, a
      permutation of what it held. */
  method SortEvents(a: array<Event>)
    modifies a
    ensures forall p, q :: 0 <= p < q < a.Length ==> SortKey(a[p]) <= SortKey(a[q])
    ensures multiset(a[..]) == multiset(old(a[..]))
  {
    InsertionSort(a, SortKey);
  }

  // ----- The calendar's state -----

  class Calendar {
    /** The shown month's `MMM-yyyy` label. */
    var currentMonth: string
    var addEventOpen: bool
    var newEvent: NewEvent
    /** The absolute month the label names. */
    ghost var month: int

    ghost predicate Valid()
      reads this
    {
      month >= 12 && currentMonth == FormatMonth(month)
    }

    /** `firstDayCurrentMonth`: the 1st of the month the label names. */
    function FirstDayCurrentMonth(): (first: Day)
      reads this
      requires Valid()
      ensures first == FirstOfMonth(month)
    {
      MonthRoundTrip(month);
      FirstOfMonth(ParseMonth(currentMonth).value)
    }

    /** The opening state: today's month, the form closed and empty except for today's date. */
    constructor (today: Day)
      requires CivilOf(today).year >= 1
      ensures Valid() && month == MonthContaining(today)
      ensures !addEventOpen && newEvent == NewEvent("", IsoDate(today), "")
    {
      month := MonthContaining(today);
      currentMonth := FormatMonth(MonthContaining(today));
      addEventOpen := false;
      newEvent := NewEvent("", IsoDate(today), "");
    }

    /** `previousMonth`: the label of the month before. */
    method PreviousMonth()
      requires Valid() && month - 1 >= 12
      modifies this`currentMonth, this`month
      ensures Valid() && month == old(month) - 1
    {
      MonthRoundTrip(month);
      ghost var target := month + -1;
      var text := StepMonth(currentMonth, -1);
      assert text == FormatMonth(target);
      currentMonth, month := text, target;
    }

    /** `nextMonth`: the label of the month after. */
    method NextMonth()
      requires Valid()
      modifies this`currentMonth, this`month
      ensures Valid() && month == old(month) + 1
    {
      MonthRoundTrip(month);
      ghost var target := month + 1;
      var text := StepMonth(currentMonth, 1);
      assert text == FormatMonth(target);
      currentMonth, month := text, target;
    }

    /** `goToToday`: the label of today's month. */
    method GoToToday(today: Day)
      requires CivilOf(today).year >= 1
      modifies this`currentMonth, this`month
      ensures Valid() && month == MonthContaining(today)
    {
      currentMonth := FormatMonth(MonthContaining(today));
      month := MonthContaining(today);
    }

    /** `handleAddEvent`: without a signed-in user, or with an empty field, a toast and
        nothing else; otherwise one `addEvent` call with the form's fields, after which a
        success closes the dialog and resets the form and a failure leaves both as they
        were. `result` is what the `addEvent` call does. */
    method HandleAddEvent(user: Option<string>, result: AddResult, today: Day)
      returns (call: Option<EventInput>, toast: Toast)
      requires CivilOf(today).year >= 0
      modifies this`addEventOpen, this`newEvent
      ensures call.None? <==>
                user.None? || old(newEvent).name == "" || old(newEvent).date == "" || old(newEvent).time == ""
      ensures user.None? ==>
                toast == Toast("Authentication required", "Please sign in to add events", true)
      ensures user.Some? && call.None? ==>
                toast == Toast("Missing fields", "Please fill in all event details", true)
      ensures call.Some? ==>
                call.value == EventInput(old(newEvent).name, old(newEvent).time, old(newEvent).date, user.value)
      ensures call.Some? && result.Added? ==>
                toast == Toast("Event added", "Your event has been added successfully", false)
                && !addEventOpen && newEvent == NewEvent("", IsoDate(today), "")
      ensures call.Some? && result.Failed? ==>
                toast == Toast("Error adding event",
                               if result.message != "" then result.message else DefaultErrorText, true)
      ensures (call.None? || result.Failed?) ==>
                addEventOpen == old(addEventOpen) && newEvent == old(newEvent)
    {
      if user.None? {
        return None, Toast("Authentication required", "Please sign in to add events", true);
      }
      if newEvent.name == "" || newEvent.date == "" || newEvent.time == "" {
        return None, Toast("Missing fields", "Please fill in all event details", true);
      }
      call := Some(EventInput(newEvent.name, newEvent.time, newEvent.date, user.value));
      match result
      case Added =>
        toast := Toast("Event added", "Your event has been added successfully", false);
        addEventOpen := false;
        newEvent := NewEvent("", IsoDate(today), "");
      case Failed(message) =>
        toast := Toast("Error adding event", if message != "" then message else DefaultErrorText, true);
    }
  }

  /** One step back and one step forward show the same month label again. */
  method NavigationRoundTrip(c: Calendar)
    requires c.Valid() && c.month - 1 >= 12
    modifies c
    ensures c.Valid() && c.currentMonth == old(c.currentMonth) && c.month == old(c.month)
  {
    c.PreviousMonth();
    c.NextMonth();
  }
}
