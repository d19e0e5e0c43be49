/** The add-habit dialog: the weekday buttons, the three day presets, the per-day toggle,
    the validation rules, and what a submit does to the form. */
module AddHabitForm {
  import opened Dates
  import opened Habits
  import opened Toasts

  // ----- The weekday buttons and the presets -----

  /** A weekday button: the id stored in `targetDays` and the short name on the button. */
  datatype DayOption = DayOption(id: string, short: string)

  /** The buttons, Monday first. */
  const DaysOfWeek: seq<DayOption> := [
    DayOption("Monday", "Mon"), DayOption("Tuesday", "Tue"), DayOption("Wednesday", "Wed"),
    DayOption("Thursday", "Thu"), DayOption("Friday", "Fri"), DayOption("Saturday", "Sat"),
    DayOption("Sunday", "Sun")]

  /** The ids of some buttons, in order. */
  function Ids(options: seq<DayOption>): (ids: seq<string>)
    ensures |ids| == |options|
    ensures forall i :: 0 <= i < |options| ==> ids[i] == options[i].id
  {
    seq(|options|, i requires 0 <= i < |options| => options[i].id)
  }

  /** The buttons are the seven weekdays from Monday to Sunday: button `i` carries the long
      and the short name of the weekday `(i + 1) % 7` (Sunday 0), and no two share an id. */
  lemma DaysOfWeekAreTheWeek()
    ensures |DaysOfWeek| == 7
    ensures forall i :: 0 <= i < 7 ==>
              DaysOfWeek[i].id == WeekdayNames[(i + 1) % 7]
              && DaysOfWeek[i].short == WeekdayShortNames[(i + 1) % 7]
    ensures Distinct(Ids(DaysOfWeek))
  {
  }

  /** "All Days": every id. */
  function AllDays(): seq<string> {
    Ids(DaysOfWeek)
  }

  /** "Weekdays": the first five ids. */
  function Weekdays(): seq<string> {
    Ids(DaysOfWeek[..5])
  }

  /** "Weekends": the ids after the fifth. */
  function Weekends(): seq<string> {
    Ids(DaysOfWeek[5..])
  }

  /** The presets: all seven days, Monday to Friday, Saturday and Sunday. The two partial
      presets split the week without overlap, and a calendar day's name is in "Weekdays"
      exactly when it falls from Monday to Friday and in "Weekends" exactly when it falls
      on Saturday or Sunday. */
  lemma Presets(d: Day)
    ensures AllDays() == ["Monday", "Tuesday", "Wednesday", "Thursday", "Friday", "Saturday", "Sunday"]
    ensures Weekdays() == ["Monday", "Tuesday", "Wednesday", "Thursday", "Friday"]
    ensures Weekends() == ["Saturday", "Sunday"]
    ensures Weekdays() + Weekends() == AllDays()
    ensures WeekdayName(d) in AllDays()
    ensures WeekdayName(d) in Weekdays() <==> 1 <= Weekday(d) <= 5
    ensures WeekdayName(d) in Weekends() <==> Weekday(d) == 0 || Weekday(d) == 6
  {
    assert DaysOfWeek[..5] == [DaysOfWeek[0], DaysOfWeek[1], DaysOfWeek[2], DaysOfWeek[3], DaysOfWeek[4]];
    assert DaysOfWeek[5..] == [DaysOfWeek[5], DaysOfWeek[6]];
  }

  // ----- The per-day toggle -----

  /** `value.filter(v => v !== x)`: every occurrence of `x` removed, the rest in order. */
  function RemoveAll(s: seq<string>, x: string): (r: seq<string>)
    ensures |r| <= |s|
    ensures forall y :: y in r <==> y in s && y != x
  {
    if s == [] then []
    else
      var init, last := s[..|s| - 1], s[|s| - 1];
      assert s == init + [last];
      RemoveAll(init, x) + (if last == x then [] else [last])
  }

  /** A click on a day button: removes the day when it is selected, appends it otherwise. */
  function Toggle(value: seq<string>, id: string): (r: seq<string>)
    ensures id in r <==> id !in value
    ensures forall y :: y != id ==> (y in r <==> y in value)
  {
    if id in value then RemoveAll(value, id) else value + [id]
  }

  /** Two clicks on the same day leave the same days selected. */
  lemma ToggleTwiceRestoresSelection(value: seq<string>, id: string)
    ensures forall y :: y in Toggle(Toggle(value, id), id) <==> y in value
  {
  }

  /** Appending a value not yet present keeps a list free of repeats. */
  lemma DistinctSnoc(s: seq<string>, x: string)
    requires Distinct(s) && x !in s
    ensures Distinct(s + [x])
  {
  }

  /** Removing a value keeps a list free of repeats. */
  lemma {:induction false} RemoveAllDistinct(s: seq<string>, x: string)
    requires Distinct(s)
    ensures Distinct(RemoveAll(s, x))
  {
    if s != [] {
      var init, last := s[..|s| - 1], s[|s| - 1];
      assert s == init + [last];
      RemoveAllDistinct(init, x);
      if last != x {
        DistinctSnoc(RemoveAll(init, x), last);
      }
    }
  }

  /** Clicking never makes a day appear twice. */
  lemma ToggleKeepsDistinct(value: seq<string>, id: string)
    requires Distinct(value)
    ensures Distinct(Toggle(value, id))
  {
    if id in value {
      RemoveAllDistinct(value, id);
    } else {
      DistinctSnoc(value, id);
    }
  }

  /** Removing a value that is absent changes nothing. */
  lemma {:induction false} RemoveAbsent(s: seq<string>, x: string)
    requires x !in s
    ensures RemoveAll(s, x) == s
  {
    if s != [] {
      var init, last := s[..|s| - 1], s[|s| - 1];
      assert s == init + [last];
      RemoveAbsent(init, x);
    }
  }

  /** Selecting an unselected day and then clicking it again restores the list exactly,
      order included. */
  lemma ToggleTwiceFromUnselected(value: seq<string>, id: string)
    requires id !in value
    ensures Toggle(Toggle(value, id), id) == value
  {
    var s := value + [id];
    assert s[..|s| - 1] == value;
    RemoveAbsent(value, id);
  }

  /** The order of a list is not restored when the day was selected: the second click
      appends it at the end. */
  lemma ToggleTwiceMovesSelectedToEnd()
    ensures Toggle(Toggle(["Monday", "Tuesday"], "Monday"), "Monday") == ["Tuesday", "Monday"]
  {
    var s: seq<string> := ["Monday", "Tuesday"];
    assert s[..1] == ["Monday"];
    assert RemoveAll(s, "Monday") == RemoveAll(s[..1], "Monday") + ["Tuesday"];
    assert ["Monday"][..0] == [];
    assert RemoveAll(s[..1], "Monday") == RemoveAll([], "Monday");
  }

  // ----- Validation -----

  /** A rule of the form's schema that a value breaks. */
  datatype FieldError = NameRequired | NoTargetDay | NoStartDate

  /** The message shown under the field. */
  function Message(e: FieldError): string {
    match e
    case NameRequired => "Habit name is required"
    case NoTargetDay => "Select at least one day"
    case NoStartDate => "Please select a start date"
  }

  /** The schema: a name of at least one character, at least one target day, and a start
      date. A value is accepted exactly when no rule is broken, and each rule is reported
      exactly when its field breaks it. */
  function Validate(name: string, targetDays: seq<string>, startDate: Option<Day>): (errors: seq<FieldError>)
    ensures NameRequired in errors <==> |name| < 1
    ensures NoTargetDay in errors <==> |targetDays| < 1
    ensures NoStartDate in errors <==> startDate.None?
    ensures errors == [] <==> |name| >= 1 && |targetDays| >= 1 && startDate.Some?
  {
    (if |name| < 1 then [NameRequired] else [])
    + (if |targetDays| < 1 then [NoTargetDay] else [])
    + (if startDate.None? then [NoStartDate] else [])
  }

  /** What the form hands to `addHabit`: the start date is given as the day it names. */
  datatype HabitInput = HabitInput(name: string, targetDays: seq<string>, startDate: Day)

  const FailureToast: Toast := Toast("Error", "Failed to create habit. Please try again.", true)

  function CreatedToast(name: string): Toast {
    Toast("Habit created", name + " has been added to your habits", false)
  }

  // ----- The form -----

  class Form {
    var name: string
    var targetDays: seq<string>
    var startDate: Option<Day>
    /** Whether the dialog is open. */
    var open: bool
    /** The day the form was mounted: the default start date, captured once. */
    const mountDay: Day

    /** The defaults: empty name, no day, the mount day as start date, dialog closed. */
    constructor (today: Day)
      ensures name == "" && targetDays == [] && startDate == Some(today) && !open
      ensures mountDay == today
    {
      name := "";
      targetDays := [];
      startDate := Some(today);
      open := false;
      mountDay := today;
    }

    /** The "All Days" button. */
    method SelectAllDays()
      modifies this`targetDays
      ensures targetDays == AllDays()
    {
      targetDays := AllDays();
    }

    /** The "Weekdays" button. */
    method SelectWeekdays()
      modifies this`targetDays
      ensures targetDays == Weekdays()
    {
      targetDays := Weekdays();
    }

    /** The "Weekends" button. */
    method SelectWeekends()
      modifies this`targetDays
      ensures targetDays == Weekends()
    {
      targetDays := Weekends();
    }

    /** A click on the button of day `id`. */
    method ToggleDay(id: string)
      modifies this`targetDays
      ensures targetDays == Toggle(old(targetDays), id)
      ensures id in targetDays <==> id !in old(targetDays)
      ensures Distinct(old(targetDays)) ==> Distinct(targetDays)
    {
      if Distinct(targetDays) {
        ToggleKeepsDistinct(targetDays, id);
      }
      targetDays := Toggle(targetDays, id);
    }

    /** The start-date calendar's selection: a day, or `None` when the selected day is
        clicked again. */
    method SelectDate(d: Option<Day>)
      modifies this`startDate
      ensures startDate == d
    {
      startDate := d;
    }

    /** A submit. A value the schema rejects is not submitted: the errors are shown and
        nothing changes. Otherwise `addHabit` is called once with the form's value;
        `result` is what that call does. When it resolves, a success toast names the habit,
        the form goes back to its defaults and the dialog closes; when it throws, an error
        toast is shown and the form and the dialog stay as they were. */
    method Submit(result: AddResult) returns (errors: seq<FieldError>, call: Option<HabitInput>, toast: Option<Toast>)
      modifies this`name, this`targetDays, this`startDate, this`open
      ensures errors == Validate(old(name), old(targetDays), old(startDate))
      ensures call.Some? <==> errors == []
      ensures call.Some? ==> call.value == HabitInput(old(name), old(targetDays), old(startDate).value)
      ensures call.None? ==> toast.None?
      ensures call.Some? && result.Added? ==>
                toast == Some(CreatedToast(old(name)))
                && name == "" && targetDays == [] && startDate == Some(mountDay) && !open
      ensures call.Some? && result.Failed? ==> toast == Some(FailureToast)
      ensures (call.None? || result.Failed?) ==>
                name == old(name) && targetDays == old(targetDays) && startDate == old(startDate)
                && open == old(open)
    {
      errors := Validate(name, targetDays, startDate);
      if errors != [] {
        return errors, None, None;
      }
      call := Some(HabitInput(name, targetDays, startDate.value));
      match result
      case Added =>
        toast := Some(CreatedToast(name));
        name, targetDays, startDate := "", [], Some(mountDay);
        open := false;
      case Failed(_) =>
        toast := Some(FailureToast);
    }
  }
}
