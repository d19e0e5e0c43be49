/** The time picker: an hour list and a minute list, and the `HH:mm` value rebuilt when
    either is changed. */
module TimePicker {
  import opened Text
  import opened Habits
  import opened DateFormats

  /** `Array.from({ length: n }, (_, i) => i.toString().padStart(2, '0'))`. */
  function Options(n: nat): (options: seq<string>)
    requires n <= 100
    ensures |options| == n
    ensures forall i :: 0 <= i < n ==> |options[i]| == 2 && AllDigits(options[i]) && ParseDigits(options[i]) == i
  {
    assert Pow10(2) == 100;
    seq(n, i requires 0 <= i < n => ZeroPadded(i, 2))
  }

  /** The hour options "00" to "23" and the minute options "00" to "59", in order and all
      different. */
  lemma OptionLists()
    ensures |Options(24)| == 24 && |Options(60)| == 60
    ensures forall i :: 0 <= i < 24 ==> Options(24)[i] == ZeroPadded(i, 2)
    ensures forall i :: 0 <= i < 60 ==> Options(60)[i] == ZeroPadded(i, 2)
    ensures forall i, j :: 0 <= i < j < 60 ==> Options(60)[i] != Options(60)[j]
  {
  }

  /** Entry `i` of a destructured array: the part, or "undefined" as a template string
      writes a missing one. */
  function Part(parts: seq<string>, i: nat): string {
    if i < |parts| then parts[i] else "undefined"
  }

  /** `handleHourChange`: the chosen hour, a colon, and the minute part of the value. */
  function HandleHourChange(value: string, hour: string): string {
    hour + ":" + Part(Split(value, ':'), 1)
  }

  /** `handleMinuteChange`: the hour part of the value, a colon, and the chosen minute. */
  function HandleMinuteChange(value: string, minute: string): string {
    Part(Split(value, ':'), 0) + ":" + minute
  }

  /** A well-formed value splits into its hour and minute strings, which join back into
      the value. */
  lemma SplitTime(minutes: nat)
    requires minutes < 1440
    ensures Split(TimeString(minutes), ':') == [ZeroPadded(minutes / 60, 2), ZeroPadded(minutes % 60, 2)]
    ensures Part(Split(TimeString(minutes), ':'), 0) + ":" + Part(Split(TimeString(minutes), ':'), 1)
            == TimeString(minutes)
  {
    var h, m := ZeroPadded(minutes / 60, 2), ZeroPadded(minutes % 60, 2);
    DigitsHaveNoDash(h);
    DigitsHaveNoDash(m);
    assert TimeString(minutes) == h + [':'] + m;
    SplitTwo(h, m, ':');
  }

  /** Choosing hour `h` in a well-formed value keeps its minute. */
  lemma HourChangeKeepsMinute(minutes: nat, h: nat)
    requires minutes < 1440 && h < 24
    ensures HandleHourChange(TimeString(minutes), Options(24)[h]) == TimeString(h * 60 + minutes % 60)
    ensures ParseTime(HandleHourChange(TimeString(minutes), Options(24)[h])) == Some(h * 60 + minutes % 60)
  {
    SplitTime(minutes);
    var t := h * 60 + minutes % 60;
    assert t / 60 == h && t % 60 == minutes % 60;
    TimeRoundTrip(t);
  }

  /** Choosing minute `m` in a well-formed value keeps its hour. */
  lemma MinuteChangeKeepsHour(minutes: nat, m: nat)
    requires minutes < 1440 && m < 60
    ensures HandleMinuteChange(TimeString(minutes), Options(60)[m]) == TimeString(minutes / 60 * 60 + m)
    ensures ParseTime(HandleMinuteChange(TimeString(minutes), Options(60)[m])) == Some(minutes / 60 * 60 + m)
  {
    SplitTime(minutes);
    var t := minutes / 60 * 60 + m;
    assert t / 60 == minutes / 60 && t % 60 == m;
    TimeRoundTrip(t);
  }

  /** A value without a colon has no minute part: choosing an hour writes "undefined" as
      the minute, and the result is not a time. */
  lemma HourChangeWithoutColon(value: string, hour: string)
    requires ':' !in value && ':' !in hour
    ensures HandleHourChange(value, hour) == hour + ":undefined"
    ensures ParseTime(HandleHourChange(value, hour)).None?
  {
    IndexOfAbsent(value, ':');
    assert Split(value, ':') == [value];
    NotATime(hour, "undefined");
  }

  /** Two parts around a colon, the second not two characters long, are not a time. */
  lemma NotATime(a: string, b: string)
    requires ':' !in a && ':' !in b && |b| != 2
    ensures ParseTime(a + [':'] + b).None?
  {
    SplitTwo(a, b, ':');
  }
}
