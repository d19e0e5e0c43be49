/** The sparkline: one point per value, numbered from 1, its axis labelled with the
    weekdays of the last seven days, and the shaded area under the line. */
module SparklineChart {
  import opened Dates
  import opened Habits

  /** A point of the chart: its 1-based position and its value. */
  datatype ChartPoint = ChartPoint(day: nat, value: real)

  /** `chartData`: the values in order, numbered from 1. */
  function ChartData(data: seq<real>): (points: seq<ChartPoint>)
    ensures |points| == |data|
    ensures forall i :: 0 <= i < |data| ==> points[i].day == i + 1
  {
    seq(|data|, i requires 0 <= i < |data| => ChartPoint(i + 1, data[i]))
  }

  /** The values read back from the points. */
  function Values(points: seq<ChartPoint>): (values: seq<real>)
    ensures |values| == |points|
  {
    seq(|points|, i requires 0 <= i < |points| => points[i].value)
  }

  /** The points hold the values in input order and nothing else. */
  lemma ChartDataKeepsValues(data: seq<real>)
    ensures Values(ChartData(data)) == data
  {
  }

  /** `getDayName`'s index for point `index`, with today's weekday `todayWeekday`
      (`getDay()`, Sunday 0). The dividend is positive for every index the axis passes
      (`day - 1`, never below 0), where the JavaScript `%` and Dafny's agree. */
  function DayIndex(todayWeekday: nat, index: nat): (w: nat)
    requires todayWeekday < 7
    ensures w < 7
  {
    (todayWeekday - (6 - index) + 7) % 7
  }

  /** `getDayName(index)`. */
  function GetDayName(todayWeekday: nat, index: nat): string
    requires todayWeekday < 7
  {
    WeekdayShortNames[DayIndex(todayWeekday, index)]
  }

  /** Point `index` is labelled with the weekday of the day `6 - index` days before today:
      the seven points of a week end on today's weekday, and each label is the weekday after
      the previous one. */
  lemma DayNamesFollowTheCalendar(today: Day, index: nat)
    ensures GetDayName(Weekday(today), index) == WeekdayShortNames[Weekday(today - 6 + index)]
    ensures GetDayName(Weekday(today), 6) == WeekdayShortNames[Weekday(today)]
    ensures DayIndex(Weekday(today), index + 1) == (DayIndex(Weekday(today), index) + 1) % 7
  {
    var w := Weekday(today);
    assert (w - (6 - index) + 7) % 7 == (today - 6 + index + 4) % 7 by {
      assert w == (today + 4) % 7;
      assert (today - 6 + index + 4) - (w - (6 - index) + 7) == (today + 4) - w - 7;
      assert ((today + 4) - w) % 7 == 0;
    }
  }

  /** A command of the area's SVG path. */
  datatype PathCommand = MoveTo(x: int, y: real) | LineTo(x: int, y: real) | Close

  /** The shaded area's path: a move to the first value, a line through every point in
      order, a line down to the baseline under the last point, a line back along the
      baseline to the origin, and a close. Reading the first point of an empty chart is a `TypeError` in the
      source, modelled as `None`. */
  function AreaPath(points: seq<ChartPoint>): (path: Option<seq<PathCommand>>)
    ensures path.None? <==> points == []
    ensures path.Some? ==> |path.value| == |points| + 4
    ensures path.Some? ==> path.value[0] == MoveTo(0, points[0].value)
    ensures path.Some? ==> forall i :: 0 <= i < |points| ==> path.value[i + 1] == LineTo(i, points[i].value)
    ensures path.Some? ==> path.value[|points| + 1] == LineTo(|points| - 1, 0.0)
    ensures path.Some? ==> path.value[|points| + 2] == LineTo(0, 0.0)
    ensures path.Some? ==> path.value[|path.value| - 1] == Close
  {
    if points == [] then None
    else
      var lines := seq(|points|, i requires 0 <= i < |points| => LineTo(i, points[i].value));
      var path := [MoveTo(0, points[0].value)] + lines + [LineTo(|points| - 1, 0.0), LineTo(0, 0.0), Close];
      Some(path)
  }

  /** The area over the chart's data traces the values in order between two points on the
      baseline: its top edge is the data, and it starts and ends at the origin's column. */
  lemma AreaTracesData(data: seq<real>)
    requires data != []
    ensures AreaPath(ChartData(data)).Some?
    ensures forall i :: 0 <= i < |data| ==> AreaPath(ChartData(data)).value[i + 1].y == data[i]
    ensures AreaPath(ChartData(data)).value[0].x == 0
    ensures AreaPath(ChartData(data)).value[|data| + 2] == LineTo(0, 0.0)
  {
    ChartDataKeepsValues(data);
    var points := ChartData(data);
    assert forall i :: 0 <= i < |data| ==> points[i].value == Values(points)[i];
  }
}
