/** The trend chart: axis labels for the selected time range, the data points fitted to
    those labels (averaged in groups when there are more points than labels), and the
    chart's title. */
module TrendChart {
  import opened Dates
  import opened Numeric
  import opened Text

  datatype TimeRange = Week | Month | Quarter | Year | All

  // ----- Labels -----

  /** `n.toString()` for any integer. */
  function IntString(n: int): (s: string)
    ensures |s| >= 1
    ensures n >= 0 ==> s == DecimalString(n)
  {
    if n < 0 then "-" + DecimalString(-n) else DecimalString(n)
  }

  /** The week label `i` days before today: that day's short weekday name. */
  function WeekLabel(today: Day, i: int): string {
    WeekdayShortNames[Weekday(today - i)]
  }

  /** The label of a week from day `start` to day `end`: "start-end MMM", the days of
      month of its first and last day and the short name of the month of its last day. */
  function WeekRangeOf(start: Day, end: Day): string {
    DecimalString(DayOfMonth(start)) + "-" + DecimalString(DayOfMonth(end)) + " "
      + MonthShortNames[MonthOf(MonthContaining(end))]
  }

  /** The last day of the week `i` weeks before the one ending today. */
  function WeekEnd(today: Day, i: int): Day {
    today - 7 * i
  }

  /** The first day of that week. */
  function WeekStart(today: Day, i: int): Day {
    WeekEnd(today, i) - 6
  }

  /** The month-range label of the week ending `7 * i` days before today. */
  function WeekRangeLabel(today: Day, i: int): string {
    WeekRangeOf(WeekStart(today, i), WeekEnd(today, i))
  }

  /** `date.setMonth(date.getMonth() - i)` on today: the same day of month `i` months
      back, running on into the following month when that month is shorter. */
  function SetMonthBack(today: Day, i: int): Day {
    FirstOfMonth(MonthContaining(today) - i) + DayOfMonth(today) - 1
  }

  /** When the target month is long enough, stepping back lands on the same day of month
      exactly `i` months back. */
  lemma SetMonthBackInMonth(today: Day, i: int)
    requires DayOfMonth(today) <= DaysInMonth(MonthContaining(today) - i)
    ensures MonthContaining(SetMonthBack(today, i)) == MonthContaining(today) - i
    ensures DayOfMonth(SetMonthBack(today, i)) == DayOfMonth(today)
  {
    var am := MonthContaining(today) - i;
    NextMonthStart(am);
    MonthContainingIs(SetMonthBack(today, i), am);
  }

  /** The label of the quarter and year ranges as written: the short name of the month of
      `SetMonthBack(today, i)`. */
  function MonthStepLabel(today: Day, i: int): string {
    MonthShortNames[MonthOf(MonthContaining(SetMonthBack(today, i)))]
  }

  /** The labels `labelOf(top)`, `labelOf(top - 1)`, ..., `labelOf(0)`. */
  function CountedDown(top: nat, labelOf: int -> string): (labels: seq<string>)
    ensures |labels| == top + 1
    ensures forall k :: 0 <= k <= top ==> labels[k] == labelOf(top - k)
  {
    seq(top + 1, k requires 0 <= k <= top => labelOf(top - k))
  }

  /** The loop `for (let i = top; i >= 0; i--) labels.push(labelOf(i))`. */
  method CountDown(top: nat, labelOf: int -> string) returns (labels: seq<string>)
    ensures labels == CountedDown(top, labelOf)
  {
    labels := [];
    var i: int := top;
    while i >= 0
      invariant -1 <= i <= top && |labels| == top - i
      invariant forall k :: 0 <= k < |labels| ==> labels[k] == labelOf(top - k)
    {
      labels := labels + [labelOf(i)];
      i := i - 1;
    }
  }

  function WeekLabels(today: Day): int -> string {
    i => WeekLabel(today, i)
  }

  function WeekRangeLabels(today: Day): int -> string {
    i => WeekRangeLabel(today, i)
  }

  function MonthStepLabels(today: Day): int -> string {
    i => MonthStepLabel(today, i)
  }

  /** The five years up to `currentYear`. */
  function YearLabels(currentYear: int): (labels: seq<string>)
    ensures |labels| == 5
    ensures forall k :: 0 <= k < 5 ==> labels[k] == IntString(currentYear - 4 + k)
  {
    seq(5, k requires 0 <= k < 5 => IntString(currentYear - 4 + k))
  }

  /** The loop `for (let year = currentYear - 4; year <= currentYear; year++)
      labels.push(year.toString())`. */
  method CountUpYears(currentYear: int) returns (labels: seq<string>)
    ensures labels == YearLabels(currentYear)
  {
    labels := [];
    var year := currentYear - 4;
    while year <= currentYear
      invariant currentYear - 4 <= year <= currentYear + 1
      invariant |labels| == year - (currentYear - 4)
      invariant forall k :: 0 <= k < |labels| ==> labels[k] == IntString(currentYear - 4 + k)
    {
      labels := labels + [IntString(year)];
      year := year + 1;
    }
  }

  /** `getLabels`: as many labels as the range's title promises, oldest first: the short
      weekday names of the last seven days; the day ranges of the last four weeks; the month
      names of the dates stepped back 2..0 or 11..0 months with `setMonth`; the last five
      years. */
  method GetLabels(range: TimeRange, today: Day) returns (labels: seq<string>)
    ensures |labels| == LabelCount(range)
    ensures range.Week? ==> labels == CountedDown(6, WeekLabels(today))
    ensures range.Month? ==> labels == CountedDown(3, WeekRangeLabels(today))
    ensures range.Quarter? ==> labels == CountedDown(2, MonthStepLabels(today))
    ensures range.Year? ==> labels == CountedDown(11, MonthStepLabels(today))
    ensures range.All? ==> labels == YearLabels(CivilOf(today).year)
  {
    match range
    case Week =>
      labels := CountDown(6, WeekLabels(today));
    case Month =>
      labels := CountDown(3, WeekRangeLabels(today));
    case Quarter =>
      labels := CountDown(2, MonthStepLabels(today));
    case Year =>
      labels := CountDown(11, MonthStepLabels(today));
    case All =>
      labels := CountUpYears(CivilOf(today).year);
  }

  /** The seven week labels are seven different weekdays, and the last is today's. */
  lemma WeekLabelsDistinct(today: Day, i: int, j: int)
    requires 0 <= i < j <= 6
    ensures WeekLabel(today, i) != WeekLabel(today, j)
    ensures WeekLabel(today, 0) == WeekdayShortNames[Weekday(today)]
  {
    WeekdayShortNamesDistinct();
    assert Weekday(today - i) != Weekday(today - j) by {
      WeekdayPeriodic(today - j, 0);
    }
  }

  /** Each week of the month range spans seven days and ends the day before the next one
      starts. */
  lemma WeekRangesAdjoin(today: Day, i: int)
    ensures WeekEnd(today, i) - WeekStart(today, i) == 6
    ensures WeekEnd(today, i + 1) + 1 == WeekStart(today, i)
  {
  }

  /** The month labels as evidently intended: the short name of the calendar month `i`
      months before today's. */
  function CalendarMonthLabel(today: Day, i: int): (name: string)
    ensures name == MonthShortNames[MonthOf(MonthContaining(today) - i)]
    ensures |name| == 3
  {
    MonthShortNamesShape();
    MonthShortNames[MonthOf(MonthContaining(today) - i)]
  }

  /** Twelve consecutive calendar months have twelve different labels. */
  lemma CalendarMonthLabelsDistinct(today: Day, i: int, j: int)
    requires 0 <= i < j <= 11
    ensures CalendarMonthLabel(today, i) != CalendarMonthLabel(today, j)
  {
    MonthShortNamesShape();
    MonthsApart(MonthContaining(today), i, j);
  }

  /** Months less than a year apart fall in different months of the year. */
  lemma MonthsApart(am: int, i: int, j: int)
    requires 0 <= i < j <= 11
    ensures MonthOf(am - i) != MonthOf(am - j)
  {
  }

  /** Up to the 28th the written labels are the intended ones. */
  lemma MonthStepLabelEarlyInMonth(today: Day, i: int)
    requires DayOfMonth(today) <= 28
    ensures MonthStepLabel(today, i) == CalendarMonthLabel(today, i)
  {
    SetMonthBackInMonth(today, i);
  }

  /** On 2025-05-31 (day 20239), stepping the date back one month lands on the 31st of
      April, which `Date` turns into May 1: the quarter labels read Mar, May, May. */
  lemma QuarterLabelsOnMay31()
    ensures [MonthStepLabel(20239, 2), MonthStepLabel(20239, 1), MonthStepLabel(20239, 0)] == ["Mar", "May", "May"]
    ensures [CalendarMonthLabel(20239, 2), CalendarMonthLabel(20239, 1), CalendarMonthLabel(20239, 0)] == ["Mar", "Apr", "May"]
  {
    StepsBackFromMay31();
    NamesOf2025();
  }

  lemma NamesOf2025()
    ensures MonthShortNames[MonthOf(24302)] == "Mar"
    ensures MonthShortNames[MonthOf(24303)] == "Apr"
    ensures MonthShortNames[MonthOf(24304)] == "May"
  {
    assert MonthOf(24302) == 2 && MonthOf(24303) == 3 && MonthOf(24304) == 4;
  }

  /** From day 20239 the dates stepped back 0, 1 and 2 months fall in May, May and March. */
  lemma StepsBackFromMay31()
    ensures MonthContaining(20239) == 24304
    ensures MonthContaining(SetMonthBack(20239, 0)) == 24304
    ensures MonthContaining(SetMonthBack(20239, 1)) == 24304
    ensures MonthContaining(SetMonthBack(20239, 2)) == 24302
  {
    FirstsOf2025();
    MonthContainingIs(20239, 24304);
    assert DayOfMonth(20239) == 31;
    assert SetMonthBack(20239, 2) == 20178;
    MonthContainingIs(20178, 24302);
    assert SetMonthBack(20239, 1) == 20209;
    MonthContainingIs(20209, 24304);
  }

  /** The first days of March to June 2025. */
  lemma FirstsOf2025()
    ensures FirstOfMonth(24302) == 20148 && FirstOfMonth(24303) == 20179
    ensures FirstOfMonth(24304) == 20209 && FirstOfMonth(24305) == 20240
  {
    assert DaysBeforeYear(2025) == 20089;
    assert YearOf(24302) == 2025 && MonthOf(24302) == 2;
    assert YearOf(24303) == 2025 && MonthOf(24303) == 3;
    assert YearOf(24304) == 2025 && MonthOf(24304) == 4;
    assert YearOf(24305) == 2025 && MonthOf(24305) == 5;
  }

  // ----- Fitting the data to the labels -----

  /** A point of the chart; its value is NaN where the source divides 0 by 0. */
  datatype Point = Point(text: string, value: Number)

  function Sum(xs: seq<real>): real {
    if xs == [] then 0.0 else Sum(xs[..|xs| - 1]) + xs[|xs| - 1]
  }

  lemma {:induction false} SumBounds(xs: seq<real>, lo: real, hi: real)
    requires forall i :: 0 <= i < |xs| ==> lo <= xs[i] <= hi
    ensures lo * |xs| as real <= Sum(xs) <= hi * |xs| as real
  {
    if xs != [] {
      SumBounds(xs[..|xs| - 1], lo, hi);
    }
  }

  /** `Math.round(avg * 100) / 100` of a group's mean; NaN for an empty group. */
  function RoundedMean(group: seq<real>): (v: Number)
    ensures v.NaN? <==> group == []
  {
    if |group| == 0 then NaN
    else Finite(Round(Sum(group) / |group| as real * 100.0) as real / 100.0)
  }

  /** The mean of values in [0, 100] stays in [0, 100] after rounding. */
  lemma RoundedMeanWithin(group: seq<real>)
    requires group != []
    requires forall i :: 0 <= i < |group| ==> 0.0 <= group[i] <= 100.0
    ensures 0.0 <= RoundedMean(group).value <= 100.0
  {
    var n := |group| as real;
    SumBounds(group, 0.0, 100.0);
    QuotientWithin(Sum(group), n, 0.0, 100.0);
    RoundWithin(Sum(group) / n * 100.0, 0, 10000);
  }

  /** `Math.ceil(n / l)` for positive `l`. */
  function CeilDiv(n: nat, l: nat): (g: nat)
    requires l > 0
    ensures l * g >= n && l * (g - 1) < n
  {
    var g := (n + l - 1) / l;
    assert n + l - 1 == l * g + (n + l - 1) % l;
    g
  }

  /** `data.slice(k * g, Math.min(k * g + g, n))`: group `k`, empty once `k * g` reaches the
      end of the data. */
  function Group(data: seq<real>, g: nat, k: nat): (group: seq<real>)
    ensures group == [] <==> g == 0 || k * g >= |data|
  {
    var start := k * g;
    var end := if start + g < |data| then start + g else |data|;
    if start < end then data[start..end] else []
  }

  /** `formatData`: with more data than labels, one point per label holding the rounded mean
      of a group of `Math.ceil(n / labels)` consecutive values; otherwise one point per value,
      labelled in order. */
  method FormatData(data: seq<real>, labels: seq<string>) returns (points: seq<Point>)
    requires |labels| > 0
    ensures |data| > |labels| ==> |points| == |labels|
    ensures |data| > |labels| ==> forall k :: 0 <= k < |points| ==>
              points[k] == Point(labels[k], RoundedMean(Group(data, CeilDiv(|data|, |labels|), k)))
    ensures |data| <= |labels| ==> |points| == |data|
    ensures |data| <= |labels| ==> forall k :: 0 <= k < |points| ==> points[k] == Point(labels[k], Finite(data[k]))
  {
    var n, l := |data|, |labels|;
    if n > l {
      var groupSize := CeilDiv(n, l);
      points := [];
      var i := 0;
      while i < l
        invariant 0 <= i <= l && |points| == i
        invariant forall k :: 0 <= k < i ==> points[k] == Point(labels[k], RoundedMean(Group(data, groupSize, k)))
      {
        var group := Group(data, groupSize, i);
        points := points + [Point(labels[i], RoundedMean(group))];
        i := i + 1;
      }
    } else {
      points := seq(n, k requires 0 <= k < n => Point(labels[k % l], Finite(data[k])));
      forall k | 0 <= k < n
        ensures points[k] == Point(labels[k], Finite(data[k]))
      {
        SmallRemainder(k, l);
      }
    }
  }

  lemma SmallRemainder(k: nat, l: nat)
    requires k < l
    ensures k % l == k
  {
  }

  /** The groups, one after another, from group 0 to group `m - 1`. */
  function Grouped(data: seq<real>, g: nat, m: nat): seq<real> {
    if m == 0 then [] else Grouped(data, g, m - 1) + Group(data, g, m - 1)
  }

  /** The first `m` groups are the data up to `m * g`. */
  lemma {:induction false} GroupedPrefix(data: seq<real>, g: nat, m: nat)
    ensures Grouped(data, g, m) == data[..if m * g < |data| then m * g else |data|]
  {
    if m > 0 {
      GroupedPrefix(data, g, m - 1);
      assert m * g == (m - 1) * g + g;
    }
  }

  /** The groups of `formatData` run over all the data, each value in exactly one group. */
  lemma GroupsCoverData(data: seq<real>, l: nat)
    requires 0 < l < |data|
    ensures Grouped(data, CeilDiv(|data|, l), l) == data
  {
    GroupedPrefix(data, CeilDiv(|data|, l), l);
  }

  /** Groups go empty once they start past the data: with 8 values and 7 labels the groups
      hold two values each, and the last three points are NaN. */
  lemma TrailingGroupsEmpty(data: seq<real>)
    requires |data| == 8
    ensures CeilDiv(8, 7) == 2
    ensures forall k :: 4 <= k < 7 ==> RoundedMean(Group(data, CeilDiv(8, 7), k)).NaN?
  {
  }

  /** The grouping evidently meant: `l` consecutive groups of `n / l` values, the first
      `n % l` of them one value longer, so that with at least as many values as labels
      every group holds a value. Group `k` starts at `BalancedStart(n, l, k)`. */
  function BalancedStart(n: nat, l: nat, k: nat): nat
    requires l > 0
  {
    k * (n / l) + (if k < n % l then k else n % l)
  }

  /** Each group starts where the previous one ends, and is at least one value long when
      there are at least as many values as groups. */
  lemma BalancedStep(n: nat, l: nat, k: nat)
    requires 0 < l <= n && k < l
    ensures BalancedStart(n, l, k + 1) >= BalancedStart(n, l, k) + 1
    ensures BalancedStart(n, l, k + 1) == BalancedStart(n, l, k) + n / l + (if k < n % l then 1 else 0)
  {
    var q, r := n / l, n % l;
    assert (k + 1) * q == k * q + q;
    assert n == l * q + r;
    assert l * q == n - r > 0;
  }

  /** Group starts stay within the data, and the groups end exactly at its end. */
  lemma {:induction false} BalancedBounds(n: nat, l: nat, k: nat)
    requires 0 < l <= n && k <= l
    ensures BalancedStart(n, l, k) <= n
    ensures BalancedStart(n, l, l) == n
    decreases l - k
  {
    var q, r := n / l, n % l;
    assert l * q + r == n;
    assert BalancedStart(n, l, l) == l * q + r;
    if k < l {
      BalancedBounds(n, l, k + 1);
      BalancedStep(n, l, k);
    }
  }

  /** Balanced group `k`. */
  function BalancedGroup(data: seq<real>, l: nat, k: nat): (group: seq<real>)
    requires 0 < l <= |data| && k < l
    ensures |group| >= 1
  {
    BalancedStep(|data|, l, k);
    BalancedBounds(|data|, l, k + 1);
    data[BalancedStart(|data|, l, k)..BalancedStart(|data|, l, k + 1)]
  }

  /** The balanced groups, one after another. */
  function BalancedGrouped(data: seq<real>, l: nat, m: nat): seq<real>
    requires 0 < l <= |data| && m <= l
  {
    if m == 0 then [] else BalancedGrouped(data, l, m - 1) + BalancedGroup(data, l, m - 1)
  }

  /** The first `m` balanced groups are the data up to the start of group `m`. */
  lemma {:induction false} BalancedGroupedPrefix(data: seq<real>, l: nat, m: nat)
    requires 0 < l <= |data| && m <= l
    ensures BalancedStart(|data|, l, m) <= |data|
    ensures BalancedGrouped(data, l, m) == data[..BalancedStart(|data|, l, m)]
  {
    BalancedBounds(|data|, l, m);
    if m > 0 {
      BalancedGroupedPrefix(data, l, m - 1);
      BalancedStep(|data|, l, m - 1);
      PrefixThenSlice(data, BalancedStart(|data|, l, m - 1), BalancedStart(|data|, l, m));
    } else {
      assert BalancedStart(|data|, l, 0) == 0;
    }
  }

  /** A prefix followed by the slice after it is the longer prefix. */
  lemma PrefixThenSlice(data: seq<real>, a: nat, b: nat)
    requires a <= b <= |data|
    ensures data[..a] + data[a..b] == data[..b]
  {
  }

  /** With at least as many values as labels, the balanced groups cover the data and no
      point is NaN. */
  lemma BalancedGroupsCoverData(data: seq<real>, l: nat, k: nat)
    requires 0 < l <= |data| && k < l
    ensures BalancedGrouped(data, l, l) == data
    ensures RoundedMean(BalancedGroup(data, l, k)).Finite?
  {
    BalancedGroupedPrefix(data, l, l);
    BalancedBounds(|data|, l, l);
  }

  // ----- Title -----

  /** The number of labels of each range. */
  function LabelCount(range: TimeRange): nat {
    match range
    case Week => 7
    case Month => 4
    case Quarter => 3
    case Year => 12
    case All => 5
  }

  /** `getTitle`. */
  function Title(range: TimeRange): (title: string)
    ensures |title| >= 9 && title[|title| - 6..] == " Trend"
  {
    match range
    case Week => "7-Day Trend"
    case Month => "4-Week Trend"
    case Quarter => "3-Month Trend"
    case Year => "12-Month Trend"
    case All => "All Time Trend"
  }

  /** Every range has its own title: the titles already differ in their first character. */
  lemma TitlesDistinct(r1: TimeRange, r2: TimeRange)
    ensures r1 != r2 ==> Title(r1) != Title(r2)
  {
    if r1 != r2 {
      assert Title(r1)[0] != Title(r2)[0];
    }
  }

  /** A numbered title starts with the number of labels the range shows and a dash. */
  lemma TitleNamesLabelCount(r: TimeRange)
    ensures var n := DecimalString(LabelCount(r));
            r != All ==> |n| < |Title(r)| && Title(r)[..|n|] == n && Title(r)[|n|] == '-'
  {
    LabelCountStrings();
  }

  /** The label counts of the numbered ranges, written out. */
  lemma LabelCountStrings()
    ensures DecimalString(7) == "7" && DecimalString(4) == "4" && DecimalString(3) == "3"
    ensures DecimalString(12) == "12"
  {
    assert DecimalString(1) == "1";
  }
}
