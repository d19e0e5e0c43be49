/** The best-days bar chart: the completion rate of each weekday, Monday first, with every
    weekday that reaches the highest positive rate flagged as a best day, and the sentence
    under the chart. */
module DayAnalysisChart {
  import opened Habits

  /** One input point: a weekday's short name and its completion rate. */
  datatype DayValue = DayValue(name: string, value: real)

  /** One bar of the chart. */
  datatype Bar = Bar(name: string, value: real, isBest: bool)

  const DaysOfWeek: seq<string> := ["Mon", "Tue", "Wed", "Thu", "Fri", "Sat", "Sun"]

  /** `Math.max(...values)` over a non-empty input. */
  function MaxValue(raw: seq<DayValue>): (m: real)
    requires raw != []
    ensures forall i :: 0 <= i < |raw| ==> raw[i].value <= m
    ensures exists i :: 0 <= i < |raw| && raw[i].value == m
  {
    if |raw| == 1 then raw[0].value
    else
      var m := MaxValue(raw[1..]);
      assert forall i :: 1 <= i < |raw| ==> raw[i] == raw[1..][i - 1];
      if raw[0].value >= m then raw[0].value else m
  }

  /** `raw.find(item => item.name === name)`: the value of the first point with that name. */
  function Find(raw: seq<DayValue>, name: string): (v: Option<real>)
    ensures v.None? <==> forall i :: 0 <= i < |raw| ==> raw[i].name != name
    ensures v.Some? ==> exists i :: 0 <= i < |raw| && raw[i] == DayValue(name, v.value)
                          && forall j :: 0 <= j < i ==> raw[j].name != name
  {
    if raw == [] then None
    else if raw[0].name == name then
      assert raw[0] == DayValue(name, raw[0].value);
      Some(raw[0].value)
    else
      var v := Find(raw[1..], name);
      assert forall i :: 1 <= i < |raw| ==> raw[i] == raw[1..][i - 1];
      if v.Some? then
        var k :| 0 <= k < |raw[1..]| && raw[1..][k] == DayValue(name, v.value)
                 && forall j :: 0 <= j < k ==> raw[1..][j].name != name;
        assert raw[k + 1] == DayValue(name, v.value);
        v
      else v
  }

  /** The value shown for a weekday: the first point with its name, or 0. */
  function ValueOf(raw: seq<DayValue>, name: string): real {
    match Find(raw, name)
    case Some(v) => v
    case None => 0.0
  }

  /** `processData`: seven bars, Monday to Sunday. Without input every bar is 0 and none is
      best; otherwise a bar shows the value of the first point with its name (0 when there
      is none) and is best when that value is the maximum of all input values and positive. */
  function ProcessData(raw: seq<DayValue>): (bars: seq<Bar>)
    ensures |bars| == 7
    ensures forall i :: 0 <= i < 7 ==> bars[i].name == DaysOfWeek[i]
    ensures raw == [] ==> forall i :: 0 <= i < 7 ==> bars[i].value == 0.0 && !bars[i].isBest
    ensures raw != [] ==> forall i :: 0 <= i < 7 ==>
              (bars[i].isBest <==> bars[i].value == MaxValue(raw) && bars[i].value > 0.0)
  {
    if raw == [] then
      seq(7, i requires 0 <= i < 7 => Bar(DaysOfWeek[i], 0.0, false))
    else
      var m := MaxValue(raw);
      seq(7, i requires 0 <= i < 7 =>
        var v := ValueOf(raw, DaysOfWeek[i]);
        Bar(DaysOfWeek[i], v, v == m && v > 0.0))
  }

  /** A bar's value is taken from the input when a point has its name, and is 0 otherwise. */
  lemma BarValues(raw: seq<DayValue>, i: nat)
    requires raw != [] && i < 7
    ensures (forall k :: 0 <= k < |raw| ==> raw[k].name != DaysOfWeek[i]) ==> ProcessData(raw)[i].value == 0.0
    ensures (exists k :: 0 <= k < |raw| && raw[k].name == DaysOfWeek[i]) ==>
              exists k :: 0 <= k < |raw| && raw[k] == DayValue(DaysOfWeek[i], ProcessData(raw)[i].value)
  {
    var f := Find(raw, DaysOfWeek[i]);
    assert ProcessData(raw)[i].value == ValueOf(raw, DaysOfWeek[i]);
  }

  /** A best bar is at least as high as every bar, and every bar tied with a best bar is
      best too. */
  lemma BestIsMaximal(raw: seq<DayValue>, i: nat, j: nat)
    requires i < 7 && j < 7
    requires ProcessData(raw)[i].isBest
    ensures ProcessData(raw)[j].value <= ProcessData(raw)[i].value
    ensures ProcessData(raw)[j].value == ProcessData(raw)[i].value ==> ProcessData(raw)[j].isBest
  {
    var bars := ProcessData(raw);
    BarValues(raw, j);
    if exists k :: 0 <= k < |raw| && raw[k].name == DaysOfWeek[j] {
      var k :| 0 <= k < |raw| && raw[k] == DayValue(DaysOfWeek[j], bars[j].value);
      assert raw[k].value <= MaxValue(raw);
    }
  }

  /** Without a positive input value there is no best day. */
  lemma NoBestWithoutPositive(raw: seq<DayValue>)
    requires forall k :: 0 <= k < |raw| ==> raw[k].value <= 0.0
    ensures forall i :: 0 <= i < 7 ==> !ProcessData(raw)[i].isBest
  {
    if raw != [] {
      var k :| 0 <= k < |raw| && raw[k].value == MaxValue(raw);
    }
  }

  /** `data.filter(day => day.isBest)`: the best bars, in order. */
  function BestDays(bars: seq<Bar>): (best: seq<Bar>)
    ensures |best| <= |bars|
    ensures forall b :: b in best <==> b in bars && b.isBest
    ensures forall k :: 0 <= k < |best| ==> best[k].isBest
  {
    if bars == [] then []
    else
      var init := bars[..|bars| - 1];
      assert bars == init + [bars[|bars| - 1]];
      BestDays(init) + (if bars[|bars| - 1].isBest then [bars[|bars| - 1]] else [])
  }

  /** One more bar adds itself at the end of the best bars exactly when it is best: the
      filter keeps the bars' order. */
  lemma BestDaysSnoc(bars: seq<Bar>, b: Bar)
    ensures BestDays(bars + [b]) == BestDays(bars) + (if b.isBest then [b] else [])
  {
    assert (bars + [b])[..|bars + [b]| - 1] == bars;
  }

  /** `hasData`: some bar is positive. */
  predicate HasData(bars: seq<Bar>) {
    exists i :: 0 <= i < |bars| && bars[i].value > 0.0
  }

  /** The sentence under the chart. */
  datatype Message =
    | MostProductive(day: string, value: real)
    | Tied(value: real, days: seq<string>)
    | NoCompletionData
    | NoDataForPeriod

  function Names(bars: seq<Bar>): (names: seq<string>)
    ensures |names| == |bars|
    ensures forall i :: 0 <= i < |bars| ==> names[i] == bars[i].name
  {
    seq(|bars|, i requires 0 <= i < |bars| => bars[i].name)
  }

  /** The sentence: without a positive bar, the no-data message for the period; with one
      best bar, its name and value; with several, the tie listing them all; otherwise the
      bare no-data message. */
  function Summary(bars: seq<Bar>): (m: Message)
    ensures m.NoDataForPeriod? <==> !HasData(bars)
    ensures m.MostProductive? <==> HasData(bars) && |BestDays(bars)| == 1
    ensures m.MostProductive? ==> Bar(m.day, m.value, true) == BestDays(bars)[0] && Bar(m.day, m.value, true) in bars
    ensures m.Tied? <==> HasData(bars) && |BestDays(bars)| > 1
    ensures m.Tied? ==> m.days == Names(BestDays(bars)) && m.value == BestDays(bars)[0].value
    ensures m.Tied? ==> forall d :: d in m.days ==> exists b :: b in bars && b.isBest && b.name == d
    ensures m.NoCompletionData? <==> HasData(bars) && BestDays(bars) == []
    ensures m.NoCompletionData? ==> forall b :: b in bars ==> !b.isBest
  {
    if !HasData(bars) then NoDataForPeriod
    else
      var best := BestDays(bars);
      if |best| == 1 then
        assert best[0] in best;
        MostProductive(best[0].name, best[0].value)
      else if |best| > 1 then
        var names := Names(best);
        assert forall d :: d in names ==> exists k :: 0 <= k < |best| && best[k].name == d;
        Tied(best[0].value, names)
      else
        NoCompletionData
  }

  /** A positive best bar is named under the chart: as the most productive day when it is
      the only best bar, and among the tied days otherwise. */
  lemma BestBarIsNamed(bars: seq<Bar>, i: nat)
    requires i < |bars| && bars[i].isBest && bars[i].value > 0.0
    ensures Summary(bars).MostProductive? || Summary(bars).Tied?
    ensures Summary(bars).MostProductive? ==> Summary(bars).day == bars[i].name
    ensures Summary(bars).Tied? ==> bars[i].name in Summary(bars).days
  {
    var best := BestDays(bars);
    assert HasData(bars);
    assert bars[i] in best;
    var k :| 0 <= k < |best| && best[k] == bars[i];
    if |best| > 1 {
      assert Names(best)[k] == bars[i].name;
    }
  }

  /** So every best weekday of the chart is named in its sentence. */
  lemma BestDayIsNamed(raw: seq<DayValue>, i: nat)
    requires i < 7 && ProcessData(raw)[i].isBest
    ensures Summary(ProcessData(raw)).MostProductive? ==> Summary(ProcessData(raw)).day == DaysOfWeek[i]
    ensures Summary(ProcessData(raw)).Tied? ==> DaysOfWeek[i] in Summary(ProcessData(raw)).days
    ensures Summary(ProcessData(raw)).MostProductive? || Summary(ProcessData(raw)).Tied?
  {
    var bars := ProcessData(raw);
    assert raw != [] && bars[i].value > 0.0;
    BestBarIsNamed(bars, i);
  }

  /** Every day of a tie shows the same, highest value. */
  lemma TiedDaysShareTheMaximum(raw: seq<DayValue>, i: nat, j: nat)
    requires i < 7 && j < 7
    requires ProcessData(raw)[i].isBest && ProcessData(raw)[j].isBest
    ensures ProcessData(raw)[i].value == ProcessData(raw)[j].value
  {
    BestIsMaximal(raw, i, j);
    BestIsMaximal(raw, j, i);
  }

  /** The maximum runs over every input point, including points whose name is no weekday:
      a higher value under another name leaves the chart with data but no best day, and the
      sentence is the bare no-data message. */
  lemma OtherNameLeavesNoBest()
    ensures Summary(ProcessData([DayValue("Mon", 50.0), DayValue("All", 80.0)])) == NoCompletionData
  {
    var bars := ProcessData([DayValue("Mon", 50.0), DayValue("All", 80.0)]);
    ExampleBars();
    assert HasData(bars) by { assert bars[0].value > 0.0; }
    assert forall i :: 0 <= i < 7 ==> !bars[i].isBest;
    var best := BestDays(bars);
    assert forall k :: 0 <= k < |best| ==> best[k] in bars && best[k].isBest;
  }

  /** The bars of `OtherNameLeavesNoBest`: Monday at 50, the rest at 0, none best. */
  lemma ExampleBars()
    ensures ProcessData([DayValue("Mon", 50.0), DayValue("All", 80.0)])
         == [Bar("Mon", 50.0, false)] + seq(6, i requires 0 <= i < 6 => Bar(DaysOfWeek[i + 1], 0.0, false))
  {
    var raw := [DayValue("Mon", 50.0), DayValue("All", 80.0)];
    assert MaxValue(raw) == 80.0;
    assert Find(raw, "Mon") == Some(50.0);
    forall i | 1 <= i < 7
      ensures ValueOf(raw, DaysOfWeek[i]) == 0.0
    {
      assert DaysOfWeek[i] != "Mon" && DaysOfWeek[i] != "All";
    }
  }
}
