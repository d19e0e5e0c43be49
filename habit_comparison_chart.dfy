/** The habit-performance bar chart: the usable input points, highest completion first, at
    most ten of them, each completion rounded to hundredths and clamped to [0, 100], with
    a placeholder bar when nothing is usable. */
module HabitComparisonChart {
  import opened Habits
  import opened Numeric
  import opened Text
  import opened Sorting

  /** An input's `completion` field: a number, or a value of another type. */
  datatype Completion = Num(v: real) | NotNumber

  /** An input point as it may arrive: a falsy entry, or a name and a completion. */
  datatype RawItem = Absent | RawItem(name: string, completion: Completion)

  /** A usable input point. */
  datatype Item = Item(name: string, completion: real)

  /** A bar of the chart. */
  datatype Point = Point(name: string, completion: real, id: string)

  const Placeholder: seq<Point> := [Point("No data", 0.0, "no-data")]

  /** The filter: a present entry with a numeric completion and a non-empty name. */
  predicate Usable(x: RawItem) {
    x.RawItem? && x.completion.Num? && x.name != ""
  }

  /** The usable entries, in input order. */
  function UsableItems(raw: seq<RawItem>): (items: seq<Item>)
    ensures |items| <= |raw|
    ensures forall it :: it in items <==>
              exists k :: 0 <= k < |raw| && Usable(raw[k]) && it == Item(raw[k].name, raw[k].completion.v)
  {
    if raw == [] then []
    else
      var init, x := raw[..|raw| - 1], raw[|raw| - 1];
      var rest := UsableItems(init);
      assert forall k :: 0 <= k < |init| ==> init[k] == raw[k];
      rest + (if Usable(x) then [Item(x.name, x.completion.v)] else [])
  }

  function ByCompletion(): Item -> real {
    (it: Item) => it.completion
  }

  /** `sortedData.slice(0, 10)`: the usable entries, highest completion first, at most ten. */
  function Top(raw: seq<RawItem>): (top: seq<Item>)
    ensures |top| == if |UsableItems(raw)| <= 10 then |UsableItems(raw)| else 10
    ensures SortedDesc(top, ByCompletion())
    ensures multiset(top) <= multiset(UsableItems(raw))
    ensures forall t, r :: t in top && r in multiset(UsableItems(raw)) - multiset(top)
              ==> r.completion <= t.completion
  {
    TopK(UsableItems(raw), 10, ByCompletion())
  }

  /** `Math.min(100, Math.max(0, Number(c.toFixed(2))))`. */
  function Shown(c: real): (r: real)
    ensures 0.0 <= r <= 100.0
    ensures 0.0 <= c <= 100.0 ==> r == ToFixed2(c)
  {
    var x := ToFixed2(c);
    if x > 100.0 then 100.0 else if x < 0.0 then 0.0 else x
  }

  /** Clamping the rounded value keeps the order of completions. */
  lemma ShownMonotone(a: real, b: real)
    requires a <= b
    ensures Shown(a) <= Shown(b)
  {
    ToFixed2Monotone(a, b);
  }

  /** `habit-${index}`. */
  function Id(i: nat): (id: string)
    ensures |id| > 6 && id[..6] == "habit-"
  {
    "habit-" + DecimalString(i)
  }

  /** Two positions never share an id. */
  lemma IdsDistinct(i: nat, j: nat)
    requires i != j
    ensures Id(i) != Id(j)
  {
    if Id(i) == Id(j) {
      assert DecimalString(i) == Id(i)[6..];
      assert DecimalString(j) == Id(j)[6..];
      DecimalStringRoundTrip(i);
      DecimalStringRoundTrip(j);
    }
  }

  /** `processData`: the placeholder when the input is missing, not an array (`None`), empty,
      or has no usable entry; otherwise one bar per top entry, in order, showing its rounded
      and clamped completion, with the id of its position. */
  function ProcessData(raw: Option<seq<RawItem>>): (points: seq<Point>)
    ensures 1 <= |points| <= 10
    ensures raw.None? || UsableItems(raw.value) == [] ==> points == Placeholder
    ensures raw.Some? && UsableItems(raw.value) != [] ==>
              |points| == |Top(raw.value)|
              && forall i :: 0 <= i < |points| ==>
                   points[i] == Point(Top(raw.value)[i].name, Shown(Top(raw.value)[i].completion), Id(i))
  {
    if raw.None? || |raw.value| == 0 then Placeholder
    else
      var top := Top(raw.value);
      if |top| == 0 then Placeholder
      else seq(|top|, i requires 0 <= i < |top| => Point(top[i].name, Shown(top[i].completion), Id(i)))
  }

  /** The bars stand in non-increasing order of completion, every completion within
      [0, 100], every id different. */
  lemma PointsOrdered(raw: Option<seq<RawItem>>)
    ensures forall i, j :: 0 <= i < j < |ProcessData(raw)| ==>
              ProcessData(raw)[j].completion <= ProcessData(raw)[i].completion
    ensures forall i :: 0 <= i < |ProcessData(raw)| ==> 0.0 <= ProcessData(raw)[i].completion <= 100.0
    ensures forall i, j :: 0 <= i < j < |ProcessData(raw)| ==> ProcessData(raw)[i].id != ProcessData(raw)[j].id
  {
    var points := ProcessData(raw);
    if raw.Some? && UsableItems(raw.value) != [] {
      var top := Top(raw.value);
      forall i, j | 0 <= i < j < |points|
        ensures points[j].completion <= points[i].completion
        ensures points[i].id != points[j].id
      {
        assert ByCompletion()(top[j]) <= ByCompletion()(top[i]);
        ShownMonotone(top[j].completion, top[i].completion);
        IdsDistinct(i, j);
      }
    }
  }

  /** Every bar but the placeholder names a usable input entry, and no usable entry left
      out of the chart has a higher completion than an entry shown. */
  lemma PointsComeFromInput(raw: seq<RawItem>, i: nat)
    requires UsableItems(raw) != [] && i < |ProcessData(Some(raw))|
    ensures exists k :: 0 <= k < |raw| && Usable(raw[k]) && raw[k].name == ProcessData(Some(raw))[i].name
              && ProcessData(Some(raw))[i].completion == Shown(raw[k].completion.v)
    ensures forall r :: r in multiset(UsableItems(raw)) - multiset(Top(raw)) ==>
              Shown(r.completion) <= ProcessData(Some(raw))[i].completion
  {
    var top := Top(raw);
    var t := top[i];
    assert t in multiset(top);
    assert t in UsableItems(raw);
    forall r | r in multiset(UsableItems(raw)) - multiset(top)
      ensures Shown(r.completion) <= ProcessData(Some(raw))[i].completion
    {
      ShownMonotone(r.completion, t.completion);
    }
  }

  /** With at most ten usable entries, all of them are shown. */
  lemma FewEntriesAllShown(raw: seq<RawItem>)
    requires |UsableItems(raw)| <= 10
    ensures multiset(Top(raw)) == multiset(UsableItems(raw))
  {
  }

  /** `hasData`: the first bar is not the placeholder's. */
  predicate HasData(points: seq<Point>) {
    |points| > 0 && points[0].name != "No data"
  }

  /** The chart has data only when some entry is usable, and an input without usable
      entries shows none. */
  lemma HasDataNeedsUsable(raw: Option<seq<RawItem>>)
    ensures HasData(ProcessData(raw)) ==> raw.Some? && UsableItems(raw.value) != []
    ensures raw.Some? && UsableItems(raw.value) != [] ==>
              (Top(raw.value)[0].name != "No data" ==> HasData(ProcessData(raw)))
  {
  }

  /** `hasData` compares names: a habit called "No data" at the top hides the whole chart. */
  lemma HabitNamedNoDataHidesChart()
    ensures !HasData(ProcessData(Some([RawItem("No data", Num(50.0))])))
  {
    var raw := [RawItem("No data", Num(50.0))];
    var it := Item("No data", 50.0);
    assert Usable(raw[0]);
    assert UsableItems(raw) == UsableItems([]) + [it];
    var top := Top(raw);
    assert top[0] in multiset([it]);
    assert top[0] == it;
    assert ProcessData(Some(raw))[0].name == "No data";
  }
}
