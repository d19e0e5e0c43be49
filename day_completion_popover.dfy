/** The popover of one calendar day: how many habits were completed that day, and a mark for
    each habit. A day's completion record maps habit ids to a completion value (1 for
    completed); a JavaScript object has distinct keys, and `Object.values`/`Object.keys`
    list its entries in insertion order, which the association list keeps. */
module DayCompletionPopover {
  import opened Habits

  datatype Entry = Entry(key: string, value: real)

  /** `Record<string, number>` for one day. */
  type Record = seq<Entry>

  /** No two entries share a key, as in any JavaScript object. */
  predicate DistinctKeys(r: Record) {
    forall i, j :: 0 <= i < j < |r| ==> r[i].key != r[j].key
  }

  predicate HasKey(r: Record, key: string) {
    exists i :: 0 <= i < |r| && r[i].key == key
  }

  /** `record[key]`: the value stored under `key`, or `None` for `undefined`. */
  function Lookup(r: Record, key: string): (v: Option<real>)
    ensures v.None? <==> !HasKey(r, key)
    ensures v.Some? ==> exists i :: 0 <= i < |r| && r[i] == Entry(key, v.value)
  {
    if r == [] then None
    else if r[0].key == key then
      assert r[0] == Entry(key, r[0].value);
      Some(r[0].value)
    else
      var v := Lookup(r[1..], key);
      assert forall i :: 0 < i < |r| ==> r[i] == r[1..][i - 1];
      v
  }

  /** In a record with distinct keys, looking up an entry's key finds that entry's value. */
  lemma LookupFinds(r: Record, i: nat)
    requires DistinctKeys(r) && i < |r|
    ensures Lookup(r, r[i].key) == Some(r[i].value)
  {
    var v := Lookup(r, r[i].key);
    var j :| 0 <= j < |r| && r[j] == Entry(r[i].key, v.value);
    assert i == j;
  }

  /** `Object.values(record).filter(v => v === 1).length`. */
  function CountOnes(r: Record): (n: nat)
    ensures n <= |r|
  {
    if r == [] then 0
    else CountOnes(r[..|r| - 1]) + (if r[|r| - 1].value == 1.0 then 1 else 0)
  }

  /** Every value is 1 exactly when the count is the number of entries. */
  lemma {:induction false} CountOnesAll(r: Record)
    ensures CountOnes(r) == |r| <==> forall i :: 0 <= i < |r| ==> r[i].value == 1.0
  {
    if r != [] {
      var init := r[..|r| - 1];
      CountOnesAll(init);
      assert forall i :: 0 <= i < |init| ==> init[i] == r[i];
    }
  }

  /** No value is 1 exactly when the count is 0. */
  lemma {:induction false} CountOnesNone(r: Record)
    ensures CountOnes(r) == 0 <==> forall i :: 0 <= i < |r| ==> r[i].value != 1.0
  {
    if r != [] {
      var init := r[..|r| - 1];
      CountOnesNone(init);
      assert forall i :: 0 <= i < |init| ==> init[i] == r[i];
    }
  }

  /** Counting splits over the two halves of a record. */
  lemma {:induction false} CountOnesAppend(a: Record, b: Record)
    ensures CountOnes(a + b) == CountOnes(a) + CountOnes(b)
    decreases |b|
  {
    if b == [] {
      assert a + b == a;
    } else {
      var init := b[..|b| - 1];
      assert (a + b)[..|a + b| - 1] == a + init;
      CountOnesAppend(a, init);
    }
  }

  /** The habits the popover lists, by id and name. */
  datatype HabitRef = HabitRef(id: string, name: string)

  /** What the popover shows: the no-data message, or "`completed` of `outOf` habits
      completed" with a check or a cross per habit, in the order of the habits. */
  datatype View = NoHabitsTracked | Summary(completed: nat, outOf: nat, marks: seq<bool>)

  /** A habit is marked completed when its entry is exactly 1; a missing entry is not. */
  predicate MarkedDone(data: Record, id: string) {
    Lookup(data, id) == Some(1.0)
  }

  /** The popover for a day with completion record `data` (`None` for `undefined`). */
  function Popover(habits: seq<HabitRef>, data: Option<Record>): (v: View)
    ensures v.NoHabitsTracked? <==> data.None? || data.value == []
    ensures v.Summary? ==> v.completed == CountOnes(data.value) && v.outOf == |habits|
    ensures v.Summary? ==> |v.marks| == |habits|
    ensures v.Summary? ==> forall i :: 0 <= i < |habits| ==>
              (v.marks[i] <==> HasKey(data.value, habits[i].id) && MarkedDone(data.value, habits[i].id))
  {
    if data.None? || |data.value| == 0 then NoHabitsTracked
    else
      var r := data.value;
      Summary(CountOnes(r), |habits|, seq(|habits|, i requires 0 <= i < |habits| => MarkedDone(r, habits[i].id)))
  }

  /** The number of checks shown. */
  function CountMarks(marks: seq<bool>): (n: nat)
    ensures n <= |marks|
  {
    if marks == [] then 0 else CountMarks(marks[..|marks| - 1]) + (if marks[|marks| - 1] then 1 else 0)
  }

  /** When the record holds one entry per listed habit, in the same order, the summary's
      count is the number of checks shown and stays within the number of habits. */
  lemma {:induction false} SummaryAgreesWithMarks(habits: seq<HabitRef>, r: Record)
    requires |r| == |habits| > 0 && DistinctKeys(r)
    requires forall i :: 0 <= i < |r| ==> r[i].key == habits[i].id
    ensures Popover(habits, Some(r)).completed == CountMarks(Popover(habits, Some(r)).marks)
    ensures Popover(habits, Some(r)).completed <= Popover(habits, Some(r)).outOf
  {
    var marks := Popover(habits, Some(r)).marks;
    forall i | 0 <= i < |r|
      ensures marks[i] == (r[i].value == 1.0)
    {
      LookupFinds(r, i);
    }
    MarksCountOnes(r, marks);
  }

  /** Marks that follow a record's values entry by entry count as its ones. */
  lemma {:induction false} MarksCountOnes(r: Record, marks: seq<bool>)
    requires |marks| == |r|
    requires forall i :: 0 <= i < |r| ==> marks[i] == (r[i].value == 1.0)
    ensures CountOnes(r) == CountMarks(marks)
  {
    if r != [] {
      var n := |r| - 1;
      MarksCountOnes(r[..n], marks[..n]);
    }
  }

  /** The popover counts the ones of the whole record but divides by the number of listed
      habits: a record with a completed entry for a habit that is not listed shows
      "1 of 0". */
  lemma CountIsNotBoundedByHabits()
    ensures Popover([], Some([Entry("h1", 1.0)])) == Summary(1, 0, [])
  {
    assert [Entry("h1", 1.0)][..0] == [];
  }
}
