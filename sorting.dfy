/** The stable sort by a numeric key in non-increasing order that
    `[...xs].sort((a, b) => key(b) - key(a))` performs (JavaScript's `Array.prototype.sort`
    is stable), and `slice(0, k)`. */
module Sorting {

  ghost predicate SortedDesc<T>(s: seq<T>, key: T -> real) {
    forall i, j :: 0 <= i < j < |s| ==> key(s[i]) >= key(s[j])
  }

  /** Inserts `x` before the first element whose key is not greater than its own, so that
      `x` stays ahead of later elements with an equal key. */
  function InsertDesc<T>(x: T, s: seq<T>, key: T -> real): (r: seq<T>)
    requires SortedDesc(s, key)
    ensures |r| == |s| + 1
    ensures multiset(r) == multiset(s) + multiset{x}
    ensures SortedDesc(r, key)
  {
    if s == [] then [x]
    else if key(s[0]) <= key(x) then [x] + s
    else
      var rest := InsertDesc(x, s[1..], key);
      assert s == [s[0]] + s[1..];
      RestBelowHead(x, s, rest, key);
      [s[0]] + rest
  }

  /** What follows the head of a sorted list, with `x` inserted, ranks no higher than the
      head when `x` ranks lower. */
  lemma RestBelowHead<T>(x: T, s: seq<T>, rest: seq<T>, key: T -> real)
    requires s != [] && SortedDesc(s, key) && key(s[0]) > key(x)
    requires multiset(rest) == multiset(s[1..]) + multiset{x}
    ensures forall i :: 0 <= i < |rest| ==> key(rest[i]) <= key(s[0])
  {
    forall i | 0 <= i < |rest|
      ensures key(rest[i]) <= key(s[0])
    {
      assert rest[i] in multiset(rest);
      if rest[i] != x {
        assert rest[i] in multiset(s[1..]);
        var k :| 0 <= k < |s[1..]| && s[1..][k] == rest[i];
        assert s[k + 1] == rest[i];
      }
    }
  }

  /** The sorted copy: a permutation of `s`, in non-increasing key order. */
  function SortDesc<T>(s: seq<T>, key: T -> real): (r: seq<T>)
    ensures |r| == |s|
    ensures multiset(r) == multiset(s)
    ensures SortedDesc(r, key)
  {
    if s == [] then []
    else
      assert s == [s[0]] + s[1..];
      InsertDesc(s[0], SortDesc(s[1..], key), key)
  }

  /** The elements of `s` whose key is `v`, in their order in `s`. */
  function WithKey<T>(s: seq<T>, key: T -> real, v: real): (r: seq<T>)
    ensures |r| <= |s|
    ensures forall i :: 0 <= i < |r| ==> key(r[i]) == v
  {
    if s == [] then []
    else (if key(s[0]) == v then [s[0]] else []) + WithKey(s[1..], key, v)
  }

  /** Inserting `x` puts it ahead of every element with its key, and changes nothing else
      among the elements of any one key. */
  lemma {:induction false} InsertDescStable<T>(x: T, s: seq<T>, key: T -> real, v: real)
    requires SortedDesc(s, key)
    ensures WithKey(InsertDesc(x, s, key), key, v) == (if key(x) == v then [x] else []) + WithKey(s, key, v)
    decreases |s|
  {
    var hx := if key(x) == v then [x] else [];
    if s == [] {
      assert InsertDesc(x, s, key) == [x] + [];
      WithKeyCons(x, [], key, v);
    } else if key(s[0]) <= key(x) {
      assert InsertDesc(x, s, key) == [x] + s;
      WithKeyCons(x, s, key, v);
    } else {
      var rest := InsertDesc(x, s[1..], key);
      var hs := if key(s[0]) == v then [s[0]] else [];
      var w := WithKey(s[1..], key, v);
      assert InsertDesc(x, s, key) == [s[0]] + rest;
      assert SortedDesc(s[1..], key);
      InsertDescStable(x, s[1..], key, v);
      assert WithKey(rest, key, v) == hx + w;
      WithKeyCons(s[0], rest, key, v);
      assert WithKey(InsertDesc(x, s, key), key, v) == hs + (hx + w);
      WithKeyCons(s[0], s[1..], key, v);
      assert s == [s[0]] + s[1..];
      assert WithKey(s, key, v) == hs + w;
      assert hs == [] || hx == [];
      SwapEmptyFront(hs, hx, w);
    }
  }

  /** Two fronts of which one is empty can be exchanged. */
  lemma SwapEmptyFront<T>(a: seq<T>, b: seq<T>, w: seq<T>)
    requires a == [] || b == []
    ensures a + (b + w) == b + (a + w)
  {
    if a == [] {
      assert a + (b + w) == b + w == b + (a + w);
    } else {
      assert a + (b + w) == a + w == b + (a + w);
    }
  }

  lemma WithKeyCons<T>(h: T, t: seq<T>, key: T -> real, v: real)
    ensures WithKey([h] + t, key, v) == (if key(h) == v then [h] else []) + WithKey(t, key, v)
  {
    assert ([h] + t)[0] == h && ([h] + t)[1..] == t;
  }

  /** The sort is stable: the elements of each key come out in the order they went in. */
  lemma {:induction false} SortDescStable<T>(s: seq<T>, key: T -> real, v: real)
    ensures WithKey(SortDesc(s, key), key, v) == WithKey(s, key, v)
  {
    if s != [] {
      SortDescStable(s[1..], key, v);
      InsertDescStable(s[0], SortDesc(s[1..], key), key, v);
    }
  }

  /** `s.slice(0, k)`. */
  function Take<T>(s: seq<T>, k: nat): (r: seq<T>)
    ensures |r| == if |s| <= k then |s| else k
    ensures forall i :: 0 <= i < |r| ==> r[i] == s[i]
  {
    if |s| <= k then s else s[..k]
  }

  /** Every prefix of a sorted sequence is sorted. */
  lemma TakeSorted<T>(s: seq<T>, k: nat, key: T -> real)
    requires SortedDesc(s, key)
    ensures SortedDesc(Take(s, k), key)
  {
  }

  /** `[...s].sort(byKeyDesc).slice(0, k)`: at most `k` elements of `s`, highest key
      first, and none of the elements cut off ranks above one that is kept. */
  function TopK<T>(s: seq<T>, k: nat, key: T -> real): (top: seq<T>)
    ensures |top| == if |s| <= k then |s| else k
    ensures SortedDesc(top, key)
    ensures multiset(top) <= multiset(s)
    ensures |s| <= k ==> multiset(top) == multiset(s)
    ensures forall t, r :: t in top && r in multiset(s) - multiset(top) ==> key(r) <= key(t)
  {
    var sorted := SortDesc(s, key);
    TakeSorted(sorted, k, key);
    TakeKeepsTop(sorted, k, key);
    Take(sorted, k)
  }

  /** Cutting a sorted list keeps part of its multiset, and nothing cut off ranks above what
      is kept. */
  lemma TakeKeepsTop<T>(sorted: seq<T>, k: nat, key: T -> real)
    requires SortedDesc(sorted, key)
    ensures multiset(Take(sorted, k)) <= multiset(sorted)
    ensures forall t, r :: t in Take(sorted, k) && r in multiset(sorted) - multiset(Take(sorted, k))
              ==> key(r) <= key(t)
  {
    if k < |sorted| {
      var front, back := sorted[..k], sorted[k..];
      assert sorted == front + back;
      assert multiset(sorted) - multiset(front) == multiset(back);
      forall t: T, r: T | t in front && r in multiset(back)
        ensures key(r) <= key(t)
      {
        var i :| 0 <= i < |front| && front[i] == t;
        var j :| 0 <= j < |back| && back[j] == r;
        assert key(sorted[i]) >= key(sorted[k + j]);
      }
    } else {
      assert multiset(sorted) - multiset(sorted) == multiset{};
    }
  }

  // ----- In place, ascending -----

  ghost predicate SortedUpTo<T>(a: array<T>, n: int, key: T -> int)
    requires n <= a.Length
    reads a
  {
    forall p, q :: 0 <= p < q < n ==> key(a[p]) <= key(a[q])
  }

  /** Sorts `a` in place by ascending `key`, an insertion sort by adjacent swaps; the array
      ends as a permutation of what it held. */
  method InsertionSort<T>(a: array<T>, key: T -> int)
    modifies a
    ensures SortedUpTo(a, a.Length, key)
    ensures multiset(a[..]) == multiset(old(a[..]))
  {
    var i := 0;
    while i < a.Length
      invariant 0 <= i <= a.Length
      invariant SortedUpTo(a, i, key)
      invariant multiset(a[..]) == multiset(old(a[..]))
    {
      InsertLast(a, i, key);
      i := i + 1;
    }
  }

  /** Moves `a[i]` left past every greater key, so that the prefix `a[..i + 1]` is sorted
      when `a[..i]` was. */
  method InsertLast<T>(a: array<T>, i: nat, key: T -> int)
    requires i < a.Length && SortedUpTo(a, i, key)
    modifies a
    ensures SortedUpTo(a, i + 1, key)
    ensures multiset(a[..]) == multiset(old(a[..]))
    ensures forall k :: i < k < a.Length ==> a[k] == old(a[k])
  {
    var j := i;
    while j > 0 && key(a[j - 1]) > key(a[j])
      invariant 0 <= j <= i
      invariant forall p, q :: 0 <= p < q <= i && p != j && q != j ==> key(a[p]) <= key(a[q])
      invariant forall q :: j < q <= i ==> key(a[j]) < key(a[q])
      invariant multiset(a[..]) == multiset(old(a[..]))
      invariant forall k :: i < k < a.Length ==> a[k] == old(a[k])
    {
      SwapAdjacent(a, j);
      j := j - 1;
    }
  }

  /** Exchanges `a[j - 1]` and `a[j]`. */
  method SwapAdjacent<T>(a: array<T>, j: nat)
    requires 0 < j < a.Length
    modifies a
    ensures a[j - 1] == old(a[j]) && a[j] == old(a[j - 1])
    ensures forall k :: 0 <= k < a.Length && k != j - 1 && k != j ==> a[k] == old(a[k])
    ensures multiset(a[..]) == multiset(old(a[..]))
  {
    ghost var before := a[..];
    a[j - 1], a[j] := a[j], a[j - 1];
    assert a[..] == before[j - 1 := before[j]][j := before[j - 1]];
  }
}
