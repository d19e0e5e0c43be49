/** The landing page's testimonials, shown in an order shuffled once on mount: a
    Fisher–Yates shuffle of a copy of the table. */
module Testimonials {
  import opened Habits

  datatype Testimonial = Testimonial(id: nat, quote: string, author: string, role: string, avatar: Option<string>)

  /** The table, quotes and avatars left out: only the ids and the people. */
  const TestimonialsData: seq<Testimonial> := [
    Testimonial(1, "", "Alex P.", "Software Developer", Some("")),
    Testimonial(2, "", "Sarah M.", "UX Designer", Some("")),
    Testimonial(3, "", "David K.", "Product Manager", Some("")),
    Testimonial(4, "", "N Kartikeya", "Student", Some("")),
    Testimonial(5, "", "S Susmitha", "Marketing Manager", Some("")),
    Testimonial(6, "", "V Yogesh", "Entrepreneur", Some(""))]

  /** The ids of some testimonials, in order: the keys of the rendered cards. */
  function Ids(ts: seq<Testimonial>): (ids: seq<nat>)
    ensures |ids| == |ts|
    ensures forall i :: 0 <= i < |ts| ==> ids[i] == ts[i].id
  {
    seq(|ts|, i requires 0 <= i < |ts| => ts[i].id)
  }

  /** The whole part of `x` for `0 <= x < c`, counted down from `c - 1`. */
  function FloorBelow(x: real, c: nat): (i: nat)
    requires 0.0 <= x < c as real
    ensures i < c
  {
    if (c - 1) as real <= x then c - 1 else FloorBelow(x, c - 1)
  }

  /** `FloorBelow` is `Math.floor`. */
  lemma {:induction false} FloorBelowIsFloor(x: real, c: nat)
    requires 0.0 <= x < c as real
    ensures FloorBelow(x, c) == x.Floor
  {
    if (c - 1) as real > x {
      FloorBelowIsFloor(x, c - 1);
    }
  }

  /** `Math.floor(Math.random() * currentIndex)` for a draw `r` in [0, 1): an index below
      `currentIndex`. */
  function RandomIndex(r: real, currentIndex: nat): (i: nat)
    requires 0.0 <= r < 1.0 && currentIndex > 0
    ensures i < currentIndex
  {
    var x := r * currentIndex as real;
    assert x < currentIndex as real by {
      assert currentIndex as real - x == (1.0 - r) * currentIndex as real;
    }
    FloorBelow(x, currentIndex)
  }

  /** The index is the whole part of the draw scaled to the unplaced cells. */
  lemma RandomIndexIsFloor(r: real, currentIndex: nat)
    requires 0.0 <= r < 1.0 && currentIndex > 0
    ensures RandomIndex(r, currentIndex) == (r * currentIndex as real).Floor
  {
    var x := r * currentIndex as real;
    assert x < currentIndex as real by {
      assert currentIndex as real - x == (1.0 - r) * currentIndex as real;
    }
    FloorBelowIsFloor(x, currentIndex);
  }

  /** Cells `i` and `j` exchanged. */
  function Swap<T>(s: seq<T>, i: nat, j: nat): (t: seq<T>)
    requires i < |s| && j < |s|
    ensures |t| == |s|
  {
    s[i := s[j]][j := s[i]]
  }

  /** Exchanging two cells keeps the elements. */
  lemma SwapPermutes<T>(s: seq<T>, i: nat, j: nat)
    requires i < |s| && j < |s|
    ensures multiset(Swap(s, i, j)) == multiset(s)
  {
  }

  /** The cells the draws pick: draw `k` is taken when `k` cells are placed and
      `n - k` remain, and picks one of those. */
  function Picks(random: nat -> real, n: nat): (picks: seq<nat>)
    requires forall k :: 0.0 <= random(k) < 1.0
    ensures |picks| == n && ValidPicks(picks)
  {
    var picks := seq<nat>(n, k requires 0 <= k < n => RandomIndex(random(k), n - k));
    assert forall k :: 0 <= k < n ==> picks[k] == RandomIndex(random(k), n - k) < n - k;
    picks
  }

  /** Every pick lies in the part not yet placed. */
  predicate ValidPicks(picks: seq<nat>) {
    forall k :: 0 <= k < |picks| ==> picks[k] < |picks| - k
  }

  /** The shuffle as a function: with the cells from `c` on already placed, exchange the
      picked cell (the pick number is the count of cells placed) with cell `c - 1`, and go
      on with one cell fewer. */
  function ShuffleFrom<T>(s: seq<T>, c: nat, picks: seq<nat>): (t: seq<T>)
    requires c <= |s| == |picks| && ValidPicks(picks)
    ensures |t| == |s|
    decreases c
  {
    if c == 0 then s
    else ShuffleFrom(Swap(s, c - 1, picks[|s| - c]), c - 1, picks)
  }

  /** The shuffle keeps the elements. */
  lemma {:induction false} ShuffleFromPermutes<T>(s: seq<T>, c: nat, picks: seq<nat>)
    requires c <= |s| == |picks| && ValidPicks(picks)
    ensures multiset(ShuffleFrom(s, c, picks)) == multiset(s)
    decreases c
  {
    if c > 0 {
      SwapPermutes(s, c - 1, picks[|s| - c]);
      ShuffleFromPermutes(Swap(s, c - 1, picks[|s| - c]), c - 1, picks);
    }
  }

  /** The Fisher–Yates invariant: the cells from `c` on, already placed, are never touched
      again. */
  lemma {:induction false} ShuffleFromKeepsPlaced<T>(s: seq<T>, c: nat, picks: seq<nat>)
    requires c <= |s| == |picks| && ValidPicks(picks)
    ensures ShuffleFrom(s, c, picks)[c..] == s[c..]
    decreases c
  {
    if c > 0 {
      var t := Swap(s, c - 1, picks[|s| - c]);
      ShuffleFromKeepsPlaced(t, c - 1, picks);
      assert t[c..] == s[c..];
    }
  }

  /** The `while` loop: exchanges the last unplaced cell with a cell drawn from the
      unplaced part, which places it, until no cell is left unplaced. `random(k)` is the
      `k`-th value `Math.random()` returns, each in [0, 1). */
  method ShuffleInPlace<T>(a: array<T>, random: nat -> real)
    requires forall k :: 0.0 <= random(k) < 1.0
    modifies a
    ensures a[..] == ShuffleFrom(old(a[..]), a.Length, Picks(random, a.Length))
  {
    ghost var picks := Picks(random, a.Length);
    ghost var shuffled := ShuffleFrom(a[..], a.Length, picks);
    var currentIndex := a.Length;
    while currentIndex != 0
      invariant 0 <= currentIndex <= a.Length == |picks|
      invariant ShuffleFrom(a[..], currentIndex, picks) == shuffled
      decreases currentIndex
    {
      var randomIndex := RandomIndex(random(a.Length - currentIndex), currentIndex);
      ghost var before := a[..];
      a[currentIndex - 1], a[randomIndex] := a[randomIndex], a[currentIndex - 1];
      assert a[..] == Swap(before, currentIndex - 1, randomIndex);
      currentIndex := currentIndex - 1;
    }
  }

  /** The shuffled testimonials: a new array holding the elements of `source` in the order
      the draws give; `source` itself is not written. */
  method Shuffle<T>(source: array<T>, random: nat -> real) returns (a: array<T>)
    requires forall k :: 0.0 <= random(k) < 1.0
    ensures fresh(a)
    ensures a[..] == ShuffleFrom(source[..], source.Length, Picks(random, source.Length))
    ensures multiset(a[..]) == multiset(source[..])
    ensures source[..] == old(source[..])
  {
    a := new T[source.Length](i requires 0 <= i < source.Length reads source => source[i]);
    assert a[..] == source[..];
    ShuffleInPlace(a, random);
    ShuffleFromPermutes(source[..], source.Length, Picks(random, source.Length));
  }

  /** A list without repeats holds each value at most once. */
  lemma {:induction false} DistinctCounts<T>(s: seq<T>, x: T)
    requires Distinct(s)
    ensures multiset(s)[x] <= 1
  {
    if s != [] {
      var init := s[..|s| - 1];
      assert s == init + [s[|s| - 1]];
      DistinctCounts(init, x);
      if s[|s| - 1] == x {
        assert x !in init;
      }
    }
  }

  /** A rearrangement of a list without repeats has none either: the shuffled cards keep
      distinct keys. */
  lemma PermutationKeepsDistinct<T>(s: seq<T>, t: seq<T>)
    requires Distinct(s) && multiset(t) == multiset(s)
    ensures Distinct(t)
  {
    forall i, j | 0 <= i < j < |t|
      ensures t[i] != t[j]
    {
      if t[i] == t[j] {
        assert t == t[..j] + [t[j]] + t[j + 1..];
        assert t[i] in t[..j];
        assert multiset(t)[t[j]] >= 2;
        DistinctCounts(s, t[j]);
      }
    }
  }

  /** Rearranging testimonials with distinct ids keeps the ids distinct. */
  lemma PermutationKeepsIdsDistinct(s: seq<Testimonial>, t: seq<Testimonial>)
    requires Distinct(Ids(s)) && multiset(t) == multiset(s)
    ensures Distinct(Ids(t))
  {
    assert Distinct(s) by {
      forall i, j | 0 <= i < j < |s|
        ensures s[i] != s[j]
      {
        assert Ids(s)[i] != Ids(s)[j];
      }
    }
    PermutationKeepsDistinct(s, t);
    forall i, j | 0 <= i < j < |t|
      ensures t[i].id != t[j].id
    {
      assert t[i] in multiset(s) && t[j] in multiset(s);
      var p :| 0 <= p < |s| && s[p] == t[i];
      var q :| 0 <= q < |s| && s[q] == t[j];
      assert p != q;
      if p < q {
        assert Ids(s)[p] != Ids(s)[q];
      } else {
        assert Ids(s)[q] != Ids(s)[p];
      }
    }
  }

  /** Any order of the table's testimonials, the shuffled one included, renders cards with
      distinct keys. */
  lemma ShuffledIdsDistinct(shuffled: seq<Testimonial>)
    requires multiset(shuffled) == multiset(TestimonialsData)
    ensures Distinct(Ids(shuffled))
  {
    TableIds();
    PermutationKeepsIdsDistinct(TestimonialsData, shuffled);
  }

  /** The table's ids are 1 to 6, none repeated. */
  lemma TableIds()
    ensures Ids(TestimonialsData) == [1, 2, 3, 4, 5, 6]
    ensures Distinct(Ids(TestimonialsData))
  {
  }
}
