/** Sorting and binary search of integers: `sorted`, `np.sort` and `np.searchsorted`. */
module Sorting {

  ghost predicate Sorted(s: seq<int>) {
    forall i, j :: 0 <= i < j < |s| ==> s[i] <= s[j]
  }

  function CountBelow(xs: seq<int>, t: int): nat {
    if xs == [] then 0 else CountBelow(xs[..|xs| - 1], t) + if xs[|xs| - 1] < t then 1 else 0
  }

  /** `s[..cut]` with everything below `t`, the rest at or above. */
  ghost predicate Splits(s: seq<int>, t: int, cut: int) {
    && 0 <= cut <= |s|
    && (forall i :: 0 <= i < cut ==> s[i] < t)
    && (forall i :: cut <= i < |s| ==> t <= s[i])
  }

  lemma {:induction false} SplitCounts(s: seq<int>, t: int, cut: int)
    requires Splits(s, t, cut)
    ensures CountBelow(s, t) == cut
  {
    if s != [] {
      var n := |s| - 1;
      SplitCounts(s[..n], t, if cut == |s| then n else cut);
    }
  }

  lemma {:induction false} CountAppend(a: seq<int>, b: seq<int>, t: int)
    ensures CountBelow(a + b, t) == CountBelow(a, t) + CountBelow(b, t)
  {
    if b == [] {
      assert a + b == a;
    } else {
      assert (a + b)[..|a + b| - 1] == a + b[..|b| - 1];
      CountAppend(a, b[..|b| - 1], t);
    }
  }

  /** Binary search for the first position at or above `t`: `searchsorted(side="left")`;
      with `t + 1` it is `side="right"` on integers. */
  function SearchIn(s: seq<int>, t: int, lo: int, hi: int): (cut: int)
    requires Sorted(s) && 0 <= lo <= hi <= |s|
    requires (forall i :: 0 <= i < lo ==> s[i] < t) && (forall i :: hi <= i < |s| ==> t <= s[i])
    ensures Splits(s, t, cut)
    decreases hi - lo
  {
    if lo == hi then lo
    else
      var mid := (lo + hi) / 2;
      if s[mid] < t then SearchIn(s, t, mid + 1, hi) else SearchIn(s, t, lo, mid)
  }

  function SearchLeft(s: seq<int>, t: int): int
    requires Sorted(s)
  {
    SearchIn(s, t, 0, |s|)
  }

  function SearchRight(s: seq<int>, t: int): int
    requires Sorted(s)
  {
    SearchIn(s, t + 1, 0, |s|)
  }

  function SortInts(xs: seq<int>): (r: seq<int>)
    ensures Sorted(r) && |r| == |xs|
  {
    if xs == [] then []
    else
      var s := SortInts(xs[..|xs| - 1]);
      var x := xs[|xs| - 1];
      var cut := SearchLeft(s, x);
      s[..cut] + [x] + s[cut..]
  }

  lemma InsertCounts(s: seq<int>, x: int, cut: nat, t: int)
    requires cut <= |s|
    ensures CountBelow(s[..cut] + [x] + s[cut..], t) == CountBelow(s + [x], t)
  {
    CountAppend(s[..cut] + [x], s[cut..], t);
    CountAppend(s[..cut], [x], t);
    CountAppend(s[..cut], s[cut..], t);
    CountAppend(s, [x], t);
    assert s[..cut] + s[cut..] == s;
  }

  lemma {:induction false} SortKeepsCounts(xs: seq<int>, t: int)
    ensures CountBelow(SortInts(xs), t) == CountBelow(xs, t)
  {
    if xs != [] {
      var s := SortInts(xs[..|xs| - 1]);
      var x := xs[|xs| - 1];
      SortKeepsCounts(xs[..|xs| - 1], t);
      InsertCounts(s, x, SearchLeft(s, x), t);
      CountAppend(s, [x], t);
      CountAppend(xs[..|xs| - 1], [x], t);
      assert xs[..|xs| - 1] + [x] == xs;
    }
  }

  lemma {:induction false} SortMembers(xs: seq<int>, x: int)
    ensures x in SortInts(xs) <==> x in xs
  {
    if xs != [] {
      var n := |xs| - 1;
      var s := SortInts(xs[..n]);
      var cut := SearchLeft(s, xs[n]);
      SortMembers(xs[..n], x);
      assert s == s[..cut] + s[cut..] && xs == xs[..n] + [xs[n]];
    }
  }

  lemma InsertAtEnd(t: seq<int>, x: int, cut: nat)
    requires Splits(t, x, cut) && forall i :: 0 <= i < |t| ==> t[i] <= x
    ensures t[..cut] + [x] + t[cut..] == t + [x]
  {
  }

  lemma {:induction false} SortedIsFixed(s: seq<int>)
    requires Sorted(s)
    ensures SortInts(s) == s
  {
    if s != [] {
      var n := |s| - 1;
      SortedIsFixed(s[..n]);
      InsertAtEnd(s[..n], s[n], SearchLeft(s[..n], s[n]));
      assert s == s[..n] + [s[n]];
    }
  }
}
