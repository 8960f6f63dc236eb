/** Average-uniqueness label weights (`scripts/ranker/oos_validation.py`): the per-wallet
    arithmetic in exact reals, and the conservation law behind it. */
module Uniqueness {
  import opened Sums

  /** One label of a wallet: live from `entry_ts` to `ttr_ref`. */
  datatype Label = Label(start: int, end: int)

  ghost predicate Increasing(s: seq<int>) {
    forall i, j :: 0 <= i < j < |s| ==> s[i] < s[j]
  }

  // ---------- the boundary grid, numpy's `unique` of starts and ends ----------

  function InsertOnce(s: seq<int>, x: int): (r: seq<int>)
    requires Increasing(s)
    ensures Increasing(r)
    ensures forall y :: y in r <==> y in s || y == x
  {
    if s == [] then [x]
    else if x < s[0] then [x] + s
    else if x == s[0] then s
    else
      var t := InsertOnce(s[1..], x);
      assert s == [s[0]] + s[1..];
      assert forall i :: 0 <= i < |t| ==> t[i] in t && s[0] < t[i];
      [s[0]] + t
  }

  function Unique(xs: seq<int>): (r: seq<int>)
    ensures Increasing(r)
    ensures forall y :: y in r <==> y in xs
  {
    if xs == [] then []
    else
      assert xs == xs[..|xs| - 1] + [xs[|xs| - 1]];
      InsertOnce(Unique(xs[..|xs| - 1]), xs[|xs| - 1])
  }

  function Starts(ls: seq<Label>): seq<int> { seq(|ls|, i requires 0 <= i < |ls| => ls[i].start) }

  function Ends(ls: seq<Label>): seq<int> { seq(|ls|, i requires 0 <= i < |ls| => ls[i].end) }

  function Grid(ls: seq<Label>): seq<int> { Unique(Starts(ls) + Ends(ls)) }

  function Segments(g: seq<int>): nat { if |g| == 0 then 0 else |g| - 1 }

  // ---------- per-wallet weights ----------

  function SegLen(g: seq<int>, j: nat): int
    requires j < Segments(g)
  {
    g[j + 1] - g[j]
  }

  function Midpoint(g: seq<int>, j: nat): real
    requires j < Segments(g)
  {
    (g[j] as real + g[j + 1] as real) / 2.0
  }

  predicate LiveAt(l: Label, m: real) { l.start as real <= m && m < l.end as real }

  function LiveCount(ls: seq<Label>, m: real): nat {
    if ls == [] then 0
    else LiveCount(ls[..|ls| - 1], m) + if LiveAt(ls[|ls| - 1], m) then 1 else 0
  }

  function Concurrency(ls: seq<Label>, m: real): nat {
    if LiveCount(ls, m) >= 1 then LiveCount(ls, m) else 1
  }

  /** Segment length over the number of labels live at its midpoint. */
  function Share(ls: seq<Label>, g: seq<int>, j: nat): real
    requires j < Segments(g)
  {
    SegLen(g, j) as real / Concurrency(ls, Midpoint(g, j)) as real
  }

  predicate Covers(l: Label, g: seq<int>, j: nat)
    requires j < Segments(g)
  {
    l.start <= g[j] && g[j + 1] <= l.end
  }

  /** The shares of the first `m` segments that label `l` covers. */
  function ShareSum(ls: seq<Label>, g: seq<int>, l: Label, m: nat): real
    requires m <= Segments(g)
  {
    if m == 0 then 0.0
    else ShareSum(ls, g, l, m - 1) + if Covers(l, g, m - 1) then Share(ls, g, m - 1) else 0.0
  }

  /** A sum of shares over the span, or 1 where the span is not positive. */
  function OverSpan(l: Label, x: real): real {
    if l.end > l.start then x / (l.end - l.start) as real else 1.0
  }

  /** The shares of all the segments that label `l` covers. */
  function Shares(ls: seq<Label>, l: Label): real { ShareSum(ls, Grid(ls), l, Segments(Grid(ls))) }

  /** The un-normalised weight. */
  function RawWeight(ls: seq<Label>, l: Label): real { OverSpan(l, Shares(ls, l)) }

  // ---------- the midpoint counts exactly the covering labels ----------

  lemma GridHas(ls: seq<Label>, k: nat)
    requires k < |ls|
    ensures ls[k].start in Grid(ls) && ls[k].end in Grid(ls)
  {
    var xs := Starts(ls) + Ends(ls);
    assert xs[k] == ls[k].start && xs[|ls| + k] == ls[k].end;
  }

  lemma NoPointInside(g: seq<int>, j: nat, x: int)
    requires Increasing(g) && j < Segments(g) && x in g
    ensures x <= g[j] || g[j + 1] <= x
  {
    var a :| 0 <= a < |g| && g[a] == x;
    if j + 1 < a { assert g[j + 1] < g[a]; }
    if a < j { assert g[a] < g[j]; }
  }

  /** `g` is a grid that holds both ends of every label. */
  ghost predicate GridFor(g: seq<int>, ls: seq<Label>) {
    Increasing(g) && forall k :: 0 <= k < |ls| ==> ls[k].start in g && ls[k].end in g
  }

  lemma LiveIffCovers(l: Label, g: seq<int>, j: nat)
    requires Increasing(g) && l.start in g && l.end in g && j < Segments(g)
    ensures LiveAt(l, Midpoint(g, j)) <==> Covers(l, g, j)
  {
    NoPointInside(g, j, l.start);
    NoPointInside(g, j, l.end);
    assert g[j] < g[j + 1];
  }

  function CoverCount(ls: seq<Label>, g: seq<int>, j: nat): nat
    requires j < Segments(g)
  {
    if ls == [] then 0
    else CoverCount(ls[..|ls| - 1], g, j) + if Covers(ls[|ls| - 1], g, j) then 1 else 0
  }

  /** The number of labels live at a segment's midpoint is the number covering the segment. */
  lemma {:induction false} MidpointCount(ls: seq<Label>, g: seq<int>, j: nat)
    requires GridFor(g, ls) && j < Segments(g)
    ensures LiveCount(ls, Midpoint(g, j)) == CoverCount(ls, g, j)
  {
    if ls != [] {
      MidpointCount(ls[..|ls| - 1], g, j);
      LiveIffCovers(ls[|ls| - 1], g, j);
    }
  }

  lemma {:induction false} CoverCountBound(ls: seq<Label>, g: seq<int>, j: nat)
    requires j < Segments(g)
    ensures CoverCount(ls, g, j) <= |ls|
  {
    if ls != [] { CoverCountBound(ls[..|ls| - 1], g, j); }
  }

  // ---------- lengths as cell counts ----------

  /** The unit cells [t, t+1) from `a` to `b`. */
  ghost function Range(a: int, b: int): (r: set<int>)
    ensures forall t :: t in r <==> a <= t < b
    ensures |r| == if a <= b then b - a else 0
    decreases b - a
  {
    if b <= a then {} else Range(a, b - 1) + {b - 1}
  }

  ghost function Cells(l: Label): set<int> { Range(l.start, l.end) }

  ghost function Union(ls: seq<Label>): set<int> {
    if ls == [] then {} else Union(ls[..|ls| - 1]) + Cells(ls[|ls| - 1])
  }

  /** The total length of the first `m` segments marked in `inside`. */
  function LengthOf(g: seq<int>, inside: seq<bool>, m: nat): int
    requires m <= Segments(g) && m <= |inside|
  {
    if m == 0 then 0
    else LengthOf(g, inside, m - 1) + if inside[m - 1] then SegLen(g, m - 1) else 0
  }

  ghost predicate Within(g: seq<int>, inside: seq<bool>, S: set<int>, j: nat)
    requires j < Segments(g) && j < |inside|
  {
    forall t :: g[j] <= t < g[j + 1] ==> (t in S <==> inside[j])
  }

  ghost function Below(S: set<int>, b: int): set<int> { set t | t in S && t < b }

  /** If each segment lies wholly in `S` or wholly outside it, the marked lengths add up to
      the number of cells of `S` below the last boundary. */
  lemma {:induction false} LengthIsCells(g: seq<int>, inside: seq<bool>, S: set<int>, m: nat)
    requires Increasing(g) && 0 < |g| && m <= Segments(g) && m <= |inside|
    requires forall t :: t in S ==> g[0] <= t
    requires forall j :: 0 <= j < m ==> Within(g, inside, S, j)
    ensures LengthOf(g, inside, m) == |Below(S, g[m])|
  {
    if m == 0 {
      assert Below(S, g[0]) == {};
    } else {
      LengthIsCells(g, inside, S, m - 1);
      var a, b := g[m - 1], g[m];
      assert Within(g, inside, S, m - 1);
      assert a < b;
      if inside[m - 1] {
        assert Below(S, b) == Below(S, a) + Range(a, b);
        assert Below(S, a) !! Range(a, b);
      } else {
        assert Below(S, b) == Below(S, a);
      }
    }
  }

  lemma CellsWithin(l: Label, g: seq<int>, j: nat, t: int)
    requires Increasing(g) && l.start in g && l.end in g && j < Segments(g) && g[j] <= t < g[j + 1]
    ensures t in Cells(l) <==> Covers(l, g, j)
  {
    NoPointInside(g, j, l.start);
    NoPointInside(g, j, l.end);
  }

  lemma GridBounds(g: seq<int>, x: int)
    requires Increasing(g) && x in g
    ensures 0 < |g| && g[0] <= x <= g[Segments(g)]
  {
    var a :| 0 <= a < |g| && g[a] == x;
    if 0 < a { assert g[0] < g[a]; }
    if a < |g| - 1 { assert g[a] < g[|g| - 1]; }
  }

  lemma GridForItself(ls: seq<Label>)
    ensures GridFor(Grid(ls), ls)
  {
    forall k | 0 <= k < |ls| ensures ls[k].start in Grid(ls) && ls[k].end in Grid(ls) { GridHas(ls, k); }
  }

  lemma {:induction false} BusyCell(ls: seq<Label>, g: seq<int>, j: nat, t: int)
    requires GridFor(g, ls) && j < Segments(g) && g[j] <= t < g[j + 1]
    ensures t in Union(ls) <==> CoverCount(ls, g, j) > 0
  {
    if ls != [] {
      BusyCell(ls[..|ls| - 1], g, j, t);
      CellsWithin(ls[|ls| - 1], g, j, t);
    }
  }

  lemma {:induction false} UnionBounds(ls: seq<Label>, g: seq<int>, t: int)
    requires GridFor(g, ls) && t in Union(ls)
    ensures 0 < |g| && g[0] <= t < g[Segments(g)]
  {
    var l := ls[|ls| - 1];
    if t in Cells(l) {
      GridBounds(g, l.start);
      GridBounds(g, l.end);
    } else {
      UnionBounds(ls[..|ls| - 1], g, t);
    }
  }

  /** The busy segments of the grid make up the union of the spans. */
  lemma BusyLength(ls: seq<Label>, g: seq<int>, busy: seq<bool>)
    requires GridFor(g, ls) && |busy| == Segments(g)
    requires forall j :: 0 <= j < Segments(g) ==> (busy[j] <==> CoverCount(ls, g, j) > 0)
    ensures LengthOf(g, busy, Segments(g)) == |Union(ls)|
  {
    var m, S := Segments(g), Union(ls);
    forall t | t in S ensures 0 < |g| && g[0] <= t < g[m] { UnionBounds(ls, g, t); }
    forall j | 0 <= j < m ensures Within(g, busy, S, j) {
      forall t | g[j] <= t < g[j + 1] ensures t in S <==> busy[j] { BusyCell(ls, g, j, t); }
    }
    if g == [] {
      assert S == {};
    } else {
      LengthIsCells(g, busy, S, m);
      assert Below(S, g[m]) == S;
    }
  }

  /** The segments a label covers make up its span. */
  lemma SpanLength(l: Label, g: seq<int>, covered: seq<bool>)
    requires Increasing(g) && l.start in g && l.end in g && l.start <= l.end
    requires |covered| == Segments(g) && forall j :: 0 <= j < Segments(g) ==> (covered[j] <==> Covers(l, g, j))
    ensures LengthOf(g, covered, Segments(g)) == l.end - l.start
  {
    var m, S := Segments(g), Cells(l);
    GridBounds(g, l.start);
    GridBounds(g, l.end);
    forall j | 0 <= j < m ensures Within(g, covered, S, j) {
      forall t | g[j] <= t < g[j + 1] ensures t in S <==> covered[j] { CellsWithin(l, g, j, t); }
    }
    LengthIsCells(g, covered, S, m);
    assert Below(S, g[m]) == S;
  }

  // ---------- conservation ----------

  /** Shares taken by the first `n` labels, label by label. */
  function ByLabel(ls: seq<Label>, g: seq<int>, n: nat, m: nat): real
    requires n <= |ls| && m <= Segments(g)
  {
    if n == 0 then 0.0 else ByLabel(ls, g, n - 1, m) + ShareSum(ls, g, ls[n - 1], m)
  }

  /** What the labels take together of segment `j` when each covering label takes `x`. */
  function Taken(ls: seq<Label>, g: seq<int>, j: nat, x: real): real
    requires j < Segments(g)
  {
    if ls == [] then 0.0
    else Taken(ls[..|ls| - 1], g, j, x) + if Covers(ls[|ls| - 1], g, j) then x else 0.0
  }

  /** The same shares, segment by segment. */
  function BySegment(ls: seq<Label>, g: seq<int>, n: nat, m: nat): real
    requires n <= |ls| && m <= Segments(g)
  {
    if m == 0 then 0.0
    else BySegment(ls, g, n, m - 1) + Taken(ls[..n], g, m - 1, Share(ls, g, m - 1))
  }

  lemma {:induction false} OneMoreLabel(ls: seq<Label>, g: seq<int>, n: nat, m: nat)
    requires 0 < n <= |ls| && m <= Segments(g)
    ensures BySegment(ls, g, n, m) == BySegment(ls, g, n - 1, m) + ShareSum(ls, g, ls[n - 1], m)
  {
    if m > 0 {
      OneMoreLabel(ls, g, n, m - 1);
      assert ls[..n][..n - 1] == ls[..n - 1];
    }
  }

  lemma {:induction false} NoShares(ls: seq<Label>, g: seq<int>, m: nat)
    requires m <= Segments(g)
    ensures BySegment(ls, g, 0, m) == 0.0
  {
    if m > 0 { NoShares(ls, g, m - 1); }
  }

  lemma {:induction false} Exchange(ls: seq<Label>, g: seq<int>, n: nat, m: nat)
    requires n <= |ls| && m <= Segments(g)
    ensures ByLabel(ls, g, n, m) == BySegment(ls, g, n, m)
  {
    if n == 0 { NoShares(ls, g, m); } else {
      Exchange(ls, g, n - 1, m);
      OneMoreLabel(ls, g, n, m);
    }
  }

  lemma {:induction false} TakenIsMultiple(ls: seq<Label>, g: seq<int>, j: nat, x: real)
    requires j < Segments(g)
    ensures Taken(ls, g, j, x) == CoverCount(ls, g, j) as real * x
  {
    if ls != [] {
      var init := ls[..|ls| - 1];
      TakenIsMultiple(init, g, j, x);
      assert (CoverCount(init, g, j) + 1) as real * x == CoverCount(init, g, j) as real * x + x;
    }
  }

  lemma MulDiv(c: real, x: real)
    requires c != 0.0
    ensures c * (x / c) == x
  {
  }

  /** A covered segment is shared out completely; an uncovered one contributes nothing. */
  lemma SegmentShared(ls: seq<Label>, g: seq<int>, j: nat)
    requires GridFor(g, ls) && j < Segments(g)
    ensures Taken(ls, g, j, Share(ls, g, j))
         == (if CoverCount(ls, g, j) > 0 then SegLen(g, j) else 0) as real
  {
    MidpointCount(ls, g, j);
    TakenIsMultiple(ls, g, j, Share(ls, g, j));
    var c := CoverCount(ls, g, j);
    if c > 0 { MulDiv(c as real, SegLen(g, j) as real); }
  }

  lemma {:induction false} SegmentsShared(ls: seq<Label>, g: seq<int>, busy: seq<bool>, m: nat)
    requires GridFor(g, ls) && m <= Segments(g) == |busy|
    requires forall j :: 0 <= j < Segments(g) ==> (busy[j] <==> CoverCount(ls, g, j) > 0)
    ensures BySegment(ls, g, |ls|, m) == LengthOf(g, busy, m) as real
  {
    if m > 0 {
      SegmentsShared(ls, g, busy, m - 1);
      assert ls[..|ls|] == ls;
      SegmentShared(ls, g, m - 1);
    }
  }

  /** Span times weight; negative for an inverted label. */
  function SpanTimes(l: Label, w: real): real { (l.end - l.start) as real * w }

  /** How far an inverted label ends before it starts. */
  function Inversion(l: Label): nat { if l.end < l.start then l.start - l.end else 0 }

  lemma SpanTimesOver(l: Label, x: real)
    requires l.end > l.start
    ensures SpanTimes(l, OverSpan(l, x)) == x
  {
  }

  lemma {:induction false} NothingCovered(ls: seq<Label>, g: seq<int>, l: Label, m: nat)
    requires Increasing(g) && l.end <= l.start && m <= Segments(g)
    ensures ShareSum(ls, g, l, m) == 0.0
  {
    if m > 0 {
      NothingCovered(ls, g, l, m - 1);
      assert g[m - 1] < g[m];
    }
  }

  /** Span times un-normalised weight, added over the first `n` labels. */
  function SpanWeighted(ls: seq<Label>, n: nat): real
    requires n <= |ls|
  {
    if n == 0 then 0.0 else SpanWeighted(ls, n - 1) + SpanTimes(ls[n - 1], RawWeight(ls, ls[n - 1]))
  }

  lemma SpanTimesWeight(ls: seq<Label>, l: Label)
    ensures SpanTimes(l, RawWeight(ls, l)) == Shares(ls, l) - Inversion(l) as real
  {
    if l.end > l.start {
      SpanTimesOver(l, Shares(ls, l));
    } else {
      NothingCovered(ls, Grid(ls), l, Segments(Grid(ls)));
    }
  }

  /** The total inversion of the first `n` labels. */
  function Inversions(ls: seq<Label>, n: nat): nat
    requires n <= |ls|
  {
    if n == 0 then 0 else Inversions(ls, n - 1) + Inversion(ls[n - 1])
  }

  lemma {:induction false} SpanWeightedIsByLabel(ls: seq<Label>, n: nat)
    requires n <= |ls|
    ensures SpanWeighted(ls, n) == ByLabel(ls, Grid(ls), n, Segments(Grid(ls))) - Inversions(ls, n) as real
  {
    if n > 0 {
      SpanWeightedIsByLabel(ls, n - 1);
      SpanTimesWeight(ls, ls[n - 1]);
    }
  }

  lemma {:induction false} NoInversions(ls: seq<Label>, n: nat)
    requires n <= |ls|
    ensures Inversions(ls, n) == 0 <==> forall k :: 0 <= k < n ==> ls[k].start <= ls[k].end
  {
    if n > 0 { NoInversions(ls, n - 1); }
  }

  /** Conservation: over a wallet's labels, span times un-normalised weight adds up to the
      length of the union of the spans less the total inversion; to the length of the union
      itself exactly when no label ends before it starts. */
  lemma Conservation(ls: seq<Label>)
    ensures SpanWeighted(ls, |ls|) == |Union(ls)| as real - Inversions(ls, |ls|) as real
    ensures SpanWeighted(ls, |ls|) == |Union(ls)| as real <==> forall k :: 0 <= k < |ls| ==> ls[k].start <= ls[k].end
  {
    var g := Grid(ls);
    var busy := seq(Segments(g), j requires 0 <= j < Segments(g) => CoverCount(ls, g, j) > 0);
    GridForItself(ls);
    SpanWeightedIsByLabel(ls, |ls|);
    Exchange(ls, g, |ls|, Segments(g));
    SegmentsShared(ls, g, busy, Segments(g));
    BusyLength(ls, g, busy);
    NoInversions(ls, |ls|);
  }

  /** With an inverted label the sum falls short of the union. */
  lemma InvertedFallsShort()
    ensures var ls := [Label(0, 10), Label(5, 3)]; SpanWeighted(ls, 2) == |Union(ls)| as real - 2.0
  {
    var ls := [Label(0, 10), Label(5, 3)];
    Conservation(ls);
    assert Inversions(ls, 1) == 0 && Inversions(ls, 2) == 2;
  }

  // ---------- each weight lies between 1/n and 1 ----------

  lemma {:induction false} ShareBounds(ls: seq<Label>, g: seq<int>, l: Label, covered: seq<bool>, m: nat)
    requires GridFor(g, ls) && 0 < |ls| && m <= Segments(g) == |covered|
    requires forall j :: 0 <= j < Segments(g) ==> (covered[j] <==> Covers(l, g, j))
    ensures LengthOf(g, covered, m) as real / |ls| as real <= ShareSum(ls, g, l, m) <= LengthOf(g, covered, m) as real
  {
    if m > 0 {
      ShareBounds(ls, g, l, covered, m - 1);
      if covered[m - 1] {
        MidpointCount(ls, g, m - 1);
        CoverCountBound(ls, g, m - 1);
        assert g[m - 1] < g[m];
        DivBounds(SegLen(g, m - 1) as real, Concurrency(ls, Midpoint(g, m - 1)) as real, |ls| as real);
        DivAdd(LengthOf(g, covered, m - 1) as real, SegLen(g, m - 1) as real, |ls| as real);
      }
    }
  }

  lemma DivBounds(x: real, c: real, n: real)
    requires x > 0.0 && 1.0 <= c <= n
    ensures x / n <= x / c <= x
  {
    assert x / n * c <= x / n * n == x;
    assert x / c * c == x && x / c * 1.0 <= x / c * c;
  }

  lemma SharesBounds(ls: seq<Label>, k: nat)
    requires k < |ls| && ls[k].start <= ls[k].end
    ensures var span := (ls[k].end - ls[k].start) as real; span / |ls| as real <= Shares(ls, ls[k]) <= span
  {
    var l, g := ls[k], Grid(ls);
    var covered := seq(Segments(g), j requires 0 <= j < Segments(g) => Covers(l, g, j));
    GridForItself(ls);
    SpanLength(l, g, covered);
    ShareBounds(ls, g, l, covered, Segments(g));
  }

  lemma OverSpanBounds(l: Label, x: real, n: real)
    requires l.end > l.start && n > 0.0
    requires (l.end - l.start) as real / n <= x <= (l.end - l.start) as real
    ensures 1.0 / n <= OverSpan(l, x) <= 1.0 && OverSpan(l, x) > 0.0
  {
    var span := (l.end - l.start) as real;
    assert span / n == span * (1.0 / n);
    assert x == x / span * span;
    assert (x / span - 1.0 / n) * span >= 0.0;
  }

  /** Each un-normalised weight is positive and lies between 1/n and 1. */
  lemma WeightBounds(ls: seq<Label>, k: nat)
    requires k < |ls|
    ensures ls[k].end > ls[k].start ==> 1.0 / |ls| as real <= RawWeight(ls, ls[k]) <= 1.0
    ensures ls[k].end <= ls[k].start ==> RawWeight(ls, ls[k]) == 1.0
    ensures RawWeight(ls, ls[k]) > 0.0
  {
    if ls[k].end > ls[k].start {
      SharesBounds(ls, k);
      OverSpanBounds(ls[k], Shares(ls, ls[k]), |ls| as real);
    }
  }
}
