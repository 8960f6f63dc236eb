/** What a uniqueness weight is, without the grid: one over the number of labels live at an
    instant, averaged over the instants of the label's span; and how the final weights of a frame
    relate to it. */
module AverageUniqueness {
  import opened Sums
  import opened Uniqueness
  import opened UniquenessFrame

  /** The labels live at instant `t`. */
  ghost function LiveLabels(ls: seq<Label>, t: int): set<int> { set k | 0 <= k < |ls| && ls[k].start <= t < ls[k].end }

  /** One over the number of labels live at `t`. */
  ghost function Unshared(ls: seq<Label>, t: int): real {
    if LiveLabels(ls, t) == {} then 0.0 else 1.0 / |LiveLabels(ls, t)| as real
  }

  /** The same added over the instants from `a` to `b`. */
  ghost function UnsharedTime(ls: seq<Label>, a: int, b: int): real
    decreases b - a
  {
    if b <= a then 0.0 else UnsharedTime(ls, a, b - 1) + Unshared(ls, b - 1)
  }

  lemma OneMoreLive(ls: seq<Label>, t: int)
    requires ls != []
    ensures var n := |ls| - 1;
      |LiveLabels(ls, t)| == |LiveLabels(ls[..n], t)| + if ls[n].start <= t < ls[n].end then 1 else 0
  {
    var n := |ls| - 1;
    assert LiveLabels(ls, t) == LiveLabels(ls[..n], t) + if ls[n].start <= t < ls[n].end then {n} else {};
  }

  lemma {:induction false} LiveIsCover(ls: seq<Label>, g: seq<int>, j: nat, t: int)
    requires GridFor(g, ls) && j < Segments(g) && g[j] <= t < g[j + 1]
    ensures |LiveLabels(ls, t)| == CoverCount(ls, g, j)
  {
    if ls == [] {
      assert LiveLabels(ls, t) == {};
    } else {
      var n := |ls| - 1;
      LiveIsCover(ls[..n], g, j, t);
      NoPointInside(g, j, ls[n].start);
      NoPointInside(g, j, ls[n].end);
      OneMoreLive(ls, t);
    }
  }

  lemma {:induction false} FlatTime(ls: seq<Label>, a: int, b: int, c: nat)
    requires a <= b && c > 0 && forall t :: a <= t < b ==> |LiveLabels(ls, t)| == c
    ensures UnsharedTime(ls, a, b) == (b - a) as real / c as real
    decreases b - a
  {
    if a < b {
      FlatTime(ls, a, b - 1, c);
      DivAdd((b - 1 - a) as real, 1.0, c as real);
    }
  }

  lemma {:induction false} TimeSplits(ls: seq<Label>, a: int, b: int, c: int)
    requires a <= b <= c
    ensures UnsharedTime(ls, a, c) == UnsharedTime(ls, a, b) + UnsharedTime(ls, b, c)
    decreases c - b
  {
    if b < c { TimeSplits(ls, a, b, c - 1); }
  }

  lemma {:induction false} CoveredBySelf(ls: seq<Label>, g: seq<int>, j: nat, l: Label)
    requires j < Segments(g) && l in ls && Covers(l, g, j)
    ensures CoverCount(ls, g, j) > 0
  {
    var n := |ls| - 1;
    if l != ls[n] {
      assert ls == ls[..n] + [ls[n]];
      CoveredBySelf(ls[..n], g, j, l);
    }
  }

  lemma ShareIsTime(ls: seq<Label>, g: seq<int>, j: nat, l: Label)
    requires GridFor(g, ls) && j < Segments(g) && l in ls && Covers(l, g, j)
    ensures Share(ls, g, j) == UnsharedTime(ls, g[j], g[j + 1])
  {
    CoveredBySelf(ls, g, j, l);
    MidpointCount(ls, g, j);
    forall t | g[j] <= t < g[j + 1] ensures |LiveLabels(ls, t)| == CoverCount(ls, g, j) { LiveIsCover(ls, g, j, t); }
    FlatTime(ls, g[j], g[j + 1], CoverCount(ls, g, j));
  }

  /** `x`, but no earlier than the start and no later than the end. */
  ghost function Clip(l: Label, x: int): int { if x <= l.start then l.start else if x >= l.end then l.end else x }

  lemma ClipStep(ls: seq<Label>, g: seq<int>, l: Label, m: nat)
    requires GridFor(g, ls) && l in ls && l.start <= l.end && 0 < m <= Segments(g)
    ensures Covers(l, g, m - 1) ==> Clip(l, g[m - 1]) == g[m - 1] && Clip(l, g[m]) == g[m] && l.start <= g[m - 1] <= g[m]
    ensures !Covers(l, g, m - 1) ==> Clip(l, g[m - 1]) == Clip(l, g[m])
  {
    NoPointInside(g, m - 1, l.start);
    NoPointInside(g, m - 1, l.end);
    assert g[m - 1] < g[m];
  }

  lemma {:induction false} SharesUpTo(ls: seq<Label>, g: seq<int>, l: Label, m: nat)
    requires GridFor(g, ls) && l in ls && l.start <= l.end && m <= Segments(g) && |g| > 0 && g[0] <= l.start
    ensures ShareSum(ls, g, l, m) == UnsharedTime(ls, l.start, Clip(l, g[m]))
  {
    if m > 0 {
      SharesUpTo(ls, g, l, m - 1);
      TimeStep(ls, g, l, m);
    }
  }

  lemma TimeStep(ls: seq<Label>, g: seq<int>, l: Label, m: nat)
    requires GridFor(g, ls) && l in ls && l.start <= l.end && 0 < m <= Segments(g)
    ensures UnsharedTime(ls, l.start, Clip(l, g[m]))
         == UnsharedTime(ls, l.start, Clip(l, g[m - 1])) + if Covers(l, g, m - 1) then Share(ls, g, m - 1) else 0.0
  {
    ClipStep(ls, g, l, m);
    if Covers(l, g, m - 1) {
      ShareIsTime(ls, g, m - 1, l);
      TimeSplits(ls, l.start, g[m - 1], g[m]);
    }
  }

  /** A label's un-normalised weight is the average, over the instants of its span, of one over
      the number of the wallet's labels live at that instant; it is 1 for an empty span. */
  lemma WeightIsAverage(ls: seq<Label>, k: nat)
    requires k < |ls|
    ensures var l := ls[k];
      if l.start < l.end then RawWeight(ls, l) == UnsharedTime(ls, l.start, l.end) / (l.end - l.start) as real
      else RawWeight(ls, l) == 1.0
  {
    var l, g := ls[k], Grid(ls);
    if l.start < l.end {
      GridForItself(ls);
      GridHas(ls, k);
      GridBounds(g, l.start);
      GridBounds(g, l.end);
      SharesUpTo(ls, g, l, Segments(g));
    }
  }

  // ---------- the final weights ----------

  lemma CrossRatio(x: real, y: real, v: real, w: real, m: real)
    requires m > 0.0 && v == x / m && w == y / m
    ensures v * y == w * x
  {
  }

  /** `ws` is `raws` over a positive number. */
  ghost predicate Over(ws: seq<real>, raws: seq<real>, m: real) {
    m > 0.0 && |ws| == |raws| && forall i :: 0 <= i < |raws| ==> ws[i] == raws[i] / m
  }

  ghost predicate InProportion(ws: seq<real>, raws: seq<real>) {
    |ws| == |raws| && forall i, j :: 0 <= i < |raws| && 0 <= j < |raws| ==> ws[i] * raws[j] == ws[j] * raws[i]
  }

  lemma OverInProportion(ws: seq<real>, raws: seq<real>, m: real)
    requires Over(ws, raws, m)
    ensures InProportion(ws, raws)
  {
    forall i, j | 0 <= i < |raws| && 0 <= j < |raws| ensures ws[i] * raws[j] == ws[j] * raws[i] {
      CrossRatio(raws[i], raws[j], ws[i], ws[j], m);
    }
  }

  lemma NormalisedOver(ws: seq<real>)
    requires ws != [] && Total(ws) > 0.0
    ensures Over(Normalised(ws), ws, Total(ws) / |ws| as real)
  {
    DivPositive(Total(ws), |ws| as real);
  }

  /** The final weights are proportional to the un-normalised ones; with their mean of one this
      determines them. */
  lemma Proportional(rows: seq<Row>)
    ensures InProportion(Weights(rows), Raws(rows))
  {
    RawsTotal(rows);
    if rows != [] {
      NormalisedOver(Raws(rows));
      OverInProportion(Weights(rows), Raws(rows), Total(Raws(rows)) / |rows| as real);
    }
  }

  /** Span times weight, added over the first `n` of the rows `idx`. */
  ghost function Spans(rows: seq<Row>, ws: seq<real>, idx: seq<int>, n: nat): real
    requires n <= |idx| && |ws| == |rows| && forall k :: 0 <= k < |idx| ==> 0 <= idx[k] < |rows|
  {
    if n == 0 then 0.0 else Spans(rows, ws, idx, n - 1) + SpanTimes(LabelOf(rows[idx[n - 1]]), ws[idx[n - 1]])
  }

  lemma ScaleTerm(a: real, b: real, l: Label, w: real, x: real, r: real, v: real)
    requires a * r == v * b && w * r == v * x
    ensures (a + SpanTimes(l, w)) * r == v * (b + SpanTimes(l, x))
  {
    var s := (l.end - l.start) as real;
    assert (s * w) * r == s * (w * r) == s * (v * x) == v * (s * x);
  }

  lemma {:induction false} SpansScale(rows: seq<Row>, ws: seq<real>, raws: seq<real>, idx: seq<int>, j: nat, n: nat)
    requires j < |rows| == |ws| && InProportion(ws, raws) && n <= |idx|
    requires forall k :: 0 <= k < |idx| ==> 0 <= idx[k] < |rows|
    ensures Spans(rows, ws, idx, n) * raws[j] == ws[j] * Spans(rows, raws, idx, n)
  {
    if n > 0 {
      var i := idx[n - 1];
      SpansScale(rows, ws, raws, idx, j, n - 1);
      ScaleTerm(Spans(rows, ws, idx, n - 1), Spans(rows, raws, idx, n - 1), LabelOf(rows[i]), ws[i], raws[i], raws[j], ws[j]);
    }
  }

  lemma {:induction false} RawSpans(rows: seq<Row>, w: Wallet, idx: seq<int>, n: nat)
    requires idx == Positions(rows, w) && n <= |idx| && forall k :: 0 <= k < |idx| ==> 0 <= idx[k] < |rows|
    ensures n <= |LabelsOf(rows, w)| == |idx|
    ensures Spans(rows, Raws(rows), idx, n) == SpanWeighted(LabelsOf(rows, w), n)
  {
    if n > 0 {
      RawSpans(rows, w, idx, n - 1);
      assert idx[n - 1] in idx;
      assert LabelsOf(rows, w)[n - 1] == LabelOf(rows[idx[n - 1]]);
    }
  }

  lemma PositionsInside(rows: seq<Row>, w: Wallet)
    ensures forall k :: 0 <= k < |Positions(rows, w)| ==> 0 <= Positions(rows, w)[k] < |rows|
  {
    var idx := Positions(rows, w);
    assert forall k :: 0 <= k < |idx| ==> idx[k] in idx;
  }

  /** What the labels of a wallet carry together: the length of the union of their spans, less
      their inversions. */
  ghost function Carried(ls: seq<Label>): real { |Union(ls)| as real - Inversions(ls, |ls|) as real }

  lemma RawConservation(rows: seq<Row>, w: Wallet, idx: seq<int>)
    requires idx == Positions(rows, w) && forall k :: 0 <= k < |idx| ==> 0 <= idx[k] < |rows|
    ensures Spans(rows, Raws(rows), idx, |idx|) == Carried(LabelsOf(rows, w))
  {
    RawSpans(rows, w, idx, |idx|);
    Conservation(LabelsOf(rows, w));
  }

  /** Span times weight over the rows `idx` adds up to `carried`, in units of row `j`. */
  ghost predicate Conserved(rows: seq<Row>, ws: seq<real>, raws: seq<real>, idx: seq<int>, j: nat, carried: real) {
    && j < |ws| == |raws| == |rows| && (forall k :: 0 <= k < |idx| ==> 0 <= idx[k] < |rows|)
    && Spans(rows, ws, idx, |idx|) * raws[j] == ws[j] * carried
  }

  lemma ConservedInProportion(rows: seq<Row>, ws: seq<real>, raws: seq<real>, idx: seq<int>, j: nat, carried: real)
    requires j < |rows| == |ws| && InProportion(ws, raws) && forall k :: 0 <= k < |idx| ==> 0 <= idx[k] < |rows|
    requires Spans(rows, raws, idx, |idx|) == carried
    ensures Conserved(rows, ws, raws, idx, j, carried)
  {
    SpansScale(rows, ws, raws, idx, j, |idx|);
  }

  /** Conservation of the final weights, whatever row serves as the unit. */
  lemma FinalConservation(rows: seq<Row>, w: Wallet, j: nat)
    requires j < |rows|
    ensures Conserved(rows, Weights(rows), Raws(rows), Positions(rows, w), j, Carried(LabelsOf(rows, w)))
  {
    PositionsInside(rows, w);
    Proportional(rows);
    RawConservation(rows, w, Positions(rows, w));
    ConservedInProportion(rows, Weights(rows), Raws(rows), Positions(rows, w), j, Carried(LabelsOf(rows, w)));
  }
}
