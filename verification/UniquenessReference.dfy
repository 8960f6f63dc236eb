/** The array expressions of the reference loop (`_uniqueness_weights_pyloop`) for one wallet, and
    that they give the wallet's un-normalised weights. */
module UniquenessReference {
  import opened Sums
  import opened Uniqueness
  import opened UniquenessKernel

  // ---------- the expressions, vector by vector ----------

  /** The lower and upper ends of the half-open segments of the boundary grid. */
  function Lo(bp: seq<int>): seq<int>
    requires |bp| >= 2
  {
    bp[..|bp| - 1]
  }

  function Hi(bp: seq<int>): seq<int>
    requires |bp| >= 2
  {
    bp[1..]
  }

  function Mid(lo: seq<int>, hi: seq<int>): seq<real>
    requires |lo| == |hi|
  {
    seq(|lo|, j requires 0 <= j < |lo| => (lo[j] + hi[j]) as real / 2.0)
  }

  /** One column of the live matrix, added up over the labels. */
  function ColumnSum(s: seq<int>, e: seq<int>, mid: real): nat
    requires |s| == |e|
  {
    if s == [] then 0
    else
      var n := |s| - 1;
      ColumnSum(s[..n], e[..n], mid) + if s[n] as real <= mid && mid < e[n] as real then 1 else 0
  }

  /** The column sums, at least one each. */
  function Columns(s: seq<int>, e: seq<int>, mid: seq<real>): seq<real>
    requires |s| == |e|
  {
    seq(|mid|, j requires 0 <= j < |mid| =>
      (if ColumnSum(s, e, mid[j]) > 1 then ColumnSum(s, e, mid[j]) else 1) as real)
  }

  function Lengths(lo: seq<int>, hi: seq<int>): seq<real>
    requires |lo| == |hi|
  {
    seq(|lo|, j requires 0 <= j < |lo| => (hi[j] - lo[j]) as real)
  }

  /** The segments a label from `a` to `b` covers. */
  function Covered(lo: seq<int>, hi: seq<int>, a: int, b: int): seq<bool>
    requires |lo| == |hi|
  {
    seq(|lo|, j requires 0 <= j < |lo| => lo[j] >= a && hi[j] <= b)
  }

  /** Indexing by a boolean mask. */
  function Select(xs: seq<real>, m: seq<bool>): (r: seq<real>)
    requires |xs| == |m|
    ensures forall x :: x in r ==> x in xs
  {
    if xs == [] then []
    else
      var n := |xs| - 1;
      assert xs == xs[..n] + [xs[n]];
      Select(xs[..n], m[..n]) + if m[n] then [xs[n]] else []
  }

  function Divide(a: seq<real>, b: seq<real>): seq<real>
    requires |a| == |b| && forall j :: 0 <= j < |b| ==> b[j] != 0.0
  {
    seq(|a|, j requires 0 <= j < |a| => a[j] / b[j])
  }

  lemma {:induction false} SelectSize(a: seq<real>, b: seq<real>, m: seq<bool>)
    requires |a| == |b| == |m|
    ensures |Select(a, m)| == |Select(b, m)|
  {
    if a != [] { SelectSize(a[..|a| - 1], b[..|b| - 1], m[..|m| - 1]); }
  }

  /** `(seg[m] / c[m]).sum()`. */
  function MaskedSum(seg: seq<real>, c: seq<real>, m: seq<bool>): real
    requires |seg| == |c| == |m| && forall j :: 0 <= j < |c| ==> c[j] >= 1.0
  {
    SelectSize(seg, c, m);
    var d := Select(c, m);
    assert forall j :: 0 <= j < |d| ==> d[j] in d && d[j] in c;
    Total(Divide(Select(seg, m), d))
  }

  // ---------- they compute the specified weight ----------

  lemma {:induction false} ColumnIsLive(s: seq<int>, e: seq<int>, mid: real)
    requires |s| == |e|
    ensures ColumnSum(s, e, mid) == LiveCount(Zip(s, e), mid)
  {
    if s != [] {
      var n := |s| - 1;
      ColumnIsLive(s[..n], e[..n], mid);
      assert Zip(s, e)[..n] == Zip(s[..n], e[..n]);
    }
  }

  lemma MaskedSumStep(seg: seq<real>, c: seq<real>, m: seq<bool>)
    requires |seg| == |c| == |m| > 0 && forall j :: 0 <= j < |c| ==> c[j] >= 1.0
    ensures var n := |m| - 1;
      MaskedSum(seg, c, m) == MaskedSum(seg[..n], c[..n], m[..n]) + if m[n] then seg[n] / c[n] else 0.0
  {
    var n := |m| - 1;
    SelectSize(seg, c, m);
    SelectSize(seg[..n], c[..n], m[..n]);
    var a, b := Select(seg[..n], m[..n]), Select(c[..n], m[..n]);
    assert forall j :: 0 <= j < |b| ==> b[j] in b && b[j] in c[..n];
    if m[n] {
      assert Select(seg, m) == a + [seg[n]] && Select(c, m) == b + [c[n]];
      assert Divide(a + [seg[n]], b + [c[n]])[..|a|] == Divide(a, b);
    } else {
      assert Select(seg, m) == a && Select(c, m) == b;
    }
  }

  /** The vectors of one wallet hold the grid's lengths, concurrencies and coverage. */
  ghost predicate Vectors(seg: seq<real>, c: seq<real>, m: seq<bool>, ls: seq<Label>, g: seq<int>, l: Label) {
    && |seg| == |c| == |m| == Segments(g)
    && forall j :: 0 <= j < Segments(g) ==>
         && seg[j] == SegLen(g, j) as real
         && c[j] == Concurrency(ls, Midpoint(g, j)) as real
         && (m[j] <==> Covers(l, g, j))
  }

  lemma {:induction false} MaskedSumIsShares(seg: seq<real>, c: seq<real>, m: seq<bool>, ls: seq<Label>, g: seq<int>, l: Label, n: nat)
    requires Vectors(seg, c, m, ls, g, l) && n <= Segments(g)
    ensures MaskedSum(seg[..n], c[..n], m[..n]) == ShareSum(ls, g, l, n)
  {
    if n > 0 {
      MaskedSumIsShares(seg, c, m, ls, g, l, n - 1);
      assert seg[..n][..n - 1] == seg[..n - 1] && c[..n][..n - 1] == c[..n - 1] && m[..n][..n - 1] == m[..n - 1];
      MaskedSumStep(seg[..n], c[..n], m[..n]);
    }
  }

  lemma VectorsHold(s: seq<int>, e: seq<int>, k: nat)
    requires |s| == |e| && k < |s| && |Unique(s + e)| >= 2
    ensures var bp := Unique(s + e);
      Vectors(Lengths(Lo(bp), Hi(bp)), Columns(s, e, Mid(Lo(bp), Hi(bp))), Covered(Lo(bp), Hi(bp), s[k], e[k]),
              Zip(s, e), bp, Label(s[k], e[k]))
  {
    var bp := Unique(s + e);
    var mid := Mid(Lo(bp), Hi(bp));
    forall j | 0 <= j < Segments(bp)
      ensures Columns(s, e, mid)[j] == Concurrency(Zip(s, e), Midpoint(bp, j)) as real
    {
      assert mid[j] == Midpoint(bp, j);
      ColumnIsLive(s, e, mid[j]);
    }
  }

  /** The weight the reference loop assigns to label `k`. */
  function Weight(seg: seq<real>, c: seq<real>, m: seq<bool>, a: int, b: int): real
    requires |seg| == |c| == |m| && forall j :: 0 <= j < |c| ==> c[j] >= 1.0
  {
    var span := (b - a) as real;
    if span > 0.0 then MaskedSum(seg, c, m) / span else 1.0
  }

  lemma WeightOfVectors(seg: seq<real>, c: seq<real>, m: seq<bool>, ls: seq<Label>, l: Label)
    requires Vectors(seg, c, m, ls, Grid(ls), l)
    ensures Weight(seg, c, m, l.start, l.end) == RawWeight(ls, l)
  {
    var n := Segments(Grid(ls));
    MaskedSumIsShares(seg, c, m, ls, Grid(ls), l, n);
    assert seg[..n] == seg && c[..n] == c && m[..n] == m;
  }

  /** The reference expressions give the specified weight. */
  lemma WeightIsRaw(s: seq<int>, e: seq<int>, k: nat)
    requires |s| == |e| && k < |s| && |Unique(s + e)| >= 2
    ensures var bp := Unique(s + e); var lo, hi := Lo(bp), Hi(bp); var ls := Zip(s, e);
      Weight(Lengths(lo, hi), Columns(s, e, Mid(lo, hi)), Covered(lo, hi, s[k], e[k]), s[k], e[k]) == RawWeight(ls, ls[k])
  {
    var bp := Unique(s + e);
    var lo, hi := Lo(bp), Hi(bp);
    VectorsHold(s, e, k);
    ZipGrid(s, e);
    WeightOfVectors(Lengths(lo, hi), Columns(s, e, Mid(lo, hi)), Covered(lo, hi, s[k], e[k]), Zip(s, e), Label(s[k], e[k]));
  }
}
