/** Uniqueness weights of a whole frame: what the weights are, that they have mean one, and the
    pairwise summation used to add them up. */
module UniquenessFrame {
  import opened Sums
  import opened Uniqueness

  type Wallet = string

  datatype Row = Row(wallet: Wallet, start: int, end: int)

  function LabelOf(r: Row): Label { Label(r.start, r.end) }

  // ---------- specification ----------

  /** The rows of wallet `w`, in frame order. */
  function Positions(rows: seq<Row>, w: Wallet): (r: seq<int>)
    ensures Increasing(r)
    ensures forall i :: i in r <==> 0 <= i < |rows| && rows[i].wallet == w
  {
    if rows == [] then []
    else
      var n := |rows| - 1;
      var p := Positions(rows[..n], w);
      assert forall i :: 0 <= i < |p| ==> p[i] in p;
      if rows[n].wallet == w then p + [n] else p
  }

  function LabelsAt(rows: seq<Row>, idx: seq<int>): (r: seq<Label>)
    requires forall k :: 0 <= k < |idx| ==> 0 <= idx[k] < |rows|
    ensures |r| == |idx|
    ensures forall k :: 0 <= k < |idx| ==> r[k] == LabelOf(rows[idx[k]])
  {
    seq(|idx|, k requires 0 <= k < |idx| => LabelOf(rows[idx[k]]))
  }

  function LabelsOf(rows: seq<Row>, w: Wallet): seq<Label> {
    var idx := Positions(rows, w);
    assert forall k :: 0 <= k < |idx| ==> idx[k] in idx;
    LabelsAt(rows, idx)
  }

  function Raw(rows: seq<Row>, i: int): real
    requires 0 <= i < |rows|
  {
    RawWeight(LabelsOf(rows, rows[i].wallet), LabelOf(rows[i]))
  }

  function Raws(rows: seq<Row>): seq<real> {
    seq(|rows|, i requires 0 <= i < |rows| => Raw(rows, i))
  }

  function Normalised(ws: seq<real>): (r: seq<real>)
    requires ws != [] ==> Total(ws) != 0.0
  {
    if ws == [] then [] else
      var mean := Total(ws) / |ws| as real;
      seq(|ws|, i requires 0 <= i < |ws| => ws[i] / mean)
  }

  lemma RawPositive(rows: seq<Row>, i: int)
    requires 0 <= i < |rows|
    ensures Raw(rows, i) > 0.0
  {
    var p := Positions(rows, rows[i].wallet);
    var k :| 0 <= k < |p| && p[k] == i;
    WeightBounds(LabelsOf(rows, rows[i].wallet), k);
  }

  lemma {:induction false} PositiveTotal(ws: seq<real>)
    requires forall i :: 0 <= i < |ws| ==> ws[i] > 0.0
    ensures Total(ws) >= 0.0 && (ws != [] ==> Total(ws) > 0.0)
  {
    if ws != [] { PositiveTotal(ws[..|ws| - 1]); }
  }

  lemma RawsTotal(rows: seq<Row>)
    ensures rows != [] ==> Total(Raws(rows)) > 0.0
  {
    forall i | 0 <= i < |rows| ensures Raws(rows)[i] > 0.0 { RawPositive(rows, i); }
    PositiveTotal(Raws(rows));
  }

  /** The weights of the frame. */
  function Weights(rows: seq<Row>): seq<real> {
    RawsTotal(rows);
    Normalised(Raws(rows))
  }

  lemma NormalisedMean(ws: seq<real>)
    requires ws != [] && Total(ws) > 0.0 && forall i :: 0 <= i < |ws| ==> ws[i] > 0.0
    ensures Total(Normalised(ws)) == |ws| as real
    ensures forall i :: 0 <= i < |ws| ==> Normalised(ws)[i] > 0.0
  {
    MeanQuotient(Total(ws), |ws| as real);
    TotalDiv(Total(ws) / |ws| as real, ws, Normalised(ws));
    forall i | 0 <= i < |ws| ensures Normalised(ws)[i] > 0.0 {
      DivPositive(ws[i], Total(ws) / |ws| as real);
    }
  }

  /** The final weights are positive and have mean one. */
  lemma MeanOne(rows: seq<Row>)
    requires rows != []
    ensures |Weights(rows)| == |rows|
    ensures Total(Weights(rows)) == |rows| as real
    ensures forall i :: 0 <= i < |rows| ==> Weights(rows)[i] > 0.0
  {
    RawsTotal(rows);
    forall i | 0 <= i < |rows| ensures Raws(rows)[i] > 0.0 { RawPositive(rows, i); }
    NormalisedMean(Raws(rows));
  }

  lemma DivPositive(x: real, y: real)
    requires x > 0.0 && y > 0.0
    ensures x / y > 0.0
  {
  }

  lemma MeanQuotient(t: real, n: real)
    requires t > 0.0 && n > 0.0
    ensures t / n > 0.0 && t / (t / n) == n
  {
    assert (t / n) * n == t;
  }

  // ---------- pairwise summation ----------

  lemma Slice(a: seq<real>, i: nat, j: nat, k: nat)
    requires i <= j <= k <= |a|
    ensures Total(a[i..k]) == Total(a[i..j]) + Total(a[j..k])
  {
    assert a[i..k] == a[i..j] + a[j..k];
    TotalAppend(a[i..j], a[j..k]);
  }

  lemma OneMore(a: seq<real>, i: nat, j: nat)
    requires i <= j < |a|
    ensures Total(a[i..j + 1]) == Total(a[i..j]) + a[j]
  {
    assert a[i..j + 1][..j - i] == a[i..j];
  }

  lemma EightMore(a: seq<real>, i: nat, j: nat)
    requires i <= j && j + 8 <= |a|
    ensures Total(a[i..j + 8]) == Total(a[i..j])
      + (a[j] + a[j + 1] + a[j + 2] + a[j + 3] + a[j + 4] + a[j + 5] + a[j + 6] + a[j + 7])
  {
    OneMore(a, i, j); OneMore(a, i, j + 1); OneMore(a, i, j + 2); OneMore(a, i, j + 3);
    OneMore(a, i, j + 4); OneMore(a, i, j + 5); OneMore(a, i, j + 6); OneMore(a, i, j + 7);
  }

  /** The eight-accumulator block of the reduction. */
  method BlockSum(a: array<real>, start: nat, n: nat) returns (r: real)
    requires start + n <= a.Length && 8 <= n
    ensures r == Total(a[..][start..start + n])
  {
    ghost var s := a[..];
    var r0, r1, r2, r3 := a[start], a[start + 1], a[start + 2], a[start + 3];
    var r4, r5, r6, r7 := a[start + 4], a[start + 5], a[start + 6], a[start + 7];
    var i := 8;
    var end := n - n % 8;
    EightMore(s, start, start);
    while i < end
      invariant 8 <= i <= end <= n && i % 8 == 0 && end % 8 == 0
      invariant r0 + r1 + r2 + r3 + r4 + r5 + r6 + r7 == Total(s[start..start + i])
    {
      EightMore(s, start, start + i);
      r0, r1, r2, r3 := r0 + a[start + i], r1 + a[start + i + 1], r2 + a[start + i + 2], r3 + a[start + i + 3];
      r4, r5, r6, r7 := r4 + a[start + i + 4], r5 + a[start + i + 5], r6 + a[start + i + 6], r7 + a[start + i + 7];
      i := i + 8;
    }
    r := ((r0 + r1) + (r2 + r3)) + ((r4 + r5) + (r6 + r7));
    while i < n
      invariant i <= n && r == Total(s[start..start + i])
    {
      OneMore(s, start, start + i);
      r := r + a[start + i];
      i := i + 1;
    }
  }

  /** numpy's reduction tree: plain loop below 8, eight accumulators up to 128, halves
      rounded down to a multiple of 8 above.  In exact arithmetic it is the plain sum. */
  method PairwiseSum(a: array<real>, start: nat, n: nat) returns (r: real)
    requires start + n <= a.Length
    ensures r == Total(a[..][start..start + n])
    decreases n
  {
    if n < 8 {
      r := 0.0;
      for i := 0 to n
        invariant r == Total(a[..][start..start + i])
      {
        OneMore(a[..], start, start + i);
        r := r + a[start + i];
      }
    } else if n <= 128 {
      r := BlockSum(a, start, n);
    } else {
      var half := n / 2;
      half := half - half % 8;
      var left := PairwiseSum(a, start, half);
      var right := PairwiseSum(a, start + half, n - half);
      Slice(a[..], start, start + half, start + n);
      r := left + right;
    }
  }
}
