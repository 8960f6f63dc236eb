/** The flat array kernel of the fast path (`_uw_all_groups`): one wallet group after another,
    each label weighed in a buffer. */
module UniquenessKernel {
  import opened Sums
  import opened Uniqueness
  import opened UniquenessFrame

  function Zip(s: seq<int>, e: seq<int>): (r: seq<Label>)
    requires |s| == |e|
    ensures |r| == |s| && forall i :: 0 <= i < |s| ==> r[i] == Label(s[i], e[i])
  {
    seq(|s|, i requires 0 <= i < |s| => Label(s[i], e[i]))
  }

  lemma ZipGrid(s: seq<int>, e: seq<int>)
    requires |s| == |e|
    ensures Grid(Zip(s, e)) == Unique(s + e)
  {
    assert Starts(Zip(s, e)) == s && Ends(Zip(s, e)) == e;
  }

  method CountLive(s: seq<int>, e: seq<int>, mid: real) returns (cnt: nat)
    requires |s| == |e|
    ensures cnt == LiveCount(Zip(s, e), mid)
  {
    cnt := 0;
    ghost var ls := Zip(s, e);
    for i := 0 to |s|
      invariant cnt == LiveCount(ls[..i], mid)
    {
      assert ls[..i + 1][..i] == ls[..i];
      if s[i] as real <= mid && mid < e[i] as real { cnt := cnt + 1; }
    }
    assert ls[..|s|] == ls;
  }

  ghost predicate HoldsConcurrency(c: array<real>, ls: seq<Label>, bp: seq<int>)
    reads c
  {
    c.Length == Segments(bp)
    && forall j :: 0 <= j < c.Length ==> c[j] == Concurrency(ls, Midpoint(bp, j)) as real
  }

  method FillConcurrency(s: seq<int>, e: seq<int>, bp: seq<int>) returns (c: array<real>)
    requires |s| == |e|
    ensures fresh(c) && HoldsConcurrency(c, Zip(s, e), bp)
  {
    c := new real[Segments(bp)];
    for j := 0 to c.Length
      invariant forall i :: 0 <= i < j ==> c[i] == Concurrency(Zip(s, e), Midpoint(bp, i)) as real
    {
      var cnt := CountLive(s, e, Midpoint(bp, j));
      c[j] := if cnt >= 1 then cnt as real else 1.0;
    }
  }

  /** Collects `seg/c` of the covered segments in `buf` and sums them pairwise. */
  method WeighLabel(ghost ls: seq<Label>, bp: seq<int>, c: array<real>, buf: array<real>, l: Label)
    returns (w: real)
    requires HoldsConcurrency(c, ls, bp) && buf.Length == c.Length && buf != c && l.end > l.start
    modifies buf
    ensures w == OverSpan(l, ShareSum(ls, bp, l, Segments(bp)))
  {
    var cnt := 0;
    for j := 0 to c.Length
      invariant cnt <= j
      invariant HoldsConcurrency(c, ls, bp)
      invariant Total(buf[..cnt]) == ShareSum(ls, bp, l, j)
    {
      if bp[j] >= l.start && bp[j + 1] <= l.end {
        ghost var before := buf[..cnt];
        buf[cnt] := (bp[j + 1] - bp[j]) as real / c[j];
        cnt := cnt + 1;
        assert buf[..cnt][..cnt - 1] == before;
      }
    }
    var total := PairwiseSum(buf, 0, cnt);
    assert buf[..][0..cnt] == buf[..cnt];
    w := total / (l.end - l.start) as real;
  }

  /** With fewer than two boundaries no label lasts, so every weight is one. */
  lemma OneInstant(ls: seq<Label>, k: nat)
    requires k < |ls| && |Grid(ls)| < 2
    ensures RawWeight(ls, ls[k]) == 1.0
  {
    GridHas(ls, k);
    assert Grid(ls)[0] == ls[k].start;
    assert Grid(ls)[0] == ls[k].end;
  }

  /** `w[a..b]` holds the raw weights of the labels `ls`. */
  ghost predicate HoldsRaw(w: array<real>, ls: seq<Label>, a: nat, b: nat)
    reads w
  {
    b <= w.Length && b - a <= |ls| && forall p :: a <= p < b ==> w[p] == RawWeight(ls, ls[p - a])
  }

  /** The labels of one group, one by one. */
  method LabelWeights(ls: seq<Label>, bp: seq<int>, c: array<real>, a: nat, w: array<real>)
    requires HoldsConcurrency(c, ls, bp) && bp == Grid(ls) && c != w && a + |ls| <= w.Length
    modifies w
    ensures forall p :: 0 <= p < w.Length && !(a <= p < a + |ls|) ==> w[p] == old(w[p])
    ensures HoldsRaw(w, ls, a, a + |ls|)
  {
    var buf := new real[c.Length];
    for k := 0 to |ls|
      invariant HoldsConcurrency(c, ls, bp)
      invariant forall p :: 0 <= p < w.Length && !(a <= p < a + k) ==> w[p] == old(w[p])
      invariant HoldsRaw(w, ls, a, a + k)
    {
      var x := 1.0;
      if ls[k].end > ls[k].start { x := WeighLabel(ls, bp, c, buf, ls[k]); }
      assert x == RawWeight(ls, ls[k]);
      w[a + k] := x;
    }
  }

  /** One iteration of the kernel's outer loop: the wallet group `[a, b)`. */
  method GroupWeights(sAll: seq<int>, eAll: seq<int>, a: nat, b: nat, w: array<real>)
    requires |sAll| == |eAll| == w.Length && a <= b <= w.Length
    modifies w
    ensures forall p :: 0 <= p < w.Length && !(a <= p < b) ==> w[p] == old(w[p])
    ensures HoldsRaw(w, Zip(sAll[a..b], eAll[a..b]), a, b)
  {
    var s, e := sAll[a..b], eAll[a..b];
    var ls := Zip(s, e);
    var bp := Unique(s + e);
    ZipGrid(s, e);
    if |bp| < 2 {
      for k := 0 to b - a
        invariant forall p :: 0 <= p < w.Length && !(a <= p < a + k) ==> w[p] == old(w[p])
        invariant HoldsRaw(w, ls, a, a + k)
      {
        OneInstant(ls, k);
        w[a + k] := 1.0;
      }
      return;
    }
    var c := FillConcurrency(s, e, bp);
    LabelWeights(ls, bp, c, a, w);
  }

  /** Group boundaries: ascending positions that start at 0 and end at `n`. */
  ghost predicate Bounds(bounds: seq<int>, n: nat) {
    && 1 <= |bounds| && bounds[0] == 0 && bounds[|bounds| - 1] == n
    && forall i, j :: 0 <= i < j < |bounds| ==> bounds[i] <= bounds[j]
  }

  /** The labels of group `g`. */
  function Group(sAll: seq<int>, eAll: seq<int>, bounds: seq<int>, g: nat): seq<Label>
    requires |sAll| == |eAll| && Bounds(bounds, |sAll|) && g < |bounds| - 1
  {
    Zip(sAll[bounds[g]..bounds[g + 1]], eAll[bounds[g]..bounds[g + 1]])
  }

  method AllGroups(sAll: seq<int>, eAll: seq<int>, bounds: seq<int>, w: array<real>)
    requires |sAll| == |eAll| == w.Length && Bounds(bounds, w.Length)
    modifies w
    ensures forall g :: 0 <= g < |bounds| - 1 ==> HoldsRaw(w, Group(sAll, eAll, bounds, g), bounds[g], bounds[g + 1])
  {
    for gi := 0 to |bounds| - 1
      invariant forall g :: 0 <= g < gi ==> HoldsRaw(w, Group(sAll, eAll, bounds, g), bounds[g], bounds[g + 1])
    {
      GroupWeights(sAll, eAll, bounds[gi], bounds[gi + 1], w);
    }
  }
}
