/** `uniqueness_weights` (the fast path) and `_uniqueness_weights_pyloop` (the reference
    loop), both proved to return `UniquenessFrame.Weights`, hence the same sequence. */
module UniquenessPaths {
  import opened Basics
  import opened Sums
  import opened Uniqueness
  import opened UniquenessFrame
  import opened UniquenessKernel
  import opened UniquenessReference

  // ---------- factorise ----------

  /** The wallets of the frame in order of first appearance. */
  function Keys(rows: seq<Row>): (r: seq<Wallet>)
    ensures Distinct(r)
    ensures forall i :: 0 <= i < |rows| ==> rows[i].wallet in r
  {
    if rows == [] then []
    else
      var n := |rows| - 1;
      var ks := Keys(rows[..n]);
      assert forall i :: 0 <= i < n ==> rows[..n][i] == rows[i];
      if rows[n].wallet in ks then ks else ks + [rows[n].wallet]
  }

  function Code(keys: seq<Wallet>, w: Wallet): (r: int)
    requires w in keys
    ensures 0 <= r < |keys| && keys[r] == w
  {
    if keys[|keys| - 1] == w then |keys| - 1 else Code(keys[..|keys| - 1], w)
  }

  function Codes(rows: seq<Row>): (r: seq<int>)
    ensures |r| == |rows|
    ensures forall i :: 0 <= i < |r| ==> 0 <= r[i] < |Keys(rows)|
    ensures forall i, j :: 0 <= i < |r| && 0 <= j < |r| ==> (r[i] == r[j] <==> rows[i].wallet == rows[j].wallet)
  {
    seq(|rows|, i requires 0 <= i < |rows| => Code(Keys(rows), rows[i].wallet))
  }

  // ---------- stable argsort ----------

  /** Ascending codes, equal codes in row order. */
  ghost predicate StableOrder(order: seq<int>, codes: seq<int>) {
    && (forall p :: 0 <= p < |order| ==> 0 <= order[p] < |codes|)
    && forall p, q :: 0 <= p < q < |order| ==>
         codes[order[p]] < codes[order[q]] || (codes[order[p]] == codes[order[q]] && order[p] < order[q])
  }

  ghost predicate StableArgsort(order: seq<int>, codes: seq<int>) {
    && StableOrder(order, codes)
    && |order| == |codes|
    && forall i :: 0 <= i < |codes| ==> i in order
  }

  ghost function Elems(s: seq<int>): set<int> { set x | x in s }

  lemma {:induction false} DistinctCard(s: seq<int>)
    requires Distinct(s)
    ensures |Elems(s)| == |s|
  {
    if s != [] {
      var n := |s| - 1;
      DistinctCard(s[..n]);
      assert Elems(s) == Elems(s[..n]) + {s[n]};
    }
  }

  lemma PermutationLength(order: seq<int>, codes: seq<int>)
    requires StableOrder(order, codes) && forall i :: 0 <= i < |codes| ==> i in order
    ensures |order| == |codes|
  {
    DistinctCard(order);
    assert Elems(order) == Range(0, |codes|);
  }

  method ArgsortStable(codes: seq<int>, m: nat) returns (order: seq<int>)
    requires forall i :: 0 <= i < |codes| ==> 0 <= codes[i] < m
    ensures StableArgsort(order, codes)
  {
    order := [];
    for c := 0 to m
      invariant StableOrder(order, codes)
      invariant forall p :: 0 <= p < |order| ==> codes[order[p]] < c
      invariant forall i :: 0 <= i < |codes| && codes[i] < c ==> i in order
    {
      for i := 0 to |codes|
        invariant StableOrder(order, codes)
        invariant forall p :: 0 <= p < |order| ==> codes[order[p]] < c || (codes[order[p]] == c && order[p] < i)
        invariant forall k :: 0 <= k < |codes| && (codes[k] < c || (codes[k] == c && k < i)) ==> k in order
      {
        if codes[i] == c {
          ghost var before := order;
          order := order + [i];
          assert forall k :: k in before ==> k in order;
          assert order[|before|] == i;
        }
      }
    }
    PermutationLength(order, codes);
  }

  // ---------- group boundaries ----------

  /** `[a, b)` is a maximal run of equal codes in the sorted code array. */
  ghost predicate MaximalRun(sorted: seq<int>, a: int, b: int) {
    && 0 <= a < b <= |sorted|
    && (forall p :: a <= p < b ==> sorted[p] == sorted[a])
    && (a > 0 ==> sorted[a - 1] != sorted[a])
    && (b < |sorted| ==> sorted[b - 1] != sorted[b])
  }

  method GroupBounds(sorted: seq<int>) returns (bounds: seq<int>)
    requires sorted != []
    ensures Bounds(bounds, |sorted|)
    ensures forall g :: 0 <= g < |bounds| - 1 ==> MaximalRun(sorted, bounds[g], bounds[g + 1])
  {
    bounds := [0];
    for i := 1 to |sorted|
      invariant 1 <= |bounds| && bounds[0] == 0
      invariant forall g, h :: 0 <= g < h < |bounds| ==> bounds[g] <= bounds[h]
      invariant forall g :: 0 <= g < |bounds| - 1 ==> MaximalRun(sorted, bounds[g], bounds[g + 1])
      invariant OpenRun(sorted, bounds[|bounds| - 1], i)
    {
      if sorted[i] != sorted[i - 1] { bounds := bounds + [i]; }
    }
    bounds := bounds + [|sorted|];
  }

  /** A run that starts at `a` and has not ended before `i`. */
  ghost predicate OpenRun(sorted: seq<int>, a: int, i: int) {
    && 0 <= a < i <= |sorted|
    && (a > 0 ==> sorted[a - 1] != sorted[a])
    && forall p :: a <= p < i ==> sorted[p] == sorted[a]
  }

  lemma {:induction false} GroupOf(bounds: seq<int>, p: int) returns (g: int)
    requires 1 <= |bounds| && bounds[0] <= p < bounds[|bounds| - 1]
    ensures 0 <= g < |bounds| - 1 && bounds[g] <= p < bounds[g + 1]
  {
    g := |bounds| - 2;
    if p < bounds[g] { g := GroupOf(bounds[..g + 1], p); }
  }

  // ---------- each group is one wallet's rows, in row order ----------

  lemma {:induction false} SameElements(s: seq<int>, t: seq<int>)
    requires Increasing(s) && Increasing(t) && forall x :: x in s <==> x in t
    ensures s == t
  {
    assert (s != [] ==> s[|s| - 1] in s) && (t != [] ==> t[|t| - 1] in t);
    if s != [] {
      var n, m := |s| - 1, |t| - 1;
      assert s[n] == t[m];
      forall x ensures x in s[..n] <==> x in t[..m] {
        assert x in s[..n] <==> x in s && x != s[n];
        assert x in t[..m] <==> x in t && x != t[m];
      }
      SameElements(s[..n], t[..m]);
    }
  }

  lemma OutsideRun(sorted: seq<int>, a: int, b: int, q: int)
    requires forall p, q :: 0 <= p < q < |sorted| ==> sorted[p] <= sorted[q]
    requires MaximalRun(sorted, a, b) && 0 <= q < |sorted| && !(a <= q < b)
    ensures sorted[q] != sorted[a]
  {
    if q < a {
      assert sorted[q] <= sorted[a - 1] <= sorted[a];
    } else {
      assert sorted[a] == sorted[b - 1] <= sorted[b] <= sorted[q];
    }
  }

  lemma RunMembers(rows: seq<Row>, order: seq<int>, sorted: seq<int>, a: int, b: int, i: int)
    requires StableArgsort(order, Codes(rows)) && |sorted| == |order|
    requires forall p :: 0 <= p < |order| ==> sorted[p] == Codes(rows)[order[p]]
    requires MaximalRun(sorted, a, b)
    ensures i in order[a..b] <==> 0 <= i < |rows| && rows[i].wallet == rows[order[a]].wallet
  {
    if 0 <= i < |rows| {
      assert i in order;
      var q :| 0 <= q < |order| && order[q] == i;
      if a <= q < b {
        assert order[a..b][q - a] == i;
      } else {
        OutsideRun(sorted, a, b, q);
        assert forall p :: a <= p < b ==> order[p] != i;
      }
    }
  }

  lemma GroupIsWallet(rows: seq<Row>, order: seq<int>, sorted: seq<int>, a: int, b: int)
    requires StableArgsort(order, Codes(rows)) && |sorted| == |order|
    requires forall p :: 0 <= p < |order| ==> sorted[p] == Codes(rows)[order[p]]
    requires MaximalRun(sorted, a, b)
    ensures order[a..b] == Positions(rows, rows[order[a]].wallet)
    ensures forall p :: a <= p < b ==> rows[order[p]].wallet == rows[order[a]].wallet
  {
    var w, part := rows[order[a]].wallet, order[a..b];
    forall i ensures i in part <==> 0 <= i < |rows| && rows[i].wallet == w {
      RunMembers(rows, order, sorted, a, b, i);
    }
    RunIncreasing(rows, order, sorted, a, b);
    SameElements(part, Positions(rows, w));
    forall p | a <= p < b ensures rows[order[p]].wallet == w { assert part[p - a] in part; }
  }

  /** Within a run the stable order keeps the rows ascending. */
  lemma RunIncreasing(rows: seq<Row>, order: seq<int>, sorted: seq<int>, a: int, b: int)
    requires StableArgsort(order, Codes(rows)) && |sorted| == |order|
    requires forall p :: 0 <= p < |order| ==> sorted[p] == Codes(rows)[order[p]]
    requires MaximalRun(sorted, a, b)
    ensures Increasing(order[a..b])
  {
    forall i, j | 0 <= i < j < b - a ensures order[a..b][i] < order[a..b][j] {
      assert sorted[a + i] == sorted[a + j];
    }
  }

  // ---------- the fast path ----------

  lemma ZipIsLabels(rows: seq<Row>, order: seq<int>, sAll: seq<int>, eAll: seq<int>, a: int, b: int)
    requires |order| == |sAll| == |eAll| && 0 <= a <= b <= |order|
    requires forall q :: 0 <= q < |order| ==>
      0 <= order[q] < |rows| && sAll[q] == rows[order[q]].start && eAll[q] == rows[order[q]].end
    ensures Zip(sAll[a..b], eAll[a..b]) == LabelsAt(rows, order[a..b])
  {
  }

  method Rescale(raw: array<real>) returns (w: array<real>)
    requires raw.Length > 0 && Total(raw[..]) != 0.0
    ensures fresh(w) && w[..] == Normalised(raw[..])
  {
    var mean := Total(raw[..]) / raw.Length as real;
    w := new real[raw.Length];
    for i := 0 to w.Length
      invariant forall k :: 0 <= k < i ==> w[k] == raw[k] / mean
    {
      w[i] := raw[i] / mean;
    }
  }

  /** Puts the sorted weights back at their original rows. */
  method Scatter(ws: array<real>, order: seq<int>, ghost codes: seq<int>, ghost target: seq<real>)
    returns (raw: array<real>)
    requires StableArgsort(order, codes) && ws.Length == |order| == |target|
    requires forall p :: 0 <= p < |order| ==> ws[p] == target[order[p]]
    ensures fresh(raw) && raw[..] == target
  {
    raw := new real[ws.Length];
    for p := 0 to ws.Length
      invariant forall q :: 0 <= q < p ==> raw[order[q]] == target[order[q]]
    {
      raw[order[p]] := ws[p];
    }
    forall i | 0 <= i < |target| ensures raw[i] == target[i] {
      assert i in order;
    }
  }

  lemma GroupLabels(rows: seq<Row>, order: seq<int>, sorted: seq<int>, sAll: seq<int>, eAll: seq<int>, a: int, b: int)
    requires StableArgsort(order, Codes(rows)) && |order| == |sorted| == |sAll| == |eAll| == |rows|
    requires forall q :: 0 <= q < |order| ==>
      && 0 <= order[q] < |rows| && sorted[q] == Codes(rows)[order[q]]
      && sAll[q] == rows[order[q]].start && eAll[q] == rows[order[q]].end
    requires MaximalRun(sorted, a, b)
    ensures Zip(sAll[a..b], eAll[a..b]) == LabelsOf(rows, rows[order[a]].wallet)
    ensures forall p :: a <= p < b ==> rows[order[p]].wallet == rows[order[a]].wallet
  {
    GroupIsWallet(rows, order, sorted, a, b);
    ZipIsLabels(rows, order, sAll, eAll, a, b);
  }

  /** Within a wallet's group the kernel's raw weight is the row's. */
  lemma RawInGroup(rows: seq<Row>, i: int, j: int, ls: seq<Label>, l: Label)
    requires 0 <= i < |rows| && 0 <= j < |rows| && rows[i].wallet == rows[j].wallet
    requires ls == LabelsOf(rows, rows[j].wallet) && l == LabelOf(rows[i])
    ensures RawWeight(ls, l) == Raws(rows)[i]
  {
  }

  /** The sorted columns hold the rows in the given order. */
  ghost predicate Columned(rows: seq<Row>, order: seq<int>, sAll: seq<int>, eAll: seq<int>) {
    && |order| == |sAll| == |eAll| == |rows|
    && forall q :: 0 <= q < |order| ==>
         0 <= order[q] < |rows| && sAll[q] == rows[order[q]].start && eAll[q] == rows[order[q]].end
  }

  /** Group `g` is the labels of the wallet of all its rows. */
  ghost predicate OneWallet(rows: seq<Row>, order: seq<int>, sAll: seq<int>, eAll: seq<int>, bounds: seq<int>, g: nat)
    requires Columned(rows, order, sAll, eAll) && Bounds(bounds, |order|) && g < |bounds| - 1
  {
    && bounds[g] < bounds[g + 1]
    && Group(sAll, eAll, bounds, g) == LabelsOf(rows, rows[order[bounds[g]]].wallet)
    && forall p :: bounds[g] <= p < bounds[g + 1] ==> rows[order[p]].wallet == rows[order[bounds[g]]].wallet
  }

  lemma PlaceInGroup(rows: seq<Row>, order: seq<int>, sAll: seq<int>, eAll: seq<int>, bounds: seq<int>, p: nat) returns (g: nat)
    requires Columned(rows, order, sAll, eAll) && Bounds(bounds, |order|) && p < |order|
    requires forall g :: 0 <= g < |bounds| - 1 ==> OneWallet(rows, order, sAll, eAll, bounds, g)
    ensures g < |bounds| - 1 && bounds[g] <= p < bounds[g + 1]
    ensures RawWeight(Group(sAll, eAll, bounds, g), Group(sAll, eAll, bounds, g)[p - bounds[g]]) == Raws(rows)[order[p]]
  {
    g := GroupOf(bounds, p);
    assert OneWallet(rows, order, sAll, eAll, bounds, g);
    RawInGroup(rows, order[p], order[bounds[g]], Group(sAll, eAll, bounds, g), Label(sAll[p], eAll[p]));
  }

  lemma GroupsAreWallets(rows: seq<Row>, order: seq<int>, sorted: seq<int>, sAll: seq<int>, eAll: seq<int>, bounds: seq<int>, g: nat)
    requires StableArgsort(order, Codes(rows)) && Columned(rows, order, sAll, eAll) && |sorted| == |order|
    requires forall q :: 0 <= q < |order| ==> sorted[q] == Codes(rows)[order[q]]
    requires Bounds(bounds, |order|) && g < |bounds| - 1 && MaximalRun(sorted, bounds[g], bounds[g + 1])
    ensures OneWallet(rows, order, sAll, eAll, bounds, g)
  {
    GroupLabels(rows, order, sorted, sAll, eAll, bounds[g], bounds[g + 1]);
  }

  lemma KernelIsRaw(rows: seq<Row>, order: seq<int>, sAll: seq<int>, eAll: seq<int>, bounds: seq<int>, ws: array<real>)
    requires Columned(rows, order, sAll, eAll) && Bounds(bounds, |order|) && ws.Length == |rows|
    requires forall g :: 0 <= g < |bounds| - 1 ==> OneWallet(rows, order, sAll, eAll, bounds, g)
    requires forall g :: 0 <= g < |bounds| - 1 ==> HoldsRaw(ws, Group(sAll, eAll, bounds, g), bounds[g], bounds[g + 1])
    ensures forall p :: 0 <= p < |rows| ==> ws[p] == Raws(rows)[order[p]]
  {
    forall p | 0 <= p < |rows| ensures ws[p] == Raws(rows)[order[p]] {
      var g := PlaceInGroup(rows, order, sAll, eAll, bounds, p);
      assert HoldsRaw(ws, Group(sAll, eAll, bounds, g), bounds[g], bounds[g + 1]);
    }
  }

  /** The flat kernel run on the sorted columns writes each row's raw weight at its sorted
      position. */
  method SortedWeights(rows: seq<Row>, order: seq<int>) returns (ws: array<real>)
    requires rows != [] && StableArgsort(order, Codes(rows))
    ensures fresh(ws) && ws.Length == |rows|
    ensures forall p :: 0 <= p < |rows| ==> ws[p] == Raws(rows)[order[p]]
  {
    var n, codes := |rows|, Codes(rows);
    var sAll := seq(n, p requires 0 <= p < n => rows[order[p]].start);
    var eAll := seq(n, p requires 0 <= p < n => rows[order[p]].end);
    var sorted := seq(n, p requires 0 <= p < n => codes[order[p]]);
    var bounds := GroupBounds(sorted);
    ws := new real[n];
    AllGroups(sAll, eAll, bounds, ws);
    forall g | 0 <= g < |bounds| - 1 ensures OneWallet(rows, order, sAll, eAll, bounds, g) {
      GroupsAreWallets(rows, order, sorted, sAll, eAll, bounds, g);
    }
    KernelIsRaw(rows, order, sAll, eAll, bounds, ws);
  }

  method UniquenessWeights(rows: seq<Row>) returns (w: array<real>)
    ensures fresh(w) && w[..] == Weights(rows)
  {
    if |rows| == 0 {
      w := new real[0];
      return;
    }
    var order := ArgsortStable(Codes(rows), |Keys(rows)|);
    var ws := SortedWeights(rows, order);
    var raw := Scatter(ws, order, Codes(rows), Raws(rows));
    RawsTotal(rows);
    w := Rescale(raw);
  }

  // ---------- the reference loop ----------

  /** The un-normalised weights of one wallet's labels. */
  ghost function RawsOf(ls: seq<Label>): (r: seq<real>)
    ensures |r| == |ls|
  {
    seq(|ls|, k requires 0 <= k < |ls| => RawWeight(ls, ls[k]))
  }

  /** One wallet, expression by expression. */
  method ReferenceWeights(s: seq<int>, e: seq<int>) returns (ws: seq<real>)
    requires |s| == |e|
    ensures ws == RawsOf(Zip(s, e))
  {
    ghost var ls := Zip(s, e);
    ghost var target := RawsOf(ls);
    var bp := Unique(s + e);
    ws := [];
    if |bp| < 2 {
      ZipGrid(s, e);
      for k := 0 to |s|
        invariant ws == target[..k]
      {
        OneInstant(ls, k);
        ws := ws + [1.0];
      }
    } else {
      var lo, hi := Lo(bp), Hi(bp);
      var c := Columns(s, e, Mid(lo, hi));
      var seg := Lengths(lo, hi);
      for k := 0 to |s|
        invariant ws == target[..k]
      {
        var m := Covered(lo, hi, s[k], e[k]);
        WeightIsRaw(s, e, k);
        ws := ws + [Weight(seg, c, m, s[k], e[k])];
      }
    }
  }

  lemma RowIsRaw(rows: seq<Row>, wallet: Wallet, k: nat)
    requires k < |Positions(rows, wallet)|
    ensures var idx, ls := Positions(rows, wallet), LabelsOf(rows, wallet);
      0 <= idx[k] < |rows| && rows[idx[k]].wallet == wallet && RawWeight(ls, ls[k]) == Raws(rows)[idx[k]]
  {
    assert Positions(rows, wallet)[k] in Positions(rows, wallet);
  }

  /** One wallet of the reference loop: writes the rows of `idx` and nothing else. */
  method ReferenceGroup(rows: seq<Row>, wallet: Wallet, w: array<real>)
    requires w.Length == |rows|
    modifies w
    ensures forall i :: 0 <= i < w.Length ==>
      w[i] == if rows[i].wallet == wallet then Raws(rows)[i] else old(w[i])
  {
    var idx := Positions(rows, wallet);
    var ls := LabelsOf(rows, wallet);
    var s, e := Starts(ls), Ends(ls);
    var ws := ReferenceWeights(s, e);
    assert Zip(s, e) == ls;
    ghost var target := Raws(rows);
    for k := 0 to |idx|
      invariant forall i :: 0 <= i < w.Length ==> w[i] == if i in idx[..k] then target[i] else old(w[i])
    {
      RowIsRaw(rows, wallet, k);
      w[idx[k]] := ws[k];
      assert idx[..k + 1] == idx[..k] + [idx[k]];
    }
    assert idx[..|idx|] == idx;
  }

  method ReferenceLoop(rows: seq<Row>, keys: seq<Wallet>) returns (raw: array<real>)
    requires forall i :: 0 <= i < |rows| ==> rows[i].wallet in keys
    ensures fresh(raw) && raw[..] == Raws(rows)
  {
    raw := new real[|rows|];
    for g := 0 to |keys|
      invariant forall i :: 0 <= i < |rows| && rows[i].wallet in keys[..g] ==> raw[i] == Raws(rows)[i]
    {
      ReferenceGroup(rows, keys[g], raw);
      assert keys[..g + 1] == keys[..g] + [keys[g]];
    }
    assert keys[..|keys|] == keys;
  }

  method UniquenessWeightsReference(rows: seq<Row>) returns (w: array<real>)
    ensures fresh(w) && w[..] == Weights(rows)
  {
    if |rows| == 0 {
      w := new real[0];
      return;
    }
    var raw := ReferenceLoop(rows, Keys(rows));
    RawsTotal(rows);
    w := Rescale(raw);
  }
}
