/** Average ranks with ties: the sort-and-sweep loop of `spearman`
    (`scripts/edge_persistence_walkforward.py`) against the counting midrank of `PBO.assess`
    (`scripts/ranker/oos_validation.py`). */
module TieRanks {
  import opened Basics
  import opened UniquenessPaths
  import opened Uniqueness

  function Worse(vals: seq<real>, x: real): nat {
    if vals == [] then 0 else Worse(vals[..|vals| - 1], x) + if vals[|vals| - 1] < x then 1 else 0
  }

  function Equal(vals: seq<real>, x: real): nat {
    if vals == [] then 0 else Equal(vals[..|vals| - 1], x) + if vals[|vals| - 1] == x then 1 else 0
  }

  /** `worse + (equal + 1) / 2`, as `PBO.assess` ranks a config. */
  function Midrank(vals: seq<real>, x: real): real {
    Worse(vals, x) as real + (Equal(vals, x) + 1) as real / 2.0
  }

  /** An ascending order of the indices, ties in any order. */
  ghost predicate Sorts(order: seq<int>, vals: seq<real>) {
    && |order| == |vals|
    && (forall p :: 0 <= p < |order| ==> 0 <= order[p] < |vals|)
    && Distinct(order)
    && forall p, q :: 0 <= p < q < |order| ==> vals[order[p]] <= vals[order[q]]
  }

  // ---------- a tie block's position is its count ----------

  lemma {:induction false} WorseCard(vals: seq<real>, x: real)
    ensures Worse(vals, x) == |set k | 0 <= k < |vals| && vals[k] < x|
  {
    var S := set k | 0 <= k < |vals| && vals[k] < x;
    if vals != [] {
      var n := |vals| - 1;
      WorseCard(vals[..n], x);
      var T := set k | 0 <= k < |vals[..n]| && vals[..n][k] < x;
      assert S == if vals[n] < x then T + {n} else T;
    }
  }

  lemma {:induction false} EqualCard(vals: seq<real>, x: real)
    ensures Equal(vals, x) == |set k | 0 <= k < |vals| && vals[k] == x|
  {
    var S := set k | 0 <= k < |vals| && vals[k] == x;
    if vals != [] {
      var n := |vals| - 1;
      EqualCard(vals[..n], x);
      var T := set k | 0 <= k < |vals[..n]| && vals[..n][k] == x;
      assert S == if vals[n] == x then T + {n} else T;
    }
  }

  lemma EveryIndexOccurs(order: seq<int>, n: nat, i: int)
    requires |order| == n && Distinct(order) && 0 <= i < n
    requires forall p :: 0 <= p < n ==> 0 <= order[p] < n
    ensures i in order
  {
    DistinctCard(order);
    SubsetOfSameSize(Elems(order), Range(0, n));
    assert i in Range(0, n);
  }

  lemma SubsetOfSameSize(a: set<int>, b: set<int>)
    requires a <= b && |a| == |b|
    ensures a == b
  {
    assert |b| == |a| + |b - a|;
  }

  /** `[i, j]` is a maximal block of equal values in the order. */
  ghost predicate TieBlock(vals: seq<real>, order: seq<int>, i: int, j: int)
    requires Sorts(order, vals)
  {
    && 0 <= i <= j < |order|
    && (forall p :: i <= p <= j ==> vals[order[p]] == vals[order[i]])
    && (forall p :: 0 <= p < i ==> vals[order[p]] < vals[order[i]])
    && (forall p :: j < p < |order| ==> vals[order[i]] < vals[order[p]])
  }

  lemma BlockRank(vals: seq<real>, order: seq<int>, i: int, j: int)
    requires Sorts(order, vals) && TieBlock(vals, order, i, j)
    ensures Worse(vals, vals[order[i]]) == i && Equal(vals, vals[order[i]]) == j + 1 - i
  {
    var x := vals[order[i]];
    var W := set k | 0 <= k < |vals| && vals[k] < x;
    var E := set k | 0 <= k < |vals| && vals[k] == x;
    forall k | 0 <= k < |vals|
      ensures (k in W <==> k in order[..i]) && (k in E <==> k in order[i..j + 1])
    {
      EveryIndexOccurs(order, |vals|, k);
      var p :| 0 <= p < |order| && order[p] == k;
      if p < i { assert order[..i][p] == k; }
      if i <= p <= j { assert order[i..j + 1][p - i] == k; }
    }
    assert W == Elems(order[..i]);
    assert E == Elems(order[i..j + 1]);
    DistinctCard(order[..i]);
    DistinctCard(order[i..j + 1]);
    WorseCard(vals, x);
    EqualCard(vals, x);
  }

  // ---------- the sweep ----------

  method Sweep(vals: seq<real>, order: seq<int>) returns (r: array<real>)
    requires Sorts(order, vals)
    ensures fresh(r) && r.Length == |vals|
    ensures forall i :: 0 <= i < |vals| ==> r[i] == Midrank(vals, vals[i])
  {
    var n := |vals|;
    r := new real[n](_ => 0.0);
    var i := 0;
    while i < n
      invariant 0 <= i <= n
      invariant forall p, q :: 0 <= p < i <= q < n ==> vals[order[p]] < vals[order[q]]
      invariant forall p :: 0 <= p < i ==> r[order[p]] == Midrank(vals, vals[order[p]])
    {
      var j := i;
      while j + 1 < n && vals[order[j + 1]] == vals[order[i]]
        invariant i <= j < n
        invariant forall p :: i <= p <= j ==> vals[order[p]] == vals[order[i]]
      {
        j := j + 1;
      }
      var avg := (i + j) as real / 2.0 + 1.0;
      BlockRank(vals, order, i, j);
      for k := i to j + 1
        invariant forall p :: 0 <= p < i ==> r[order[p]] == Midrank(vals, vals[order[p]])
        invariant forall p :: i <= p < k ==> r[order[p]] == avg
      {
        r[order[k]] := avg;
      }
      i := j + 1;
    }
    forall k | 0 <= k < n ensures r[k] == Midrank(vals, vals[k]) { EveryIndexOccurs(order, n, k); }
  }

  /** An ascending order of the indices, as `sorted(range(n), key=...)` gives. */
  method SortIndices(vals: seq<real>) returns (order: seq<int>)
    ensures Sorts(order, vals)
  {
    order := [];
    for i := 0 to |vals|
      invariant |order| == i && Distinct(order)
      invariant forall p :: 0 <= p < i ==> 0 <= order[p] < i
      invariant forall p, q :: 0 <= p < q < i ==> vals[order[p]] <= vals[order[q]]
    {
      var cut := 0;
      while cut < i && vals[order[cut]] <= vals[i]
        invariant 0 <= cut <= i
        invariant forall p :: 0 <= p < cut ==> vals[order[p]] <= vals[i]
      {
        cut := cut + 1;
      }
      order := order[..cut] + [i] + order[cut..];
    }
  }

  method Ranks(vals: seq<real>) returns (r: array<real>)
    ensures fresh(r) && r.Length == |vals|
    ensures forall i :: 0 <= i < |vals| ==> r[i] == Midrank(vals, vals[i])
  {
    var order := SortIndices(vals);
    r := Sweep(vals, order);
  }

  // ---------- ranks follow the values ----------

  lemma {:induction false} WorseGrows(vals: seq<real>, x: real, y: real)
    requires x < y
    ensures Worse(vals, x) + Equal(vals, x) <= Worse(vals, y)
  {
    if vals != [] { WorseGrows(vals[..|vals| - 1], x, y); }
  }

  lemma {:induction false} EqualCounts(vals: seq<real>, x: real)
    requires x in vals
    ensures Equal(vals, x) >= 1
  {
    var n := |vals| - 1;
    assert vals == vals[..n] + [vals[n]];
    if x != vals[n] { EqualCounts(vals[..n], x); }
  }

  /** A larger value has the larger rank; equal values share theirs, the mean of their places. */
  lemma RanksFollowValues(vals: seq<real>, i: nat, j: nat)
    requires i < |vals| && j < |vals|
    ensures vals[i] < vals[j] <==> Midrank(vals, vals[i]) < Midrank(vals, vals[j])
  {
    EqualCounts(vals, vals[i]);
    EqualCounts(vals, vals[j]);
    if vals[i] < vals[j] { WorseGrows(vals, vals[i], vals[j]); }
    if vals[j] < vals[i] { WorseGrows(vals, vals[j], vals[i]); }
  }

  lemma BlockMidrank(vals: seq<real>, order: seq<int>, i: int, j: int)
    requires Sorts(order, vals) && TieBlock(vals, order, i, j)
    ensures Midrank(vals, vals[order[i]]) * 2.0 == (i + 1) as real + (j + 1) as real
  {
    BlockRank(vals, order, i, j);
  }

  // ---------- the ranks sum to n(n+1)/2 ----------

  function RankSum(vals: seq<real>, xs: seq<real>): real {
    if xs == [] then 0.0 else RankSum(vals, xs[..|xs| - 1]) + Midrank(vals, xs[|xs| - 1])
  }

  function Better(vals: seq<real>, x: real): nat {
    if vals == [] then 0 else Better(vals[..|vals| - 1], x) + if x < vals[|vals| - 1] then 1 else 0
  }

  lemma {:induction false} ThreeWay(vals: seq<real>, x: real)
    ensures Worse(vals, x) + Equal(vals, x) + Better(vals, x) == |vals|
  {
    if vals != [] { ThreeWay(vals[..|vals| - 1], x); }
  }

  lemma {:induction false} OneMoreValue(vals: seq<real>, v: real, xs: seq<real>)
    ensures RankSum(vals + [v], xs)
         == RankSum(vals, xs) + Better(xs, v) as real + Equal(xs, v) as real / 2.0
  {
    if xs != [] {
      OneMoreValue(vals, v, xs[..|xs| - 1]);
      assert (vals + [v])[..|vals + [v]| - 1] == vals;
    }
  }

  lemma {:induction false} RanksSum(vals: seq<real>)
    ensures RankSum(vals, vals) == (|vals| * (|vals| + 1)) as real / 2.0
  {
    if vals != [] {
      var n := |vals| - 1;
      var init, v := vals[..n], vals[n];
      assert vals == init + [v];
      RanksSum(init);
      OneMoreValue(init, v, init);
      ThreeWay(init, v);
      assert (n + 1) * (n + 2) == n * (n + 1) + 2 * (n + 1);
    }
  }
}
