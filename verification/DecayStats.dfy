/** Reliability-weighted statistics (`weighted_stats`, `day_clustered_tstat` of
    `scripts/ranker_decay.py`) in exact reals.

    Square roots are avoided: a standard deviation is represented by its square, and a
    t-statistic by its signed square `t * |t|`, which determine them. */
module DecayStats {
  import opened Basics
  import opened Sums
  import Uniqueness

  datatype Num = NaN | Val(x: real)

  datatype Stats = Stats(mean: Num, variance: Num, nEff: real, tsq: Num)

  const SD_FLOOR_SQ: real := 0.000000001 * 0.000000001

  // Named products and quotients: the proofs rewrite them as terms.

  function Mul(x: real, y: real): real { x * y }

  function Div(x: real, y: real): real
    requires y != 0.0
  {
    x / y
  }

  function Sq(x: real): real { Mul(x, x) }

  // ---------- sums ----------

  function SumSq(w: seq<real>): real { if w == [] then 0.0 else SumSq(w[..|w| - 1]) + Sq(w[|w| - 1]) }

  function SumWV(w: seq<real>, v: seq<real>): real
    requires |w| == |v|
  {
    if w == [] then 0.0 else SumWV(w[..|w| - 1], v[..|v| - 1]) + Mul(w[|w| - 1], v[|v| - 1])
  }

  /** Weighted squared deviations from `m`. */
  function Dev(w: seq<real>, v: seq<real>, m: real): real
    requires |w| == |v|
  {
    if w == [] then 0.0 else Dev(w[..|w| - 1], v[..|v| - 1], m) + Mul(w[|w| - 1], Sq(v[|v| - 1] - m))
  }

  function SignedSq(x: real): real { if x >= 0.0 then Sq(x) else -Sq(x) }

  // ---------- weighted_stats ----------

  predicate Uniform(w: seq<real>) { forall i :: 0 <= i < |w| ==> w[i] == w[0] }

  /** Squared deviations, unweighted. */
  function PlainDev(v: seq<real>, m: real): real {
    if v == [] then 0.0 else PlainDev(v[..|v| - 1], m) + Sq(v[|v| - 1] - m)
  }

  /** The t-statistic of a defined mean, variance and effective size, above the floor. */
  function Tsq(mean: real, variance: real, nEff: real): Num {
    if variance > SD_FLOOR_SQ then Val(Div(Mul(SignedSq(mean), nEff), variance)) else NaN
  }

  const UNDEFINED := Stats(NaN, NaN, 0.0, NaN)

  function PlainMean(v: seq<real>): real
    requires v != []
  {
    Div(Total(v), |v| as real)
  }

  /** The `ddof=1` variance. */
  function PlainVariance(v: seq<real>): real
    requires |v| > 1
  {
    Div(PlainDev(v, PlainMean(v)), |v| as real - 1.0)
  }

  /** The short circuit for equal weights. */
  function UniformStats(v: seq<real>): Stats
    requires v != []
  {
    var n, mean := |v| as real, PlainMean(v);
    if |v| <= 1 then Stats(Val(mean), NaN, n, NaN)
    else Stats(Val(mean), Val(PlainVariance(v)), n, Tsq(mean, PlainVariance(v), n))
  }

  function Mean(v: seq<real>, w: seq<real>): real
    requires |v| == |w| && Total(w) != 0.0
  {
    Div(SumWV(w, v), Total(w))
  }

  /** Kish's effective sample size. */
  function EffectiveSize(w: seq<real>): real
    requires SumSq(w) > 0.0
  {
    Div(Sq(Total(w)), SumSq(w))
  }

  function Denominator(w: seq<real>): real { Sq(Total(w)) - SumSq(w) }

  /** The unbiased reliability-weighted variance. */
  function Variance(v: seq<real>, w: seq<real>): real
    requires |v| == |w| && Total(w) != 0.0 && Denominator(w) != 0.0
  {
    Mul(Div(Total(w), Denominator(w)), Dev(w, v, Mean(v, w)))
  }

  /** The general path. */
  function GeneralStats(v: seq<real>, w: seq<real>): Stats
    requires |v| == |w| && Total(w) > 0.0 && SumSq(w) > 0.0
  {
    var mean, nEff := Mean(v, w), EffectiveSize(w);
    if |v| <= 1 || Denominator(w) <= 0.0 || !(nEff > 1.0) then Stats(Val(mean), NaN, nEff, NaN)
    else
      var variance := Variance(v, w);
      if !(variance > 0.0) then Stats(Val(mean), NaN, nEff, NaN)
      else Stats(Val(mean), Val(variance), nEff, Tsq(mean, variance, nEff))
  }

  function WeightedStats(v: seq<real>, w: seq<real>): Stats
    requires |v| == |w|
  {
    if v == [] then UNDEFINED
    else if exists i :: 0 <= i < |w| && w[i] < 0.0 then UNDEFINED
    else if Total(w) <= 0.0 then UNDEFINED
    else if Uniform(w) then UniformStats(v)
    else
      PositiveSquares(w);
      GeneralStats(v, w)
  }

  // ---------- arithmetic ----------

  lemma MulPositive(x: real, y: real)
    requires x > 0.0 && y > 0.0
    ensures Mul(x, y) > 0.0
  {
  }

  lemma SquarePositive(x: real)
    requires x != 0.0
    ensures Sq(x) > 0.0
  {
    if x > 0.0 { MulPositive(x, x); } else { MulPositive(-x, -x); NegNeg(x); }
  }

  lemma NegNeg(x: real)
    ensures Mul(-x, -x) == Mul(x, x)
  {
  }

  lemma Distribute(k: real, x: real, y: real)
    ensures Mul(k, x + y) == Mul(k, x) + Mul(k, y)
  {
  }

  lemma DistributeMinus(k: real, x: real, y: real)
    ensures Mul(k, x - y) == Mul(k, x) - Mul(k, y)
  {
  }

  lemma Regroup(k: real, x: real, y: real)
    ensures Mul(Mul(k, x), y) == Mul(k, Mul(x, y))
  {
  }

  lemma SquareScaled(k: real, x: real)
    ensures Sq(Mul(k, x)) == Mul(Sq(k), Sq(x))
  {
  }

  lemma CancelFactor(k: real, a: real, b: real)
    requires k != 0.0 && b != 0.0
    ensures Mul(k, b) != 0.0 && Div(Mul(k, a), Mul(k, b)) == Div(a, b)
  {
    var q := a / b;
    assert q * b == a;
    assert k * a == q * (k * b);
  }

  lemma SameFactor(k: real, a: real, b: real)
    requires k > 0.0
    ensures (Mul(k, a) == Mul(k, b) <==> a == b) && (Mul(k, a) < Mul(k, b) <==> a < b)
  {
    if a < b { MulPositive(k, b - a); DistributeMinus(k, b, a); }
    if b < a { MulPositive(k, a - b); DistributeMinus(k, a, b); }
  }

  lemma {:induction false} PositiveSquares(w: seq<real>)
    ensures SumSq(w) >= 0.0
    ensures Total(w) != 0.0 ==> SumSq(w) > 0.0
  {
    if w != [] {
      PositiveSquares(w[..|w| - 1]);
      if w[|w| - 1] != 0.0 { SquarePositive(w[|w| - 1]); } else { assert Mul(0.0, 0.0) == 0.0; }
    }
  }

  // ---------- the effective size lies between 1 and n ----------

  ghost predicate NonNegative(w: seq<real>) { forall i :: 0 <= i < |w| ==> w[i] >= 0.0 }

  lemma SquareOfSum(W: real, V2: real, x: real)
    requires W >= 0.0 && x >= 0.0 && V2 <= Sq(W)
    ensures V2 + Sq(x) <= Sq(W + x)
  {
    assert (W + x) * (W + x) == W * W + 2.0 * (W * x) + x * x;
  }

  lemma {:induction false} SquaresBelowSquare(w: seq<real>)
    requires NonNegative(w)
    ensures Total(w) >= 0.0 && SumSq(w) <= Sq(Total(w))
  {
    if w != [] {
      SquaresBelowSquare(w[..|w| - 1]);
      SquareOfSum(Total(w[..|w| - 1]), SumSq(w[..|w| - 1]), w[|w| - 1]);
    }
  }

  lemma CauchyStep(W: real, V2: real, n: real, x: real)
    requires n >= 1.0 && Sq(W) <= Mul(n, V2)
    ensures Sq(W + x) <= Mul(n + 1.0, V2 + Sq(x))
  {
    var d := W - n * x;
    assert d * d >= 0.0;
    assert d * d == W * W - 2.0 * n * (W * x) + n * n * (x * x);
    assert n * (2.0 * (W * x)) <= n * (V2 + n * (x * x));
    SameFactor(n, 2.0 * (W * x), V2 + n * (x * x));
    assert (W + x) * (W + x) == W * W + 2.0 * (W * x) + x * x;
    assert (n + 1.0) * (V2 + x * x) == n * V2 + V2 + n * (x * x) + x * x;
  }

  lemma {:induction false} CauchySchwarz(w: seq<real>)
    ensures Sq(Total(w)) <= Mul(|w| as real, SumSq(w))
  {
    if w != [] {
      var init, x := w[..|w| - 1], w[|w| - 1];
      CauchySchwarz(init);
      if init == [] {
        assert Total(w) == x && SumSq(w) == Sq(x);
      } else {
        CauchyStep(Total(init), SumSq(init), |init| as real, x);
      }
    }
  }

  lemma QuotientBounds(a: real, b: real, n: real)
    requires b > 0.0 && b <= a && a <= Mul(n, b)
    ensures 1.0 <= Div(a, b) <= n
  {
    var q := a / b;
    assert q * b == a;
    SameFactor(b, q, 1.0);
    SameFactor(b, n, q);
  }

  /** The effective size lies between 1 and n for non-negative weights with positive sum. */
  lemma EffectiveSizeBounds(w: seq<real>)
    requires NonNegative(w) && Total(w) > 0.0
    ensures SumSq(w) > 0.0 && 1.0 <= EffectiveSize(w) <= |w| as real
  {
    PositiveSquares(w);
    SquaresBelowSquare(w);
    CauchySchwarz(w);
    QuotientBounds(Sq(Total(w)), SumSq(w), |w| as real);
  }

  // ---------- scaling all weights changes nothing ----------

  function Scaled(k: real, w: seq<real>): seq<real> { seq(|w|, i requires 0 <= i < |w| => Mul(k, w[i])) }

  lemma ScaledInit(k: real, w: seq<real>)
    requires w != []
    ensures Scaled(k, w)[..|w| - 1] == Scaled(k, w[..|w| - 1])
  {
  }

  lemma {:induction false} ScaledSum(k: real, w: seq<real>)
    ensures Total(Scaled(k, w)) == Mul(k, Total(w))
  {
    if w != [] {
      ScaledInit(k, w);
      ScaledSum(k, w[..|w| - 1]);
      Distribute(k, Total(w[..|w| - 1]), w[|w| - 1]);
    }
  }

  lemma {:induction false} ScaledSquares(k: real, w: seq<real>)
    ensures SumSq(Scaled(k, w)) == Mul(Sq(k), SumSq(w))
  {
    if w != [] {
      var init, x := w[..|w| - 1], w[|w| - 1];
      ScaledInit(k, w);
      ScaledSquares(k, init);
      SquareScaled(k, x);
      Distribute(Sq(k), SumSq(init), Sq(x));
    }
  }

  lemma {:induction false} ScaledProducts(k: real, w: seq<real>, v: seq<real>)
    requires |w| == |v|
    ensures SumWV(Scaled(k, w), v) == Mul(k, SumWV(w, v))
  {
    if w != [] {
      var n := |w| - 1;
      ScaledInit(k, w);
      ScaledProducts(k, w[..n], v[..n]);
      Regroup(k, w[n], v[n]);
      Distribute(k, SumWV(w[..n], v[..n]), Mul(w[n], v[n]));
    }
  }

  lemma {:induction false} ScaledDev(k: real, w: seq<real>, v: seq<real>, m: real)
    requires |w| == |v|
    ensures Dev(Scaled(k, w), v, m) == Mul(k, Dev(w, v, m))
  {
    if w != [] {
      var n := |w| - 1;
      ScaledInit(k, w);
      ScaledDev(k, w[..n], v[..n], m);
      Regroup(k, w[n], Sq(v[n] - m));
      Distribute(k, Dev(w[..n], v[..n], m), Mul(w[n], Sq(v[n] - m)));
    }
  }

  /** The factors of a scaled variance cancel. */
  lemma VarianceFactors(k: real, w: real, d: real, x: real)
    requires k > 0.0 && d != 0.0
    ensures Mul(Sq(k), d) != 0.0 && Mul(Div(Mul(k, w), Mul(Sq(k), d)), Mul(k, x)) == Mul(Div(w, d), x)
  {
    var kk, q := k * k, w / d;
    SquarePositive(k);
    assert q * d == w;
    CancelFactor(kk, w, d);
    var p := (k * w) / (kk * d);
    assert p * (kk * d) == k * w;
    assert (p * k) * (k * d) == q * (k * d);
    assert k * d != 0.0;
    SameQuotient(p * k, q, k * d);
    assert p * (k * x) == (p * k) * x;
  }

  lemma SameQuotient(a: real, b: real, c: real)
    requires c != 0.0 && a * c == b * c
    ensures a == b
  {
    assert (a - b) * c == 0.0;
  }

  lemma MeanScaled(k: real, v: seq<real>, w: seq<real>)
    requires |v| == |w| && k > 0.0 && Total(w) > 0.0
    ensures Total(Scaled(k, w)) > 0.0 && Mean(v, Scaled(k, w)) == Mean(v, w)
  {
    ScaledSum(k, w);
    ScaledProducts(k, w, v);
    MulPositive(k, Total(w));
    CancelFactor(k, SumWV(w, v), Total(w));
  }

  lemma SizeScaled(k: real, w: seq<real>)
    requires k > 0.0 && SumSq(w) > 0.0
    ensures SumSq(Scaled(k, w)) > 0.0 && EffectiveSize(Scaled(k, w)) == EffectiveSize(w)
  {
    ScaledSum(k, w);
    ScaledSquares(k, w);
    SquareScaled(k, Total(w));
    SquarePositive(k);
    MulPositive(Sq(k), SumSq(w));
    CancelFactor(Sq(k), Sq(Total(w)), SumSq(w));
  }

  lemma DenominatorScaled(k: real, w: seq<real>)
    requires k > 0.0
    ensures Denominator(Scaled(k, w)) == Mul(Sq(k), Denominator(w))
    ensures Denominator(Scaled(k, w)) > 0.0 <==> Denominator(w) > 0.0
  {
    ScaledSum(k, w);
    ScaledSquares(k, w);
    SquareScaled(k, Total(w));
    SquarePositive(k);
    DistributeMinus(Sq(k), Sq(Total(w)), SumSq(w));
    SameFactor(Sq(k), 0.0, Denominator(w));
  }

  lemma VarianceScaled(k: real, v: seq<real>, w: seq<real>)
    requires |v| == |w| && k > 0.0 && Total(w) > 0.0 && Denominator(w) > 0.0
    ensures Total(Scaled(k, w)) > 0.0 && Denominator(Scaled(k, w)) > 0.0
    ensures Variance(v, Scaled(k, w)) == Variance(v, w)
  {
    MeanScaled(k, v, w);
    DenominatorScaled(k, w);
    ScaledSum(k, w);
    ScaledDev(k, w, v, Mean(v, w));
    VarianceFactors(k, Total(w), Denominator(w), Dev(w, v, Mean(v, w)));
  }

  lemma GeneralScaled(k: real, v: seq<real>, w: seq<real>)
    requires |v| == |w| && k > 0.0 && Total(w) > 0.0 && SumSq(w) > 0.0
    ensures Total(Scaled(k, w)) > 0.0 && SumSq(Scaled(k, w)) > 0.0
    ensures GeneralStats(v, Scaled(k, w)) == GeneralStats(v, w)
  {
    MeanScaled(k, v, w);
    SizeScaled(k, w);
    DenominatorScaled(k, w);
    if Denominator(w) > 0.0 { VarianceScaled(k, v, w); }
  }

  lemma ScaledShape(k: real, w: seq<real>)
    requires k > 0.0
    ensures Uniform(Scaled(k, w)) <==> Uniform(w)
    ensures (exists i :: 0 <= i < |w| && Scaled(k, w)[i] < 0.0) <==> exists i :: 0 <= i < |w| && w[i] < 0.0
  {
    forall i, j | 0 <= i < |w| && 0 <= j < |w|
      ensures (Scaled(k, w)[i] == Scaled(k, w)[j] <==> w[i] == w[j]) && (Scaled(k, w)[i] < 0.0 <==> w[i] < 0.0)
    {
      SameFactor(k, w[i], w[j]);
      SameFactor(k, w[i], 0.0);
    }
  }

  /** Mean, variance, effective size and t are unchanged by scaling all weights. */
  lemma ScaleInvariant(k: real, v: seq<real>, w: seq<real>)
    requires |v| == |w| && k > 0.0
    ensures WeightedStats(v, Scaled(k, w)) == WeightedStats(v, w)
  {
    if v != [] {
      ScaledShape(k, w);
      ScaledSum(k, w);
      SameFactor(k, 0.0, Total(w));
      if Total(w) > 0.0 {
        PositiveSquares(w);
        GeneralScaled(k, v, w);
      }
    }
  }

  // ---------- equal weights: the general formulas against the short circuit ----------

  function Ones(n: nat): seq<real> { seq(n, i => 1.0) }

  lemma OnesInit(n: nat)
    requires n > 0
    ensures Ones(n)[..n - 1] == Ones(n - 1)
  {
  }

  lemma {:induction false} OnesSums(n: nat)
    ensures Total(Ones(n)) == n as real && SumSq(Ones(n)) == n as real
  {
    if n > 0 {
      OnesInit(n);
      OnesSums(n - 1);
      assert Sq(1.0) == 1.0;
    }
  }

  lemma {:induction false} OnesDev(v: seq<real>, m: real)
    ensures SumWV(Ones(|v|), v) == Total(v) && Dev(Ones(|v|), v, m) == PlainDev(v, m)
  {
    if v != [] {
      OnesInit(|v|);
      OnesDev(v[..|v| - 1], m);
      MulOne(v[|v| - 1]);
      MulOne(Sq(v[|v| - 1] - m));
    }
  }

  lemma MulOne(x: real)
    ensures Mul(1.0, x) == x
  {
  }

  lemma EqualIsScaled(w: seq<real>)
    requires Uniform(w) && w != []
    ensures w == Scaled(w[0], Ones(|w|))
  {
  }

  /** `(n / (n^2 - n)) * d` is `d / (n - 1)`, and `n^2 / n` is `n`. */
  lemma PlainFactors(n: real, d: real)
    requires n > 1.0
    ensures Sq(n) - n > 0.0 && Mul(Div(n, Sq(n) - n), d) == Div(d, n - 1.0) && Div(Sq(n), n) == n
  {
    var k := n - 1.0;
    assert n * n - n == n * k;
    MulPositive(n, k);
    CancelFactor(n, 1.0, k);
    assert (1.0 / k) * d == d / k;
  }

  lemma OnesStats(v: seq<real>)
    requires |v| > 1
    ensures Total(Ones(|v|)) == SumSq(Ones(|v|)) == |v| as real && Denominator(Ones(|v|)) > 0.0
    ensures Mean(v, Ones(|v|)) == PlainMean(v)
    ensures EffectiveSize(Ones(|v|)) == |v| as real
    ensures Variance(v, Ones(|v|)) == PlainVariance(v)
  {
    OnesSums(|v|);
    OnesDev(v, PlainMean(v));
    PlainFactors(|v| as real, PlainDev(v, PlainMean(v)));
  }

  /** At equal weights the general mean, effective size and variance are the plain mean, `n` and
      the `ddof=1` variance. */
  lemma EqualWeightsReduce(v: seq<real>, w: seq<real>)
    requires |v| == |w| > 1 && Uniform(w) && w[0] > 0.0
    ensures Total(w) > 0.0 && SumSq(w) > 0.0 && Denominator(w) > 0.0
    ensures Mean(v, w) == PlainMean(v)
    ensures EffectiveSize(w) == |v| as real
    ensures Variance(v, w) == PlainVariance(v)
  {
    EqualIsScaled(w);
    OnesStats(v);
    MeanScaled(w[0], v, Ones(|v|));
    SizeScaled(w[0], Ones(|v|));
    VarianceScaled(w[0], v, Ones(|v|));
  }

  /** Squared deviations vanish exactly when every value is the centre. */
  lemma {:induction false} PlainDevZero(v: seq<real>, m: real)
    ensures PlainDev(v, m) >= 0.0
    ensures PlainDev(v, m) == 0.0 <==> forall i :: 0 <= i < |v| ==> v[i] == m
  {
    if v != [] {
      var n := |v| - 1;
      PlainDevZero(v[..n], m);
      assert forall i :: 0 <= i < n ==> v[..n][i] == v[i];
      if v[n] != m { SquarePositive(v[n] - m); } else { assert Mul(0.0, 0.0) == 0.0; }
    }
  }

  lemma {:induction false} ConstantTotal(v: seq<real>, c: real)
    requires forall i :: 0 <= i < |v| ==> v[i] == c
    ensures Total(v) == Mul(|v| as real, c)
  {
    if v != [] {
      ConstantTotal(v[..|v| - 1], c);
      assert Mul(|v| as real, c) == Mul(|v| as real - 1.0, c) + c;
    }
  }

  /** The values are not all equal. */
  ghost predicate Spread(v: seq<real>) { exists i, j :: 0 <= i < j < |v| && v[i] != v[j] }

  lemma QuotientOfProduct(n: real, c: real)
    requires n != 0.0
    ensures Div(Mul(n, c), n) == c
  {
  }

  lemma QuotientSign(d: real, k: real)
    requires k > 0.0 && d >= 0.0
    ensures Div(d, k) >= 0.0 && (Div(d, k) > 0.0 <==> d != 0.0)
  {
    var q := d / k;
    assert q * k == d;
    SameFactor(k, 0.0, q);
  }

  /** The `ddof=1` variance is positive exactly for values that are not all equal. */
  lemma VarianceIsSpread(v: seq<real>)
    requires |v| > 1
    ensures PlainVariance(v) > 0.0 <==> Spread(v)
  {
    var m := PlainMean(v);
    PlainDevZero(v, m);
    QuotientSign(PlainDev(v, m), |v| as real - 1.0);
    if !Spread(v) {
      forall i | 0 <= i < |v| ensures v[i] == v[0] { if i > 0 && v[i] != v[0] { assert Spread(v); } }
      ConstantTotal(v, v[0]);
      QuotientOfProduct(|v| as real, v[0]);
    }
  }

  /** The short circuit gives the general path's answer exactly when the values are not all
      equal: otherwise the general path reports no variance, the short circuit a zero one. */
  lemma ShortCircuitAgrees(v: seq<real>, w: seq<real>)
    requires |v| == |w| > 1 && Uniform(w) && w[0] > 0.0
    ensures Total(w) > 0.0 && SumSq(w) > 0.0
    ensures GeneralStats(v, w) == UniformStats(v) <==> Spread(v)
  {
    EqualWeightsReduce(v, w);
    VarianceIsSpread(v);
  }

  /** Where it does not, the two paths differ in the variance, and the short circuit is taken. */
  lemma ConstantValues(v: seq<real>, w: seq<real>)
    requires |v| == |w| > 1 && Uniform(w) && w[0] > 0.0 && !Spread(v)
    ensures Total(w) > 0.0 && SumSq(w) > 0.0
    ensures WeightedStats(v, w) == UniformStats(v)
    ensures UniformStats(v).variance == Val(0.0) && GeneralStats(v, w).variance == NaN
  {
    EqualWeightsReduce(v, w);
    VarianceIsSpread(v);
    PlainDevZero(v, PlainMean(v));
    QuotientSign(PlainDev(v, PlainMean(v)), |v| as real - 1.0);
  }

  /** The smallest such input. */
  lemma TwoEqualValues(v: seq<real>)
    requires v == [1.0, 1.0]
    ensures Total(v) > 0.0 && SumSq(v) > 0.0
    ensures GeneralStats(v, v) != WeightedStats(v, v)
  {
    ConstantValues(v, v);
  }

  // ---------- day_clustered_tstat ----------

  const SECS_PER_DAY := 86400

  /** UTC entry days; Python's floor division by a positive number. */
  function Days(ts: seq<int>): seq<int> { seq(|ts|, i requires 0 <= i < |ts| => ts[i] / SECS_PER_DAY) }

  /** `bincount`: one day's weighted residuals about `m`. */
  function Residual(v: seq<real>, w: seq<real>, m: real, days: seq<int>, day: int): real
    requires |v| == |w| == |days|
  {
    if v == [] then 0.0
    else
      var n := |v| - 1;
      Residual(v[..n], w[..n], m, days[..n], day) + (if days[n] == day then Mul(w[n], v[n] - m) else 0.0)
  }

  /** The squared residuals of the clusters. */
  function ClusterSquares(v: seq<real>, w: seq<real>, m: real, days: seq<int>, clusters: seq<int>): real
    requires |v| == |w| == |days|
  {
    if clusters == [] then 0.0
    else Sq(Residual(v, w, m, days, clusters[0])) + ClusterSquares(v, w, m, days, clusters[1..])
  }

  /** The squared clustered standard error for `g` clusters. */
  function ClusteredError(squares: real, g: nat, weight: real): real
    requires g > 1 && weight > 0.0
  {
    SquarePositive(weight);
    Div(Mul(Div(g as real, g as real - 1.0), squares), Sq(weight))
  }

  lemma MeanNeedsWeight(v: seq<real>, w: seq<real>)
    requires |v| == |w| && WeightedStats(v, w).mean.Val?
    ensures Total(w) > 0.0
  {
  }

  function DayClustered(v: seq<real>, w: seq<real>, ts: seq<int>): (Num, nat)
    requires |v| == |w| == |ts|
  {
    var clusters := Uniqueness.Unique(Days(ts));
    match WeightedStats(v, w).mean
    case NaN => (NaN, |clusters|)
    case Val(m) =>
      if |clusters| < 2 then (NaN, |clusters|)
      else
        MeanNeedsWeight(v, w);
        var se := ClusteredError(ClusterSquares(v, w, m, Days(ts), clusters), |clusters|, Total(w));
        (if se > SD_FLOOR_SQ then Val(Div(SignedSq(m), se)) else NaN, |clusters|)
  }

  // ---------- one position per day ----------

  /** The squared residuals of the listed rows' days. */
  function RowSquares(v: seq<real>, w: seq<real>, m: real, days: seq<int>, n: nat): real
    requires |v| == |w| == |days| && n <= |days|
  {
    if n == 0 then 0.0 else RowSquares(v, w, m, days, n - 1) + Sq(Residual(v, w, m, days, days[n - 1]))
  }

  lemma {:induction false} InsertAddsOne(v: seq<real>, w: seq<real>, m: real, days: seq<int>, s: seq<int>, x: int)
    requires |v| == |w| == |days| && Uniqueness.Increasing(s) && x !in s
    ensures |Uniqueness.InsertOnce(s, x)| == |s| + 1
    ensures ClusterSquares(v, w, m, days, Uniqueness.InsertOnce(s, x))
         == ClusterSquares(v, w, m, days, s) + Sq(Residual(v, w, m, days, x))
  {
    var r := Uniqueness.InsertOnce(s, x);
    if s == [] || x < s[0] {
      assert r[0] == x && r[1..] == s;
    } else {
      InsertAddsOne(v, w, m, days, s[1..], x);
      assert r[0] == s[0] && r[1..] == Uniqueness.InsertOnce(s[1..], x);
    }
  }

  lemma {:induction false} ClustersAreRows(v: seq<real>, w: seq<real>, m: real, days: seq<int>, n: nat)
    requires |v| == |w| == |days| && n <= |days| && Distinct(days)
    ensures |Uniqueness.Unique(days[..n])| == n
    ensures ClusterSquares(v, w, m, days, Uniqueness.Unique(days[..n])) == RowSquares(v, w, m, days, n)
  {
    if n > 0 {
      ClustersAreRows(v, w, m, days, n - 1);
      assert days[..n][..n - 1] == days[..n - 1];
      InsertAddsOne(v, w, m, days, Uniqueness.Unique(days[..n - 1]), days[n - 1]);
    }
  }

  lemma {:induction false} NoResidual(v: seq<real>, w: seq<real>, m: real, days: seq<int>, day: int)
    requires |v| == |w| == |days| && day !in days
    ensures Residual(v, w, m, days, day) == 0.0
  {
    if v != [] {
      var n := |v| - 1;
      NoResidual(v[..n], w[..n], m, days[..n], day);
      assert days[n] in days;
    }
  }

  lemma {:induction false} LoneResidual(v: seq<real>, w: seq<real>, m: real, days: seq<int>, i: nat)
    requires |v| == |w| == |days| && Distinct(days) && i < |days|
    ensures Residual(v, w, m, days, days[i]) == Mul(w[i], v[i] - m)
  {
    var n := |v| - 1;
    if i == n {
      NoResidual(v[..n], w[..n], m, days[..n], days[n]);
    } else {
      LoneResidual(v[..n], w[..n], m, days[..n], i);
    }
  }

  lemma {:induction false} RowSquaresAreDev(v: seq<real>, w: seq<real>, m: real, days: seq<int>, n: nat)
    requires |v| == |w| == |days| && Distinct(days) && n <= |days| && Uniform(w) && w != []
    ensures RowSquares(v, w, m, days, n) == Mul(Sq(w[0]), PlainDev(v[..n], m))
  {
    if n == 0 {
      assert Mul(Sq(w[0]), 0.0) == 0.0;
    } else {
      var d := v[n - 1] - m;
      RowSquaresAreDev(v, w, m, days, n - 1);
      LoneResidual(v, w, m, days, n - 1);
      SquareScaled(w[0], d);
      assert v[..n][..n - 1] == v[..n - 1];
      Distribute(Sq(w[0]), PlainDev(v[..n - 1], m), Sq(d));
    }
  }

  /** `(n / (n-1)) * (k * d) / (k * n^2)` is `(d / (n-1)) / n`. */
  lemma ErrorFactors(n: real, k: real, d: real)
    requires n > 1.0 && k > 0.0
    ensures Mul(k, Sq(n)) != 0.0
    ensures Div(Mul(Div(n, n - 1.0), Mul(k, d)), Mul(k, Sq(n))) == Div(Div(d, n - 1.0), n)
  {
    var q, p := n / (n - 1.0), d / (n - 1.0);
    assert q * (n - 1.0) == n && p * (n - 1.0) == d;
    assert q * d == n * p by {
      assert q * d == q * (p * (n - 1.0));
      assert q * (p * (n - 1.0)) == (q * (n - 1.0)) * p;
    }
    assert q * (k * d) == k * (n * p);
    SquarePositive(n);
    CancelFactor(k, n * p, n * n);
    CancelFactor(n, p, n);
  }

  /** One position per day at equal weights: the clustered squared error is the `ddof=1`
      variance over `n`. */
  lemma OnePerDayError(v: seq<real>, w: seq<real>, ts: seq<int>)
    requires |v| == |w| == |ts| > 1 && Uniform(w) && w[0] > 0.0 && Distinct(Days(ts))
    ensures |Uniqueness.Unique(Days(ts))| == |v| && Total(w) > 0.0
    ensures ClusteredError(ClusterSquares(v, w, PlainMean(v), Days(ts), Uniqueness.Unique(Days(ts))), |v|, Total(w))
         == Div(PlainVariance(v), |v| as real)
  {
    var n, m, days := |v| as real, PlainMean(v), Days(ts);
    assert days[..|v|] == days && v[..|v|] == v;
    ClustersAreRows(v, w, m, days, |v|);
    RowSquaresAreDev(v, w, m, days, |v|);
    EqualIsScaled(w);
    ScaledSum(w[0], Ones(|v|));
    OnesSums(|v|);
    SquareScaled(w[0], n);
    MulPositive(w[0], n);
    SquarePositive(w[0]);
    ErrorFactors(n, Sq(w[0]), PlainDev(v, m));
  }

  lemma QuotientOfQuotient(a: real, b: real, n: real)
    requires b > 0.0 && n > 0.0
    ensures Div(b, n) > 0.0 && Div(a, Div(b, n)) == Div(Mul(a, n), b)
  {
    var q := b / n;
    assert q * n == b;
    SameFactor(n, 0.0, q);
    CancelFactor(n, a, q);
  }

  lemma ShrunkBelow(b: real, n: real, floor: real)
    requires n > 1.0 && floor > 0.0 && Div(b, n) > floor
    ensures b > floor
  {
    var q := b / n;
    assert q * n == b;
    SameFactor(q, 1.0, n);
  }

  /** One position per day at equal weights reproduces the ordinary t whenever both floors pass,
      and both are undefined when neither does; they part company exactly when the standard
      deviation is above the floor but the standard error is not. */
  lemma OnePerDay(v: seq<real>, w: seq<real>, ts: seq<int>)
    requires |v| == |w| == |ts| > 1 && Uniform(w) && w[0] > 0.0 && Distinct(Days(ts))
    ensures DayClustered(v, w, ts).1 == |v|
    ensures DayClustered(v, w, ts).0 == WeightedStats(v, w).tsq
       <==> (PlainVariance(v) > SD_FLOOR_SQ ==> Div(PlainVariance(v), |v| as real) > SD_FLOOR_SQ)
  {
    OnePerDayError(v, w, ts);
    var b, n := PlainVariance(v), |v| as real;
    if Div(b, n) > SD_FLOOR_SQ { ShrunkBelow(b, n, SD_FLOOR_SQ); }
    if b > SD_FLOOR_SQ { QuotientOfQuotient(SignedSq(PlainMean(v)), b, n); }
  }
}
