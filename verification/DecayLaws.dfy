/** What the weighted statistics are, without a mean to deviate from: the variance as an average
    over pairs, the effective size as a shortfall over pairs, the clustered error as a sum over
    pairs of the same day. */
module DecayLaws {
  import opened Basics
  import opened Sums
  import opened DecayStats
  import Uniqueness

  // ---------- sums over pairs ----------

  /** `x` against every earlier value: the sum of `w[i] * (v[i] - x)^2`. */
  ghost function Against(w: seq<real>, v: seq<real>, x: real): real
    requires |w| == |v|
  {
    if w == [] then 0.0
    else Against(w[..|w| - 1], v[..|v| - 1], x) + Mul(w[|w| - 1], Sq(v[|v| - 1] - x))
  }

  /** The sum over pairs `i < j` of `w[i] * w[j] * (v[i] - v[j])^2`. */
  ghost function PairSpread(w: seq<real>, v: seq<real>): real
    requires |w| == |v|
  {
    if w == [] then 0.0
    else
      var n := |w| - 1;
      PairSpread(w[..n], v[..n]) + Mul(w[n], Against(w[..n], v[..n], v[n]))
  }

  /** The sum over pairs `i < j` of `w[i] * w[j]`. */
  ghost function PairWeight(w: seq<real>): real {
    if w == [] then 0.0
    else
      var n := |w| - 1;
      PairWeight(w[..n]) + Mul(w[n], Total(w[..n]))
  }

  /** The weighted sum of squares. */
  ghost function SumWSq(w: seq<real>, v: seq<real>): real
    requires |w| == |v|
  {
    if w == [] then 0.0 else SumWSq(w[..|w| - 1], v[..|v| - 1]) + Mul(w[|w| - 1], Sq(v[|v| - 1]))
  }

  lemma ExpandSquare(a: real, y: real, x: real)
    ensures a * ((y - x) * (y - x)) == a * (y * y) - 2.0 * x * (a * y) + (x * x) * a
  {
    assert (y - x) * (y - x) == y * y - 2.0 * (x * y) + x * x;
    assert a * (y * y - 2.0 * (x * y) + x * x) == a * (y * y) - 2.0 * (a * (x * y)) + a * (x * x);
    assert a * (x * y) == x * (a * y);
  }

  /** `z` is the quadratic in `x` with the coefficients `q`, `s` and `t`. */
  ghost predicate Quadratic(z: real, q: real, s: real, t: real, x: real) { z == q - 2.0 * x * s + (x * x) * t }

  lemma ExpandRaw(z: real, q: real, s: real, t: real, a: real, y: real, x: real)
    requires z == q - 2.0 * x * s + (x * x) * t
    ensures z + a * ((y - x) * (y - x)) == (q + a * (y * y)) - 2.0 * x * (s + a * y) + (x * x) * (t + a)
  {
    ExpandSquare(a, y, x);
    assert 2.0 * x * (s + a * y) == 2.0 * x * s + 2.0 * x * (a * y);
    assert (x * x) * (t + a) == (x * x) * t + (x * x) * a;
  }

  lemma ExpandWith(z: real, q: real, s: real, t: real, a: real, y: real, x: real, p: real, r: real, u: real)
    requires Quadratic(z, q, s, t, x) && p == a * ((y - x) * (y - x)) && r == a * (y * y) && u == a * y
    ensures Quadratic(z + p, q + r, s + u, t + a, x)
  {
    ExpandRaw(z, q, s, t, a, y, x);
  }

  lemma ExpandStep(z: real, q: real, s: real, t: real, a: real, y: real, x: real)
    requires Quadratic(z, q, s, t, x)
    ensures Quadratic(z + Mul(a, Sq(y - x)), q + Mul(a, Sq(y)), s + Mul(a, y), t + a, x)
  {
    ExpandWith(z, q, s, t, a, y, x, Mul(a, Sq(y - x)), Mul(a, Sq(y)), Mul(a, y));
  }

  lemma {:induction false} AgainstExpands(w: seq<real>, v: seq<real>, x: real)
    requires |w| == |v|
    ensures Quadratic(Against(w, v, x), SumWSq(w, v), SumWV(w, v), Total(w), x)
  {
    if w != [] {
      var n := |w| - 1;
      AgainstExpands(w[..n], v[..n], x);
      assert |v[..n]| == n;
      ExpandStep(Against(w[..n], v[..n], x), SumWSq(w[..n], v[..n]), SumWV(w[..n], v[..n]), Total(w[..n]), w[n], v[n], x);
    }
  }

  lemma SpreadStep(t: real, s: real, q: real, a: real, x: real)
    ensures (t + a) * (q + a * (x * x)) - (s + a * x) * (s + a * x) == t * q - s * s + a * (q - 2.0 * x * s + (x * x) * t)
  {
    var y := x * x;
    assert (t + a) * (q + a * y) == t * q + t * (a * y) + a * q + a * (a * y);
    assert (s + a * x) * (s + a * x) == s * s + 2.0 * (s * (a * x)) + (a * x) * (a * x);
    assert (a * x) * (a * x) == a * (a * y);
    assert a * (q - 2.0 * x * s + y * t) == a * q - a * (2.0 * x * s) + a * (y * t);
    assert a * (2.0 * x * s) == 2.0 * (s * (a * x)) && a * (y * t) == t * (a * y);
  }

  ghost predicate SpreadIs(p: real, t: real, q: real, s: real) { p == t * q - s * s }

  lemma SpreadNext(p: real, t: real, q: real, s: real, z: real, a: real, x: real)
    requires SpreadIs(p, t, q, s) && Quadratic(z, q, s, t, x)
    ensures SpreadIs(p + Mul(a, z), t + a, q + Mul(a, Sq(x)), s + Mul(a, x))
  {
    SpreadStep(t, s, q, a, x);
  }

  /** The spread of the pairs, from the plain sums. */
  lemma {:induction false} SpreadFromSums(w: seq<real>, v: seq<real>)
    requires |w| == |v|
    ensures SpreadIs(PairSpread(w, v), Total(w), SumWSq(w, v), SumWV(w, v))
  {
    if w != [] {
      var n := |w| - 1;
      SpreadFromSums(w[..n], v[..n]);
      AgainstExpands(w[..n], v[..n], v[n]);
      SpreadNext(PairSpread(w[..n], v[..n]), Total(w[..n]), SumWSq(w[..n], v[..n]), SumWV(w[..n], v[..n]),
                 Against(w[..n], v[..n], v[n]), w[n], v[n]);
    }
  }

  lemma {:induction false} DevIsAgainst(w: seq<real>, v: seq<real>, m: real)
    requires |w| == |v|
    ensures Dev(w, v, m) == Against(w, v, m)
  {
    if w != [] { DevIsAgainst(w[..|w| - 1], v[..|v| - 1], m); }
  }

  lemma {:induction false} DenominatorIsPairs(w: seq<real>)
    ensures Denominator(w) == 2.0 * PairWeight(w)
  {
    if w != [] {
      var n := |w| - 1;
      DenominatorIsPairs(w[..n]);
      var t, a := Total(w[..n]), w[n];
      assert (t + a) * (t + a) == t * t + 2.0 * (a * t) + a * a;
    }
  }

  lemma ScaledDeviation(t: real, s: real, q: real, m: real)
    requires m * t == s
    ensures t * (q - 2.0 * m * s + (m * m) * t) == t * q - s * s
  {
    assert (m * m) * t == m * (m * t) == m * s;
    assert t * (q - m * s) == t * q - (m * t) * s;
  }

  /** Total weight times the weighted squared deviation is the spread of the pairs. */
  lemma ScaledQuadratic(z: real, q: real, s: real, t: real, m: real)
    requires Quadratic(z, q, s, t, m) && Mul(m, t) == s
    ensures SpreadIs(Mul(t, z), t, q, s)
  {
    ScaledDeviation(t, s, q, m);
  }

  lemma SpreadOf(w: seq<real>, v: seq<real>, m: real)
    requires |v| == |w| && Mul(m, Total(w)) == SumWV(w, v)
    ensures Mul(Total(w), Dev(w, v, m)) == PairSpread(w, v)
  {
    DevIsAgainst(w, v, m);
    AgainstExpands(w, v, m);
    SpreadFromSums(w, v);
    ScaledQuadratic(Against(w, v, m), SumWSq(w, v), SumWV(w, v), Total(w), m);
  }

  lemma DivTimes(x: real, y: real)
    requires y != 0.0
    ensures Mul(Div(x, y), y) == x
  {
  }

  /** The mean balances the weighted values. */
  lemma MeanBalances(v: seq<real>, w: seq<real>)
    requires |v| == |w| && Total(w) != 0.0
    ensures Mul(Mean(v, w), Total(w)) == SumWV(w, v)
  {
    DivTimes(SumWV(w, v), Total(w));
  }

  /** Total weight times the weighted squared deviation is the spread of the pairs. */
  lemma DeviationIsSpread(v: seq<real>, w: seq<real>)
    requires |v| == |w| && Total(w) != 0.0
    ensures Mul(Total(w), Dev(w, v, Mean(v, w))) == PairSpread(w, v)
  {
    MeanBalances(v, w);
    SpreadOf(w, v, Mean(v, w));
  }

  lemma QuotientProduct(t: real, d: real, y: real)
    requires d != 0.0
    ensures Mul(Mul(Div(t, d), y), d) == Mul(t, y)
  {
    assert (t / d) * d == t;
  }

  /** The variance is the average, over all pairs and weighted by the products of the weights, of
      half the squared difference. */
  lemma VarianceIsPairwise(v: seq<real>, w: seq<real>)
    requires |v| == |w| && Total(w) != 0.0 && Denominator(w) != 0.0
    ensures Mul(Variance(v, w), 2.0 * PairWeight(w)) == PairSpread(w, v)
  {
    DenominatorIsPairs(w);
    DeviationIsSpread(v, w);
    QuotientProduct(Total(w), Denominator(w), Dev(w, v, Mean(v, w)));
  }

  // ---------- the effective size ----------

  lemma {:induction false} OnesSumsOf(w: seq<real>)
    ensures SumWSq(Ones(|w|), w) == SumSq(w) && SumWV(Ones(|w|), w) == Total(w)
  {
    if w != [] {
      OnesInit(|w|);
      OnesSumsOf(w[..|w| - 1]);
      MulOne(w[|w| - 1]);
      MulOne(Sq(w[|w| - 1]));
    }
  }

  /** `size` falls short of `n` by `p` over `q`. */
  ghost predicate ShortBy(n: real, size: real, q: real, p: real) { (n - size) * q == p }

  lemma Shortfall(n: real, q: real, t: real, p: real)
    requires q > 0.0 && SpreadIs(p, n, q, t)
    ensures ShortBy(n, Div(Sq(t), q), q, p)
  {
    var size := t * t / q;
    assert size * q == t * t;
    assert (n - size) * q == n * q - size * q;
  }

  /** The effective size falls short of the number of values by the sum of `(w[i] - w[j])^2` over
      the pairs, over the sum of squares: it is that number exactly for equal weights. */
  lemma EffectiveShortfall(w: seq<real>)
    requires SumSq(w) > 0.0
    ensures ShortBy(|w| as real, EffectiveSize(w), SumSq(w), PairSpread(Ones(|w|), w))
  {
    SpreadFromSums(Ones(|w|), w);
    OnesSums(|w|);
    OnesSumsOf(w);
    Shortfall(|w| as real, SumSq(w), Total(w), PairSpread(Ones(|w|), w));
  }

  // ---------- when the statistics are defined ----------

  /** Two values that differ and both carry weight. */
  ghost predicate Differ(w: seq<real>, v: seq<real>, i: int, j: int)
    requires |w| == |v|
  {
    0 <= i < j < |w| && w[i] > 0.0 && w[j] > 0.0 && v[i] != v[j]
  }

  lemma ProductSign(x: real, y: real)
    requires x >= 0.0 && y >= 0.0
    ensures Mul(x, y) >= 0.0 && (Mul(x, y) > 0.0 <==> x > 0.0 && y > 0.0)
  {
  }

  lemma {:induction false} AgainstSign(w: seq<real>, v: seq<real>, x: real)
    requires |w| == |v| && NonNegative(w)
    ensures Against(w, v, x) >= 0.0
    ensures Against(w, v, x) > 0.0 <==> exists i :: 0 <= i < |w| && w[i] > 0.0 && v[i] != x
  {
    if w != [] {
      var n := |w| - 1;
      AgainstSign(w[..n], v[..n], x);
      if v[n] != x { SquarePositive(v[n] - x); } else { assert Mul(0.0, 0.0) == 0.0; }
      ProductSign(w[n], Sq(v[n] - x));
      assert forall i :: 0 <= i < n ==> w[..n][i] == w[i] && v[..n][i] == v[i];
    }
  }

  lemma {:induction false} SpreadSign(w: seq<real>, v: seq<real>)
    requires |w| == |v| && NonNegative(w)
    ensures PairSpread(w, v) >= 0.0
    ensures PairSpread(w, v) > 0.0 <==> exists i, j :: Differ(w, v, i, j)
  {
    if w != [] {
      var n := |w| - 1;
      SpreadSign(w[..n], v[..n]);
      AgainstSign(w[..n], v[..n], v[n]);
      ProductSign(w[n], Against(w[..n], v[..n], v[n]));
      assert forall i :: 0 <= i < n ==> w[..n][i] == w[i] && v[..n][i] == v[i];
      if exists i, j :: Differ(w[..n], v[..n], i, j) {
        var i, j :| Differ(w[..n], v[..n], i, j);
        assert Differ(w, v, i, j);
      }
      if i :| 0 <= i < n && w[i] > 0.0 && w[n] > 0.0 && v[i] != v[n] { assert Differ(w, v, i, n); }
      if i, j :| Differ(w, v, i, j) {
        if j < n { assert Differ(w[..n], v[..n], i, j); }
      }
    }
  }

  lemma {:induction false} TotalSign(w: seq<real>)
    requires NonNegative(w)
    ensures Total(w) >= 0.0 && (Total(w) > 0.0 <==> exists i :: 0 <= i < |w| && w[i] > 0.0)
  {
    if w != [] {
      var n := |w| - 1;
      TotalSign(w[..n]);
      assert forall i :: 0 <= i < n ==> w[..n][i] == w[i];
    }
  }

  lemma {:induction false} PairWeightSign(w: seq<real>, i: nat, j: nat)
    requires NonNegative(w)
    ensures PairWeight(w) >= 0.0
    ensures i < j < |w| && w[i] > 0.0 && w[j] > 0.0 ==> PairWeight(w) > 0.0
  {
    if w != [] {
      var n := |w| - 1;
      PairWeightSign(w[..n], i, j);
      TotalSign(w[..n]);
      ProductSign(w[n], Total(w[..n]));
      if i < j == n && w[i] > 0.0 { assert w[..n][i] == w[i]; }
    }
  }

  lemma AboveOne(x: real, y: real)
    requires y > 0.0
    ensures x - y > 0.0 <==> Div(x, y) > 1.0
  {
    assert (x / y) * y == x;
  }

  lemma QuotientPositive(x: real, d: real, p: real)
    requires d > 0.0 && Mul(x, d) == p
    ensures x > 0.0 <==> p > 0.0
  {
  }

  /** On the general path the variance is defined exactly when two values that differ both carry
      weight. */
  lemma GeneralDefined(v: seq<real>, w: seq<real>)
    requires |v| == |w| && NonNegative(w) && Total(w) > 0.0 && SumSq(w) > 0.0
    ensures GeneralStats(v, w).variance.Val? <==> exists i, j :: Differ(w, v, i, j)
  {
    AboveOne(Sq(Total(w)), SumSq(w));
    DenominatorIsPairs(w);
    SpreadSign(w, v);
    if i, j :| Differ(w, v, i, j) { PairWeightSign(w, i, j); }
    if Denominator(w) > 0.0 {
      VarianceIsPairwise(v, w);
      QuotientPositive(Variance(v, w), 2.0 * PairWeight(w), PairSpread(w, v));
    }
  }

  ghost predicate Weighs(w: seq<real>) { NonNegative(w) && exists i :: 0 <= i < |w| && w[i] > 0.0 }

  /** `t` is a signed square: that of `m * m * n / x`, with the sign of `m`. */
  ghost predicate SignedRatio(t: real, x: real, m: real, n: real) {
    Mul(if t >= 0.0 then t else -t, x) == Mul(Mul(m, m), n) && (t > 0.0 ==> m > 0.0) && (t < 0.0 ==> m < 0.0)
  }

  lemma SignedRatioOf(m: real, n: real, x: real)
    requires n > 0.0 && x > 0.0
    ensures SignedRatio(Div(Mul(SignedSq(m), n), x), x, m, n)
  {
    var a := (m * m) * n / x;
    assert a * x == (m * m) * n;
    if m != 0.0 {
      SquarePositive(m);
      MulPositive(m * m, n);
    }
    if m >= 0.0 {
      assert SignedSq(m) * n == (m * m) * n;
    } else {
      assert SignedSq(m) * n == -((m * m) * n);
      assert -((m * m) * n) / x == -a;
    }
  }

  /** What the reported numbers are, where they are defined. */
  ghost predicate Reported(v: seq<real>, w: seq<real>, s: Stats)
    requires |v| == |w|
  {
    && s.mean.Val? && Mul(s.mean.x, Total(w)) == SumWV(w, v)
    && Mul(s.nEff, SumSq(w)) == Sq(Total(w))
    && (s.variance.Val? ==> Mul(s.variance.x, 2.0 * PairWeight(w)) == PairSpread(w, v))
    && (s.tsq.Val? ==> s.variance.Val? && SignedRatio(s.tsq.x, s.variance.x, s.mean.x, s.nEff))
    && (s.tsq.Val? <==> s.variance.Val? && s.variance.x > SD_FLOOR_SQ)
  }

  lemma GeneralReported(v: seq<real>, w: seq<real>)
    requires |v| == |w| && Total(w) > 0.0 && SumSq(w) > 0.0
    ensures Reported(v, w, GeneralStats(v, w))
  {
    MeanBalances(v, w);
    DivTimes(Sq(Total(w)), SumSq(w));
    if Denominator(w) > 0.0 {
      VarianceIsPairwise(v, w);
      var x := Variance(v, w);
      if x > SD_FLOOR_SQ && EffectiveSize(w) > 1.0 { SignedRatioOf(Mean(v, w), EffectiveSize(w), x); }
    }
  }

  lemma UniformReported(v: seq<real>, w: seq<real>)
    requires |v| == |w| > 0 && Uniform(w) && w[0] > 0.0 && Total(w) > 0.0
    ensures Reported(v, w, UniformStats(v))
  {
    PositiveSquares(w);
    if |v| > 1 {
      EqualWeightsReduce(v, w);
      MeanBalances(v, w);
      DivTimes(Sq(Total(w)), SumSq(w));
      VarianceIsPairwise(v, w);
      var x := PlainVariance(v);
      if x > SD_FLOOR_SQ { SignedRatioOf(PlainMean(v), |v| as real, x); }
    } else {
      OneValue(v[0], w[0]);
      assert v == [v[0]] && w == [w[0]];
    }
  }

  lemma OneValue(x: real, a: real)
    requires a > 0.0
    ensures Total([x]) == x && Total([a]) == a && SumSq([a]) == Sq(a) && SumWV([a], [x]) == Mul(a, x)
    ensures Mul(PlainMean([x]), a) == Mul(a, x) && Mul(1.0, Sq(a)) == Sq(a)
  {
    assert [x][..0] == [] && [a][..0] == [];
    MulOne(Sq(a));
  }

  /** The reported statistics of every sample: a mean that balances the weighted values, an
      effective size, a variance averaged over pairs, and a t from the three; each defined exactly
      under its condition. */
  lemma StatsMeaning(v: seq<real>, w: seq<real>)
    requires |v| == |w|
    ensures var s := WeightedStats(v, w);
      && (s.mean.Val? <==> Weighs(w))
      && (Weighs(w) ==> Reported(v, w, s))
      && (s.variance.Val? <==> Weighs(w) && if Uniform(w) then |v| > 1 else exists i, j :: Differ(w, v, i, j))
  {
    if NonNegative(w) {
      TotalSign(w);
      if Weighs(w) {
        PositiveSquares(w);
        if Uniform(w) {
          UniformReported(v, w);
        } else {
          GeneralReported(v, w);
          GeneralDefined(v, w);
        }
      }
    }
  }

  // ---------- the clustered error ----------

  /** The weighted residuals of the rows. */
  ghost function Residuals(v: seq<real>, w: seq<real>, m: real): seq<real>
    requires |v| == |w|
  {
    seq(|v|, i requires 0 <= i < |v| => Mul(w[i], v[i] - m))
  }

  /** `x` times every residual of the day. */
  ghost function WithDay(rs: seq<real>, days: seq<int>, x: real, day: int): real
    requires |rs| == |days|
  {
    if rs == [] then 0.0
    else
      var n := |rs| - 1;
      WithDay(rs[..n], days[..n], x, day) + if days[n] == day then Mul(x, rs[n]) else 0.0
  }

  /** Every one of the first `n` residuals times every residual of its day. */
  ghost function SameDay(rs: seq<real>, days: seq<int>, n: nat): real
    requires |rs| == |days| && n <= |rs|
  {
    if n == 0 then 0.0 else SameDay(rs, days, n - 1) + WithDay(rs, days, rs[n - 1], days[n - 1])
  }

  ghost function DaySum(rs: seq<real>, days: seq<int>, day: int): real
    requires |rs| == |days|
  {
    if rs == [] then 0.0
    else
      var n := |rs| - 1;
      DaySum(rs[..n], days[..n], day) + if days[n] == day then rs[n] else 0.0
  }

  lemma {:induction false} ResidualIsDaySum(v: seq<real>, w: seq<real>, m: real, days: seq<int>, day: int)
    requires |v| == |w| == |days|
    ensures Residual(v, w, m, days, day) == DaySum(Residuals(v, w, m), days, day)
  {
    if v != [] {
      var n := |v| - 1;
      ResidualIsDaySum(v[..n], w[..n], m, days[..n], day);
      assert Residuals(v, w, m)[..n] == Residuals(v[..n], w[..n], m);
    }
  }

  lemma {:induction false} WithDayIsProduct(rs: seq<real>, days: seq<int>, x: real, day: int)
    requires |rs| == |days|
    ensures WithDay(rs, days, x, day) == Mul(x, DaySum(rs, days, day))
  {
    if rs != [] {
      var n := |rs| - 1;
      WithDayIsProduct(rs[..n], days[..n], x, day);
      Distribute(x, DaySum(rs[..n], days[..n], day), if days[n] == day then rs[n] else 0.0);
      MulZero(x);
    } else {
      MulZero(x);
    }
  }

  lemma MulZero(x: real)
    ensures Mul(x, 0.0) == 0.0 && Mul(0.0, x) == 0.0
  {
  }

  lemma AddMul(x: real, y: real, d: real)
    ensures Mul(x + y, d) == Mul(x, d) + Mul(y, d)
  {
  }

  /** The part of the same-day products whose day is listed. */
  ghost function Listed(rs: seq<real>, days: seq<int>, n: nat, cs: seq<int>): real
    requires |rs| == |days| && n <= |rs|
  {
    if n == 0 then 0.0
    else Listed(rs, days, n - 1, cs) + if days[n - 1] in cs then WithDay(rs, days, rs[n - 1], days[n - 1]) else 0.0
  }

  lemma {:induction false} ListedSplits(rs: seq<real>, days: seq<int>, n: nat, c: int, cs: seq<int>)
    requires |rs| == |days| && n <= |rs| && c !in cs
    ensures Listed(rs, days, n, [c] + cs) == Listed(rs, days, n, cs) + Mul(DaySum(rs[..n], days[..n], c), DaySum(rs, days, c))
  {
    var d := DaySum(rs, days, c);
    if n == 0 {
      MulZero(d);
    } else {
      ListedSplits(rs, days, n - 1, c, cs);
      assert rs[..n][..n - 1] == rs[..n - 1] && days[..n][..n - 1] == days[..n - 1];
      WithDayIsProduct(rs, days, rs[n - 1], c);
      AddMul(DaySum(rs[..n - 1], days[..n - 1], c), rs[n - 1], d);
    }
  }

  lemma {:induction false} NoneListed(rs: seq<real>, days: seq<int>, n: nat)
    requires |rs| == |days| && n <= |rs|
    ensures Listed(rs, days, n, []) == 0.0
  {
    if n > 0 { NoneListed(rs, days, n - 1); }
  }

  lemma {:induction false} AllListed(rs: seq<real>, days: seq<int>, n: nat, cs: seq<int>)
    requires |rs| == |days| && n <= |rs| && forall d :: d in days ==> d in cs
    ensures Listed(rs, days, n, cs) == SameDay(rs, days, n)
  {
    if n > 0 {
      AllListed(rs, days, n - 1, cs);
      assert days[n - 1] in days;
    }
  }

  lemma {:induction false} SquaresAreListed(v: seq<real>, w: seq<real>, m: real, days: seq<int>, cs: seq<int>)
    requires |v| == |w| == |days| && Distinct(cs)
    ensures ClusterSquares(v, w, m, days, cs) == Listed(Residuals(v, w, m), days, |v|, cs)
  {
    var rs := Residuals(v, w, m);
    if cs == [] {
      NoneListed(rs, days, |v|);
    } else {
      SquaresAreListed(v, w, m, days, cs[1..]);
      assert cs == [cs[0]] + cs[1..] && cs[0] !in cs[1..];
      ListedSplits(rs, days, |v|, cs[0], cs[1..]);
      assert rs[..|v|] == rs && days[..|v|] == days;
      ResidualIsDaySum(v, w, m, days, cs[0]);
    }
  }

  /** The squared residuals of the days are the products of the residuals over all pairs of rows
      of the same day, each row paired with itself included. */
  lemma ClustersAreSameDay(v: seq<real>, w: seq<real>, m: real, days: seq<int>)
    requires |v| == |w| == |days|
    ensures ClusterSquares(v, w, m, days, Uniqueness.Unique(days)) == SameDay(Residuals(v, w, m), days, |v|)
  {
    var cs := Uniqueness.Unique(days);
    SquaresAreListed(v, w, m, days, cs);
    AllListed(Residuals(v, w, m), days, |v|, cs);
  }

  lemma ClusteredFactors(g: real, q: real, t: real)
    requires g > 1.0 && t > 0.0
    ensures Sq(t) != 0.0 && Mul(Div(Mul(Div(g, g - 1.0), q), Sq(t)), Mul(g - 1.0, Sq(t))) == Mul(g, q)
  {
    SquarePositive(t);
    var a, y := g / (g - 1.0), t * t;
    assert a * (g - 1.0) == g;
    var z := (a * q) / y;
    assert z * y == a * q;
    assert z * ((g - 1.0) * y) == (z * y) * (g - 1.0) == (a * q) * (g - 1.0) == (a * (g - 1.0)) * q;
  }

  lemma {:induction false} ListingSize(xs: seq<int>)
    requires Uniqueness.Increasing(xs)
    ensures |set x | x in xs| == |xs|
  {
    if xs == [] {
      assert (set x | x in xs) == {};
    } else {
      var n := |xs| - 1;
      ListingSize(xs[..n]);
      assert (set x | x in xs) == (set x | x in xs[..n]) + {xs[n]};
    }
  }

  /** The UTC days the rows fall on. */
  ghost function DaySet(ts: seq<int>): set<int> { set i | 0 <= i < |ts| :: ts[i] / 86400 }

  lemma DaysCounted(ts: seq<int>)
    ensures |Uniqueness.Unique(Days(ts))| == |DaySet(ts)|
  {
    var clusters := Uniqueness.Unique(Days(ts));
    ListingSize(clusters);
    assert (set x | x in clusters) == DaySet(ts) by {
      forall d | d in DaySet(ts) ensures d in clusters {
        var i :| 0 <= i < |ts| && d == ts[i] / 86400;
        assert Days(ts)[i] == d;
      }
    }
  }

  /** `se` is the squared clustered error about `m`, for `g` days: `se * (g - 1) * W^2` is `g`
      times the same-day products. */
  ghost predicate ErrorIs(v: seq<real>, w: seq<real>, ts: seq<int>, m: real, g: nat, se: real)
    requires |v| == |w| == |ts|
  {
    Mul(se, Mul(g as real - 1.0, Sq(Total(w)))) == Mul(g as real, SameDay(Residuals(v, w, m), Days(ts), |v|))
  }

  lemma ClusteredErrorIs(v: seq<real>, w: seq<real>, ts: seq<int>, m: real)
    requires |v| == |w| == |ts| && Total(w) > 0.0 && |Uniqueness.Unique(Days(ts))| >= 2
    ensures var cs := Uniqueness.Unique(Days(ts));
      ErrorIs(v, w, ts, m, |cs|, ClusteredError(ClusterSquares(v, w, m, Days(ts), cs), |cs|, Total(w)))
  {
    var cs := Uniqueness.Unique(Days(ts));
    ClustersAreSameDay(v, w, m, Days(ts));
    ClusteredFactors(|cs| as real, ClusterSquares(v, w, m, Days(ts), cs), Total(w));
  }

  /** A t over the squared error `se`, above the floor. */
  ghost predicate Over(t: Num, m: real, se: real) {
    (t.Val? <==> se > SD_FLOOR_SQ) && (t.Val? ==> SignedRatio(t.x, se, m, 1.0))
  }

  /** The clustered t: the number of days, and the mean over the clustered error; undefined without
      a mean or with fewer than two days. */
  lemma ClusteredMeaning(v: seq<real>, w: seq<real>, ts: seq<int>)
    requires |v| == |w| == |ts|
    ensures var (t, days) := DayClustered(v, w, ts); var mean := WeightedStats(v, w).mean;
      && days == |DaySet(ts)|
      && (mean.NaN? || days < 2 ==> t == NaN)
      && (mean.Val? && days >= 2 ==> exists se :: ErrorIs(v, w, ts, mean.x, days, se) && Over(t, mean.x, se))
  {
    DaysCounted(ts);
    var clusters := Uniqueness.Unique(Days(ts));
    if WeightedStats(v, w).mean.Val? && |clusters| >= 2 {
      var m := WeightedStats(v, w).mean.x;
      MeanNeedsWeight(v, w);
      ClusteredErrorIs(v, w, ts, m);
      var se := ClusteredError(ClusterSquares(v, w, m, Days(ts), clusters), |clusters|, Total(w));
      MulOne(SignedSq(m));
      if se > SD_FLOOR_SQ { SignedRatioOf(m, 1.0, se); }
      assert Over(DayClustered(v, w, ts).0, m, se);
    }
  }
}
