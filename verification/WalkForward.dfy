/** What a whole walk-forward run guarantees: no look-ahead, no double counting, closed live
    evidence, and a restart after a period without a signal. */
module WalkForward {
  import opened Basics
  import opened Policies
  import opened Trajectory
  import opened Sorting

  // ---------- filters ----------

  lemma {:induction false} FilterMembers<T>(s: seq<T>, keep: T -> bool)
    ensures forall x :: x in Filter(s, keep) <==> x in s && keep(x)
  {
    if s != [] {
      FilterMembers(s[..|s| - 1], keep);
      assert s == s[..|s| - 1] + [s[|s| - 1]];
    }
  }

  lemma {:induction false} FilterAll<T>(s: seq<T>, keep: T -> bool)
    requires forall x :: x in s ==> keep(x)
    ensures Filter(s, keep) == s
  {
    if s != [] {
      var n := |s| - 1;
      assert s[n] in s && forall x :: x in s[..n] ==> x in s;
      FilterAll(s[..n], keep);
      assert s == s[..n] + [s[n]];
    }
  }

  lemma {:induction false} FilterAppend<T>(a: seq<T>, b: seq<T>, keep: T -> bool)
    ensures Filter(a + b, keep) == Filter(a, keep) + Filter(b, keep)
  {
    if b == [] {
      assert a + b == a;
    } else {
      assert (a + b)[..|a + b| - 1] == a + b[..|b| - 1];
      FilterAppend(a, b[..|b| - 1], keep);
    }
  }

  /** Filtering first by a weaker test changes nothing. */
  lemma {:induction false} FilterNest<T>(s: seq<T>, weak: T -> bool, keep: T -> bool)
    requires forall x :: x in s && keep(x) ==> weak(x)
    ensures Filter(Filter(s, weak), keep) == Filter(s, keep)
  {
    if s != [] {
      var n := |s| - 1;
      assert s == s[..n] + [s[n]];
      FilterNest(s[..n], weak, keep);
      FilterAppend(Filter(s[..n], weak), if weak(s[n]) then [s[n]] else [], keep);
    }
  }

  // ---------- spacing of the cutoffs ----------

  /** Consecutive cutoffs, in the order the run takes them, are at least a horizon apart. */
  ghost predicate Spaced(cutoffs: seq<int>, horizon: int) {
    forall i :: 0 <= i < |cutoffs| - 1 ==> cutoffs[i] + horizon <= cutoffs[i + 1]
  }

  lemma {:induction false} SpacedApart(cutoffs: seq<int>, horizon: int, i: nat, j: nat)
    requires Spaced(cutoffs, horizon) && horizon >= 0 && i < j < |cutoffs|
    ensures cutoffs[i] + horizon <= cutoffs[j]
    decreases j
  {
    if i < j - 1 { SpacedApart(cutoffs, horizon, i, j - 1); }
    assert cutoffs[j - 1] + horizon <= cutoffs[j - 1 + 1];
  }

  predicate InWindow(x: int, asOf: int, horizon: int) { asOf < x <= asOf + horizon }

  /** Every P&L row that can enter a period's window is closed by every later cutoff. */
  ghost predicate WindowsClosed(cutoffs: seq<int>, horizon: int) {
    forall i, j, x :: 0 <= i < j < |cutoffs| && InWindow(x, cutoffs[i], horizon) ==> x <= cutoffs[j]
  }

  /** Spacing in run order is exactly what closes every window before the next cutoff; without
      a positive horizon there is nothing to close. */
  lemma SpacedIffClosed(cutoffs: seq<int>, horizon: int)
    ensures WindowsClosed(cutoffs, horizon) <==> horizon <= 0 || Spaced(cutoffs, horizon)
  {
    if horizon > 0 && Spaced(cutoffs, horizon) {
      forall i, j, x | 0 <= i < j < |cutoffs| && InWindow(x, cutoffs[i], horizon)
        ensures x <= cutoffs[j]
      {
        SpacedApart(cutoffs, horizon, i, j);
      }
    }
    if horizon > 0 && WindowsClosed(cutoffs, horizon) {
      forall i | 0 <= i < |cutoffs| - 1 ensures cutoffs[i] + horizon <= cutoffs[i + 1] {
        assert InWindow(cutoffs[i] + horizon, cutoffs[i], horizon);
      }
    }
  }

  /** `BakeoffParams.__post_init__`: the gaps of the SORTED cutoffs reach the horizon. */
  ghost predicate Accepted(cutoffs: seq<int>, horizon: int) {
    Spaced(SortInts(cutoffs), horizon)
  }

  predicate Apart(x: int, y: int, horizon: int) { x + horizon <= y || y + horizon <= x }

  /** All of `t` is a horizon apart from `x`. */
  ghost predicate AllApart(t: seq<int>, x: int, horizon: int) { forall y :: y in t ==> Apart(y, x, horizon) }

  ghost predicate Pairwise(s: seq<int>, horizon: int) {
    forall i, j :: 0 <= i < j < |s| ==> Apart(s[i], s[j], horizon)
  }

  lemma InsertApart(t: seq<int>, x: int, cut: nat, horizon: int)
    requires horizon > 0 && Splits(t, x, cut) && Spaced(t[..cut] + [x] + t[cut..], horizon)
    ensures Spaced(t, horizon) && AllApart(t, x, horizon)
  {
    var r := t[..cut] + [x] + t[cut..];
    assert forall i :: 0 <= i < |t| ==> t[i] == r[if i < cut then i else i + 1];
    forall i | 0 <= i < |t| ensures Apart(t[i], x, horizon) {
      if i < cut { SpacedApart(r, horizon, i, cut); } else { SpacedApart(r, horizon, cut, i + 1); }
    }
    forall i | 0 <= i < |t| - 1 ensures t[i] + horizon <= t[i + 1] {
      SpacedApart(r, horizon, if i < cut then i else i + 1, if i + 1 < cut then i + 1 else i + 2);
    }
  }

  lemma InsertSpaced(t: seq<int>, x: int, cut: nat, horizon: int)
    requires horizon > 0 && Splits(t, x, cut) && Spaced(t, horizon) && AllApart(t, x, horizon)
    ensures Spaced(t[..cut] + [x] + t[cut..], horizon)
  {
    var r := t[..cut] + [x] + t[cut..];
    forall k | 0 <= k < |r| - 1 ensures r[k] + horizon <= r[k + 1] {
      if k == cut - 1 { assert t[k] in t; }
      else if k == cut { assert t[k] in t; }
      else {
        var i := if k < cut then k else k - 1;
        assert t[i] + horizon <= t[i + 1];
      }
    }
  }

  lemma PairwiseLast(s: seq<int>, horizon: int)
    requires s != []
    ensures var n := |s| - 1; Pairwise(s, horizon) <==> Pairwise(s[..n], horizon) && AllApart(s[..n], s[n], horizon)
  {
    var n := |s| - 1;
    assert forall i :: 0 <= i < n ==> s[..n][i] == s[i];
    if AllApart(s[..n], s[n], horizon) {
      forall i | 0 <= i < n ensures Apart(s[i], s[n], horizon) { assert s[i] in s[..n]; }
    }
  }

  /** The guard accepts exactly the cutoffs that are pairwise a horizon apart, in any order. */
  lemma AcceptedIsPairwise(cutoffs: seq<int>, horizon: int)
    ensures Accepted(cutoffs, horizon) <==> Pairwise(cutoffs, horizon)
  {
    if horizon > 0 { AcceptedPositive(cutoffs, horizon); }
  }

  lemma {:induction false} AcceptedPositive(cutoffs: seq<int>, horizon: int)
    requires horizon > 0
    ensures Accepted(cutoffs, horizon) <==> Pairwise(cutoffs, horizon)
  {
    if cutoffs != [] {
      var n := |cutoffs| - 1;
      var t, x := SortInts(cutoffs[..n]), cutoffs[n];
      var cut := SearchLeft(t, x);
      AcceptedPositive(cutoffs[..n], horizon);
      PairwiseLast(cutoffs, horizon);
      forall y ensures y in t <==> y in cutoffs[..n] { SortMembers(cutoffs[..n], y); }
      assert SortInts(cutoffs) == t[..cut] + [x] + t[cut..];
      if Accepted(cutoffs, horizon) { InsertApart(t, x, cut, horizon); }
      if Pairwise(cutoffs, horizon) { InsertSpaced(t, x, cut, horizon); }
    }
  }

  ghost predicate Ascending(cutoffs: seq<int>) { forall i :: 0 <= i < |cutoffs| - 1 ==> cutoffs[i] <= cutoffs[i + 1] }

  lemma {:induction false} AscendingIsSorted(cutoffs: seq<int>, i: nat, j: nat)
    requires Ascending(cutoffs) && i < j < |cutoffs|
    ensures cutoffs[i] <= cutoffs[j]
    decreases j
  {
    assert cutoffs[j - 1] <= cutoffs[j - 1 + 1];
    if i < j - 1 { AscendingIsSorted(cutoffs, i, j - 1); }
  }

  /** The windows close in time exactly when the guard passes and the cutoffs ascend, or when
      there is no positive horizon. */
  lemma ClosedExactlyWhen(cutoffs: seq<int>, horizon: int)
    ensures WindowsClosed(cutoffs, horizon) <==> horizon <= 0 || (Accepted(cutoffs, horizon) && Ascending(cutoffs))
  {
    SpacedIffClosed(cutoffs, horizon);
    if Ascending(cutoffs) {
      forall i, j | 0 <= i < j < |cutoffs| ensures cutoffs[i] <= cutoffs[j] { AscendingIsSorted(cutoffs, i, j); }
      SortedIsFixed(cutoffs);
    }
  }

  /** The guard does not look at the run order: descending cutoffs pass it, and a window of
      the first period is then still open at the second cutoff. */
  lemma AcceptedDescending()
    ensures Accepted([10, 0], 10) && !WindowsClosed([10, 0], 10)
  {
    var cutoffs := [10, 0];
    AcceptedIsPairwise(cutoffs, 10);
    assert InWindow(15, cutoffs[0], 10) && cutoffs[1] < 15;
  }

  // ---------- no look-ahead in the split ----------

  /** Every in-sample row was entered before the cutoff and is resolved by it. */
  lemma InSampleIsKnown(ss: seq<Row>, asOf: int, trainSecs: int, r: Row)
    ensures r in InSample(ss, asOf, trainSecs) <==>
      r in ss && asOf - trainSecs <= r.entry < asOf && r.resolved <= asOf
  {
    FilterMembers(ss, (r: Row) => asOf - trainSecs <= r.entry < asOf && r.resolved <= asOf);
  }

  lemma WindowMembers(pnl: seq<PnlRow>, asOf: int, horizon: int, r: PnlRow)
    requires r in Window(pnl, asOf, horizon)
    ensures asOf < r.periodEnd <= asOf + horizon
  {
    FilterMembers(pnl, (r: PnlRow) => asOf < r.periodEnd <= asOf + horizon);
  }

  // ---------- one run, seen period by period ----------

  /** The state before the `i`-th cutoff. */
  ghost function Before(e: World, p: Params, g: GridPoint, ss: seq<Row>, cutoffs: seq<int>, i: nat): Carry
    requires ValidWorld(e) && i <= |cutoffs|
  {
    RunFrom(e, p, g, ss, Start(), cutoffs[..i])
  }

  lemma BeforeStep(e: World, p: Params, g: GridPoint, ss: seq<Row>, cutoffs: seq<int>, i: nat)
    requires ValidWorld(e) && i < |cutoffs|
    ensures Before(e, p, g, ss, cutoffs, i + 1) == Step(e, p, g, ss, Before(e, p, g, ss, cutoffs, i), cutoffs[i])
  {
    assert cutoffs[..i + 1][..i] == cutoffs[..i];
  }

  /** The rows counted in a period lie in that period's window; the live evidence consists of
      counted rows that are not horizon marks. */
  ghost predicate Accounts(c: Carry, cutoffs: seq<int>, n: nat, horizon: int) {
    && n <= |cutoffs| && |c.counted| == n && |c.earned| == n
    && (forall i, r :: 0 <= i < n && r in c.counted[i] ==> cutoffs[i] < r.periodEnd <= cutoffs[i] + horizon)
    && (forall r :: r in c.live ==> !r.isMtm && exists i :: 0 <= i < n && r in c.counted[i])
  }

  lemma StepAccounts(e: World, p: Params, g: GridPoint, ss: seq<Row>, cutoffs: seq<int>, n: nat, c: Carry)
    requires ValidWorld(e) && n < |cutoffs| && Accounts(c, cutoffs, n, p.horizonSecs)
    ensures Accounts(Step(e, p, g, ss, c, cutoffs[n]), cutoffs, n + 1, p.horizonSecs)
  {
    var d := Step(e, p, g, ss, c, cutoffs[n]);
    var window := d.counted[n];
    match SignalAt(e, p, g, ss, c, cutoffs[n]) {
      case NoSignal =>
        assert window == [] && d.live == c.live;
      case Live(follow, _, _) =>
        var pnl := e.backtest(RequestFor(p, g, follow, cutoffs[n]));
        forall r | r in window ensures cutoffs[n] < r.periodEnd <= cutoffs[n] + p.horizonSecs {
          WindowMembers(pnl, cutoffs[n], p.horizonSecs, r);
        }
        FilterMembers(window, (r: PnlRow) => !r.isMtm);
    }
    forall r | r in d.live ensures !r.isMtm && exists i :: 0 <= i < n + 1 && r in d.counted[i] {
      if r in c.live {
        var i :| 0 <= i < n && r in c.counted[i];
        assert r in d.counted[i];
      } else {
        assert r in d.counted[n];
      }
    }
  }

  lemma {:induction false} RunAccounts(e: World, p: Params, g: GridPoint, ss: seq<Row>, cutoffs: seq<int>, n: nat)
    requires ValidWorld(e) && n <= |cutoffs|
    ensures Accounts(Before(e, p, g, ss, cutoffs, n), cutoffs, n, p.horizonSecs)
  {
    if n > 0 {
      RunAccounts(e, p, g, ss, cutoffs, n - 1);
      BeforeStep(e, p, g, ss, cutoffs, n - 1);
      StepAccounts(e, p, g, ss, cutoffs, n - 1, Before(e, p, g, ss, cutoffs, n - 1));
    }
  }

  /** At every cutoff of a spaced run the accumulated live P&L holds no horizon marks and is
      closed already, so the as-of filters of the demoter and of the proven-period count drop
      nothing. */
  lemma LiveIsClosed(e: World, p: Params, g: GridPoint, ss: seq<Row>, cutoffs: seq<int>, i: nat)
    requires ValidWorld(e) && i < |cutoffs| && Spaced(cutoffs, p.horizonSecs)
    ensures var live := Before(e, p, g, ss, cutoffs, i).live;
      && (forall r :: r in live ==> !r.isMtm && r.periodEnd <= cutoffs[i])
      && Closed(live, cutoffs[i]) == live
  {
    RunAccounts(e, p, g, ss, cutoffs, i);
    var c := Before(e, p, g, ss, cutoffs, i);
    forall r | r in c.live ensures !r.isMtm && r.periodEnd <= cutoffs[i] {
      var j :| 0 <= j < i && r in c.counted[j];
      SpacedApart(cutoffs, p.horizonSecs, j, i);
    }
    FilterAll(c.live, (r: PnlRow) => r.periodEnd <= cutoffs[i]);
  }

  /** All of `rows` ends by `t`, all of `later` after it. */
  ghost predicate Divided(rows: seq<PnlRow>, later: seq<PnlRow>, t: int) {
    (forall r :: r in rows ==> r.periodEnd <= t) && (forall r :: r in later ==> t < r.periodEnd)
  }

  /** The cutoff of every period divides its rows from those of every earlier one. */
  ghost predicate OnceEach(counted: seq<seq<PnlRow>>, cutoffs: seq<int>) {
    |counted| == |cutoffs| && forall i, j :: 0 <= i < j < |cutoffs| ==> Divided(counted[i], counted[j], cutoffs[j])
  }

  lemma AccountsOnce(c: Carry, cutoffs: seq<int>, horizon: int)
    requires Accounts(c, cutoffs, |cutoffs|, horizon) && Spaced(cutoffs, horizon)
    ensures OnceEach(c.counted, cutoffs)
  {
    forall i, j | 0 <= i < j < |cutoffs| ensures Divided(c.counted[i], c.counted[j], cutoffs[j]) {
      forall r | r in c.counted[i] ensures r.periodEnd <= cutoffs[j] {
        assert cutoffs[i] < r.periodEnd <= cutoffs[i] + horizon;
        SpacedApart(cutoffs, horizon, i, j);
      }
    }
  }

  /** In a spaced run no P&L row is counted twice. */
  lemma CountedOnce(e: World, p: Params, g: GridPoint, ss: seq<Row>, cutoffs: seq<int>)
    requires ValidWorld(e) && Spaced(cutoffs, p.horizonSecs)
    ensures OnceEach(Before(e, p, g, ss, cutoffs, |cutoffs|).counted, cutoffs)
  {
    RunAccounts(e, p, g, ss, cutoffs, |cutoffs|);
    AccountsOnce(Before(e, p, g, ss, cutoffs, |cutoffs|), cutoffs, p.horizonSecs);
  }

  // ---------- causality ----------

  /** The labels that exist and are resolved by `t`. */
  ghost function Known(ss: seq<Row>, t: int): seq<Row> {
    Filter(ss, (r: Row) => r.entry < t && r.resolved <= t)
  }

  lemma InSampleOfKnown(ss: seq<Row>, t: int, asOf: int, trainSecs: int)
    requires asOf <= t
    ensures InSample(ss, asOf, trainSecs) == InSample(Known(ss, t), asOf, trainSecs)
  {
    FilterNest(ss, (r: Row) => r.entry < t && r.resolved <= t,
               (r: Row) => asOf - trainSecs <= r.entry < asOf && r.resolved <= asOf);
  }

  lemma {:induction false} FilterCommutes<T>(s: seq<T>, a: T -> bool, b: T -> bool)
    ensures Filter(Filter(s, a), b) == Filter(Filter(s, b), a)
  {
    if s != [] {
      var n := |s| - 1;
      FilterCommutes(s[..n], a, b);
      FilterAppend(Filter(s[..n], a), if a(s[n]) then [s[n]] else [], b);
      FilterAppend(Filter(s[..n], b), if b(s[n]) then [s[n]] else [], a);
    }
  }

  lemma SliceOfKnown(ss: seq<Row>, ss': seq<Row>, c: Criteria, t: int)
    requires Known(ss, t) == Known(ss', t)
    ensures Known(Slice(ss, c), t) == Known(Slice(ss', c), t)
  {
    var band := (r: Row) => (r.ttrRef - r.entry) as real <= c.ttrHours * 3600.0 && c.priceMin <= r.price <= c.priceMax;
    var known := (r: Row) => r.entry < t && r.resolved <= t;
    FilterCommutes(ss, band, known);
    FilterCommutes(ss', band, known);
  }

  /** Two backtests that agree on every P&L row closed by `t`. */
  ghost predicate AgreeUntil(b: Request -> seq<PnlRow>, b': Request -> seq<PnlRow>, t: int) {
    forall q :: Closed(b(q), t) == Closed(b'(q), t)
  }

  lemma WindowOfClosed(pnl: seq<PnlRow>, t: int, asOf: int, horizon: int)
    requires asOf + horizon <= t
    ensures Window(pnl, asOf, horizon) == Window(Closed(pnl, t), asOf, horizon)
  {
    FilterNest(pnl, (r: PnlRow) => r.periodEnd <= t, (r: PnlRow) => asOf < r.periodEnd <= asOf + horizon);
  }

  lemma SignalSame(e: World, e': World, p: Params, g: GridPoint, ss: seq<Row>, ss': seq<Row>, c: Carry, asOf: int, t: int)
    requires ValidWorld(e) && ValidWorld(e') && e' == e.(backtest := e'.backtest)
    requires Known(ss, t) == Known(ss', t) && asOf <= t
    ensures SignalAt(e, p, g, ss, c, asOf) == SignalAt(e', p, g, ss', c, asOf)
  {
    InSampleOfKnown(ss, t, asOf, p.trainSecs);
    InSampleOfKnown(ss', t, asOf, p.trainSecs);
    assert Surviving(e, p, g, ss, asOf) == Surviving(e', p, g, ss', asOf);
  }

  lemma AdvanceSame(p: Params, g: GridPoint, c: Carry, asOf: int, signal: Signal, b: Request -> seq<PnlRow>, b': Request -> seq<PnlRow>, t: int)
    requires AgreeUntil(b, b', t) && asOf + p.horizonSecs <= t
    ensures Advance(p, g, c, asOf, signal, b) == Advance(p, g, c, asOf, signal, b')
  {
    if signal.Live? {
      var q := RequestFor(p, g, signal.follow, asOf);
      WindowOfClosed(b(q), t, asOf, p.horizonSecs);
      WindowOfClosed(b'(q), t, asOf, p.horizonSecs);
      assert Window(b(q), asOf, p.horizonSecs) == Window(b'(q), asOf, p.horizonSecs);
    }
  }

  lemma StepSame(e: World, e': World, p: Params, g: GridPoint, ss: seq<Row>, ss': seq<Row>, c: Carry, asOf: int, t: int)
    requires ValidWorld(e) && ValidWorld(e') && e' == e.(backtest := e'.backtest)
    requires Known(ss, t) == Known(ss', t) && AgreeUntil(e.backtest, e'.backtest, t)
    requires asOf <= t && asOf + p.horizonSecs <= t
    ensures Step(e, p, g, ss, c, asOf) == Step(e', p, g, ss', c, asOf)
  {
    SignalSame(e, e', p, g, ss, ss', c, asOf, t);
    AdvanceSame(p, g, c, asOf, SignalAt(e, p, g, ss, c, asOf), e.backtest, e'.backtest, t);
  }

  lemma {:induction false} BeforeSame(e: World, e': World, p: Params, g: GridPoint, ss: seq<Row>, ss': seq<Row>, cutoffs: seq<int>, n: nat, t: int)
    requires ValidWorld(e) && ValidWorld(e') && e' == e.(backtest := e'.backtest)
    requires Known(ss, t) == Known(ss', t) && AgreeUntil(e.backtest, e'.backtest, t)
    requires n <= |cutoffs| && forall i :: 0 <= i < n ==> cutoffs[i] <= t && cutoffs[i] + p.horizonSecs <= t
    ensures Before(e, p, g, ss, cutoffs, n) == Before(e', p, g, ss', cutoffs, n)
  {
    if n > 0 {
      BeforeSame(e, e', p, g, ss, ss', cutoffs, n - 1, t);
      BeforeStep(e, p, g, ss, cutoffs, n - 1);
      BeforeStep(e', p, g, ss', cutoffs, n - 1);
      StepSame(e, e', p, g, ss, ss', Before(e, p, g, ss, cutoffs, n - 1), cutoffs[n - 1], t);
    }
  }

  /** Causality of a whole run: two histories that agree on the labels known at cutoff `i` and
      on the P&L closed by it lead to the same returns before `i` and the same choice at `i`,
      whatever happens afterwards. */
  lemma NoLookAhead(e: World, e': World, p: Params, g: GridPoint, ss: seq<Row>, ss': seq<Row>, cutoffs: seq<int>, i: nat)
    requires ValidWorld(e) && ValidWorld(e') && e' == e.(backtest := e'.backtest)
    requires i < |cutoffs| && Ascending(cutoffs) && Spaced(cutoffs, p.horizonSecs)
    requires Known(ss, cutoffs[i]) == Known(ss', cutoffs[i])
    requires AgreeUntil(e.backtest, e'.backtest, cutoffs[i])
    ensures var c := Run(e, p, g, ss, cutoffs[..i]);
      && Run(e', p, g, ss', cutoffs[..i]) == c
      && SignalAt(e, p, g, Slice(ss, g.criteria), c, cutoffs[i])
         == SignalAt(e', p, g, Slice(ss', g.criteria), c, cutoffs[i])
  {
    var t := cutoffs[i];
    SliceOfKnown(ss, ss', g.criteria, t);
    forall j | 0 <= j < i ensures cutoffs[j] <= t && cutoffs[j] + p.horizonSecs <= t {
      AscendingIsSorted(cutoffs, j, i);
      if p.horizonSecs >= 0 { SpacedApart(cutoffs, p.horizonSecs, j, i); }
    }
    var s, s' := Slice(ss, g.criteria), Slice(ss', g.criteria);
    BeforeSame(e, e', p, g, s, s', cutoffs, i, t);
    SignalSame(e, e', p, g, s, s', Before(e, p, g, s, cutoffs, i), t, t);
  }

  // ---------- a period without a signal restarts the run ----------

  ghost predicate IgnoresLive(policy: Policy) { policy.FullRerank? || policy.OnlineWeighting? }

  /** Two carries from which the run goes on alike. */
  ghost predicate SameStand(g: GridPoint, c: Carry, d: Carry) {
    c.prev == d.prev && c.online == d.online && (IgnoresLive(g.policy) || c.live == d.live)
  }

  lemma SignalFromSameStand(e: World, p: Params, g: GridPoint, ss: seq<Row>, c: Carry, d: Carry, asOf: int)
    requires ValidWorld(e) && SameStand(g, c, d)
    ensures SignalAt(e, p, g, ss, c, asOf) == SignalAt(e, p, g, ss, d, asOf)
  {
  }

  /** The return of the period, and nothing else, is appended, and it is the same for both. */
  ghost predicate AppendsAlike(c: seq<real>, c': seq<real>, d: seq<real>, d': seq<real>, x: real) {
    c' == c + [x] && d' == d + [x]
  }

  lemma StepFromSameStand(e: World, p: Params, g: GridPoint, ss: seq<Row>, c: Carry, d: Carry, asOf: int) returns (x: real)
    requires ValidWorld(e) && SameStand(g, c, d)
    ensures var c', d' := Step(e, p, g, ss, c, asOf), Step(e, p, g, ss, d, asOf);
      SameStand(g, c', d') && AppendsAlike(c.earned, c'.earned, d.earned, d'.earned, x)
  {
    SignalFromSameStand(e, p, g, ss, c, d, asOf);
    var signal := SignalAt(e, p, g, ss, c, asOf);
    x := AdvanceFromSameStand(p, g, c, d, asOf, signal, e.backtest);
  }

  lemma AdvanceFromSameStand(p: Params, g: GridPoint, c: Carry, d: Carry, asOf: int, signal: Signal, b: Request -> seq<PnlRow>)
    returns (x: real)
    requires SameStand(g, c, d)
    ensures var c', d' := Advance(p, g, c, asOf, signal, b), Advance(p, g, d, asOf, signal, b);
      SameStand(g, c', d') && AppendsAlike(c.earned, c'.earned, d.earned, d'.earned, x)
  {
    match signal {
      case NoSignal => x := 0.0;
      case Live(follow, _, _) =>
        var window := Window(b(RequestFor(p, g, follow, asOf)), asOf, p.horizonSecs);
        x := NetPnl(g, c.prev, follow, window);
    }
  }

  lemma {:induction false} RunFromSameStand(e: World, p: Params, g: GridPoint, ss: seq<Row>, c: Carry, d: Carry, cutoffs: seq<int>)
    returns (xs: seq<real>)
    requires ValidWorld(e) && SameStand(g, c, d)
    ensures |xs| == |cutoffs|
    ensures var c', d' := RunFrom(e, p, g, ss, c, cutoffs), RunFrom(e, p, g, ss, d, cutoffs);
      SameStand(g, c', d') && c'.earned == c.earned + xs && d'.earned == d.earned + xs
  {
    if cutoffs == [] {
      xs := [];
    } else {
      var n := |cutoffs| - 1;
      var ys := RunFromSameStand(e, p, g, ss, c, d, cutoffs[..n]);
      var c', d' := RunFrom(e, p, g, ss, c, cutoffs[..n]), RunFrom(e, p, g, ss, d, cutoffs[..n]);
      var x := StepFromSameStand(e, p, g, ss, c', d', cutoffs[n]);
      xs := ys + [x];
      assert c'.earned + [x] == c.earned + xs && d'.earned + [x] == d.earned + xs;
    }
  }

  lemma RunFromLast(e: World, p: Params, g: GridPoint, ss: seq<Row>, c: Carry, init: seq<int>, last: int)
    requires ValidWorld(e)
    ensures RunFrom(e, p, g, ss, c, init + [last]) == Step(e, p, g, ss, RunFrom(e, p, g, ss, c, init), last)
  {
    assert (init + [last])[..|init|] == init;
  }

  lemma RunFromAgree(e: World, p: Params, g: GridPoint, ss: seq<Row>, c: Carry, d: Carry, xs: seq<int>, ys: seq<int>, last: int)
    requires ValidWorld(e) && RunFrom(e, p, g, ss, c, xs) == RunFrom(e, p, g, ss, d, ys)
    ensures RunFrom(e, p, g, ss, c, xs + [last]) == RunFrom(e, p, g, ss, d, ys + [last])
  {
    RunFromLast(e, p, g, ss, c, xs, last);
    RunFromLast(e, p, g, ss, d, ys, last);
  }

  lemma {:induction false} RunFromAppend(e: World, p: Params, g: GridPoint, ss: seq<Row>, c: Carry, a: seq<int>, b: seq<int>)
    requires ValidWorld(e)
    ensures RunFrom(e, p, g, ss, c, a + b) == RunFrom(e, p, g, ss, RunFrom(e, p, g, ss, c, a), b)
  {
    if b == [] {
      assert a + b == a;
    } else {
      var init, last := b[..|b| - 1], b[|b| - 1];
      assert a + b == (a + init) + [last] && b == init + [last];
      RunFromAppend(e, p, g, ss, c, a, init);
      RunFromAgree(e, p, g, ss, c, RunFrom(e, p, g, ss, c, a), a + init, init, last);
    }
  }

  /** A period without a signal earns 0, and the later returns are those of a run begun at the
      next cutoff with nothing held: with the live evidence kept, and for the policies that
      ignore it, from scratch.  If it is the last period, the reported final set is empty. */
  lemma Restart(e: World, p: Params, g: GridPoint, ss: seq<Row>, cutoffs: seq<int>, i: nat)
    requires ValidWorld(e) && i < |cutoffs|
    requires SignalAt(e, p, g, ss, Before(e, p, g, ss, cutoffs, i), cutoffs[i]).NoSignal?
    ensures var earned := RunFrom(e, p, g, ss, Start(), cutoffs).earned;
      && |earned| == |cutoffs| && earned[i] == 0.0
      && earned[i + 1..] == RunFrom(e, p, g, ss, Start().(live := Before(e, p, g, ss, cutoffs, i).live), cutoffs[i + 1..]).earned
      && (IgnoresLive(g.policy) ==> earned[i + 1..] == RunFrom(e, p, g, ss, Start(), cutoffs[i + 1..]).earned)
    ensures i == |cutoffs| - 1 ==> RunFrom(e, p, g, ss, Start(), cutoffs).finalFollow == []
  {
    FinalSet(e, p, g, ss, cutoffs);
    var c := Before(e, p, g, ss, cutoffs, i);
    RunAccounts(e, p, g, ss, cutoffs, i);
    BeforeStep(e, p, g, ss, cutoffs, i);
    var d := Before(e, p, g, ss, cutoffs, i + 1);
    var rest := cutoffs[i + 1..];
    assert cutoffs == cutoffs[..i + 1] + rest;
    RunFromAppend(e, p, g, ss, Start(), cutoffs[..i + 1], rest);
    var xs := RunFromSameStand(e, p, g, ss, d, Start().(live := c.live), rest);
    if IgnoresLive(g.policy) { var _ := RunFromSameStand(e, p, g, ss, d, Start(), rest); }
    assert d.earned == c.earned + [0.0] && |c.earned| == i;
    assert (d.earned + xs)[i + 1..] == xs;
  }

  /** The reported final set is empty exactly when the last cutoff, if any, had no signal. */
  lemma FinalSet(e: World, p: Params, g: GridPoint, ss: seq<Row>, cutoffs: seq<int>)
    requires ValidWorld(e)
    ensures var c := RunFrom(e, p, g, ss, Start(), cutoffs);
      c.finalFollow == [] <==>
        cutoffs == [] || SignalAt(e, p, g, ss, Before(e, p, g, ss, cutoffs, |cutoffs| - 1), cutoffs[|cutoffs| - 1]).NoSignal?
  {
  }

  // ---------- demotion, churn and window P&L ----------

  lemma {:induction false} RealizedAny(live: seq<PnlRow>, w: Wallet)
    ensures RealizedOf(live, w) != [] <==> exists r :: r in live && r.wallet == w
  {
    if live != [] {
      var n := |live| - 1;
      RealizedAny(live[..n], w);
      assert live == live[..n] + [live[n]];
    }
  }

  /** The one-pass set is the per-wallet test, for a test that spares wallets without evidence. */
  lemma DemoteSetIsTest(e: World, live: seq<PnlRow>, asOf: int, w: Wallet)
    requires !e.demote([])
    ensures w in DemoteSet(e, live, asOf) <==> ShouldDemote(e, live, asOf, w)
  {
    RealizedAny(Closed(live, asOf), w);
  }

  lemma {:induction false} HardWeight(ws: seq<Wallet>, w: Wallet)
    ensures WeightOf(Hard(ws), w) == if w in ws then 1.0 else 0.0
  {
    if ws != [] {
      var n := |ws| - 1;
      assert Hard(ws)[..n] == Hard(ws[..n]);
      HardWeight(ws[..n], w);
      assert ws == ws[..n] + [ws[n]];
    }
  }

  lemma {:induction false} HardIncrease(a: seq<Wallet>, b: seq<Wallet>)
    ensures Increase(Hard(a), Hard(b)) == |Outside(b, Elems(a))| as real
  {
    if b != [] {
      var n := |b| - 1;
      assert Hard(b)[..n] == Hard(b[..n]);
      HardIncrease(a, b[..n]);
      HardWeight(a, b[n]);
    }
  }

  lemma {:induction false} HardLeavers(a: seq<Wallet>, f: Follow)
    ensures Leavers(Hard(a), f) == 0.0
  {
    if a != [] {
      assert Hard(a)[..|a| - 1] == Hard(a[..|a| - 1]);
      HardLeavers(a[..|a| - 1], f);
    }
  }

  /** Between hard sets the churn is the number of newly admitted wallets. */
  lemma HardChurn(a: seq<Wallet>, b: seq<Wallet>)
    ensures Churn(Hard(a), Hard(b)) == |Outside(b, Elems(a))| as real
  {
    HardIncrease(a, b);
    HardLeavers(a, Hard(b));
  }

  lemma {:induction false} WeightOutside(f: Follow, w: Wallet)
    requires w !in Wallets(f)
    ensures WeightOf(f, w) == 0.0
  {
    if f != [] {
      var n := |f| - 1;
      assert Wallets(f)[n] == f[n].wallet;
      assert forall i :: 0 <= i < n ==> Wallets(f[..n])[i] == Wallets(f)[i];
      WeightOutside(f[..n], w);
    }
  }

  function Mass(f: Follow): real { if f == [] then 0.0 else Mass(f[..|f| - 1]) + f[|f| - 1].weight }

  lemma WalletsInit(f: Follow)
    requires f != []
    ensures var n := |f| - 1;
      Wallets(f) == Wallets(f[..n]) + [f[n].wallet] && (Distinct(Wallets(f)) ==> Distinct(Wallets(f[..n])))
      && (Distinct(Wallets(f)) ==> f[n].wallet !in Wallets(f[..n]))
  {
    var n := |f| - 1;
    assert Wallets(f)[n] == f[n].wallet && forall i :: 0 <= i < n ==> Wallets(f[..n])[i] == Wallets(f)[i];
  }

  lemma WalletsAppend(f: Follow, h: Holding)
    ensures Wallets(f + [h]) == Wallets(f) + [h.wallet]
  {
  }

  lemma {:induction false} LeaversDrop(p: Follow, f: Follow, h: Holding)
    requires Distinct(Wallets(p)) && h.wallet !in Wallets(f)
    ensures Leavers(p, f + [h])
         == Leavers(p, f) - if h.wallet in Wallets(p) then Pos(0.0 - WeightOf(p, h.wallet)) else 0.0
  {
    if p != [] {
      WalletsInit(p);
      WalletsAppend(f, h);
      LeaversDrop(p[..|p| - 1], f, h);
    }
  }

  lemma {:induction false} IncreaseMoves(p: Follow, f: Follow, h: Holding)
    requires Distinct(Wallets(p)) && h.wallet !in Wallets(f)
    ensures Increase(f + [h], p) == Increase(f, p) +
      if h.wallet in Wallets(p) then Pos(WeightOf(p, h.wallet) - h.weight) - Pos(WeightOf(p, h.wallet)) else 0.0
  {
    if p != [] {
      WalletsInit(p);
      assert (f + [h])[..|f|] == f;
      WeightOutside(f, h.wallet);
      IncreaseMoves(p[..|p| - 1], f, h);
    }
  }

  lemma {:induction false} EmptyChurn(p: Follow)
    ensures Churn(p, []) - Churn([], p) == 0.0 - Mass(p)
  {
    if p != [] { EmptyChurn(p[..|p| - 1]); }
  }

  lemma ChurnGrows(p: Follow, f: Follow, h: Holding)
    requires Distinct(Wallets(p)) && h.wallet !in Wallets(f)
    ensures Churn(p, f + [h]) - Churn(f + [h], p) == Churn(p, f) - Churn(f, p) + h.weight
  {
    assert (f + [h])[..|f|] == f;
    LeaversDrop(p, f, h);
    IncreaseMoves(p, f, h);
    if h.wallet !in Wallets(p) { WeightOutside(p, h.wallet); }
  }

  /** Weight newly deployed less weight released is the change of the total weight: what a move
      and its reversal are charged differ by exactly the net inflow. */
  lemma {:induction false} ChurnIsNetInflow(prev: Follow, follow: Follow)
    requires Distinct(Wallets(prev)) && Distinct(Wallets(follow))
    ensures Churn(prev, follow) - Churn(follow, prev) == Mass(follow) - Mass(prev)
  {
    if follow == [] {
      EmptyChurn(prev);
    } else {
      var init, h := follow[..|follow| - 1], follow[|follow| - 1];
      WalletsInit(follow);
      assert follow == init + [h];
      ChurnIsNetInflow(prev, init);
      ChurnGrows(prev, init, h);
    }
  }

  function RowPnl(window: seq<PnlRow>, follow: Follow): real {
    if window == [] then 0.0
    else
      var r := window[|window| - 1];
      RowPnl(window[..|window| - 1], follow) + WeightOf(follow, r.wallet) * (r.realized + r.unrealized)
  }

  lemma {:induction false} OneMoreHolding(window: seq<PnlRow>, f: Follow, h: Holding)
    requires h.wallet !in Wallets(f)
    ensures RowPnl(window, f + [h]) == RowPnl(window, f) + HoldingPnl(window, h)
  {
    if window != [] {
      OneMoreHolding(window[..|window| - 1], f, h);
      assert (f + [h])[..|f|] == f;
      WeightOutside(f, h.wallet);
    }
  }

  lemma {:induction false} NoHoldings(window: seq<PnlRow>)
    ensures RowPnl(window, []) == 0.0
  {
    if window != [] { NoHoldings(window[..|window| - 1]); }
  }

  /** The window's P&L counts every row once, at its wallet's weight. */
  lemma {:induction false} WindowPnlByRow(window: seq<PnlRow>, follow: Follow)
    requires Distinct(Wallets(follow))
    ensures WindowPnl(window, follow) == RowPnl(window, follow)
  {
    if follow == [] {
      NoHoldings(window);
    } else {
      var n := |follow| - 1;
      var init, h := follow[..n], follow[n];
      assert follow == init + [h];
      WalletsInit(follow);
      WindowPnlByRow(window, init);
      OneMoreHolding(window, init, h);
    }
  }
}
