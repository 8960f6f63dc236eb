/** What each period of a walk-forward run follows, counts and earns, in terms of the rows, ranks
    and weights themselves. */
module PeriodLaws {
  import opened Basics
  import opened Policies
  import opened Displacement
  import opened Trajectory
  import opened WalkForward

  // ---------- rows selected by a filter ----------

  lemma {:induction false} FilterCounts<T>(s: seq<T>, keep: T -> bool, x: T)
    ensures multiset(Filter(s, keep))[x] == if keep(x) then multiset(s)[x] else 0
  {
    if s != [] {
      var n := |s| - 1;
      assert s == s[..n] + [s[n]];
      FilterCounts(s[..n], keep, x);
    }
  }

  /** `window` is `pnl` confined to the period ends after `asOf` and up to `asOf + horizon`. */
  ghost predicate Confined(window: seq<PnlRow>, pnl: seq<PnlRow>, asOf: int, horizon: int) {
    forall r :: multiset(window)[r] == if asOf < r.periodEnd <= asOf + horizon then multiset(pnl)[r] else 0
  }

  lemma WindowIsConfined(pnl: seq<PnlRow>, asOf: int, horizon: int)
    ensures Confined(Window(pnl, asOf, horizon), pnl, asOf, horizon)
  {
    forall r ensures multiset(Window(pnl, asOf, horizon))[r] == if asOf < r.periodEnd <= asOf + horizon then multiset(pnl)[r] else 0 {
      FilterCounts(pnl, (r: PnlRow) => asOf < r.periodEnd <= asOf + horizon, r);
    }
  }

  /** `live'` is `live` followed by the rows of `window` that are no horizon marks. */
  ghost predicate Collected(live: seq<PnlRow>, live': seq<PnlRow>, window: seq<PnlRow>) {
    live <= live' && forall r :: multiset(live')[r] == multiset(live)[r] + if r.isMtm then 0 else multiset(window)[r]
  }

  lemma LiveIsCollected(live: seq<PnlRow>, window: seq<PnlRow>)
    ensures Collected(live, live + Realized(window), window)
  {
    var live' := live + Realized(window);
    forall r ensures multiset(live')[r] == multiset(live)[r] + if r.isMtm then 0 else multiset(window)[r] {
      FilterCounts(window, (r: PnlRow) => !r.isMtm, r);
    }
  }

  /** The backtest asked for: the followed wallets in sorted order, the period's window, and the
      criteria band if the forward copy is confined to it. */
  ghost predicate Asks(p: Params, c: Criteria, q: Request, ws: seq<Wallet>, asOf: int) {
    && multiset(q.wallets) == multiset(ws) && InOrder(q.wallets)
    && q.flatUsd == p.flatUsd && q.from == asOf && q.to == asOf + p.horizonSecs
    && (p.forwardFilter ==> q.filter == Some(Band(c.ttrHours, c.priceMin, c.priceMax)))
    && (!p.forwardFilter ==> q.filter == None)
  }

  // ---------- nobody is followed twice ----------

  /** The online selector lists each wallet once. */
  ghost predicate SelectsOnce(e: World) {
    forall s, k, o {:trigger e.select(s, k, o)} :: Distinct(Wallets(e.select(s, k, o).0))
  }

  lemma WalletsOfHard(ws: seq<Wallet>)
    ensures Wallets(Hard(ws)) == ws
  {
  }

  lemma TakeDistinct(ws: seq<Wallet>, k: nat)
    requires Distinct(ws)
    ensures Distinct(Take(ws, k)) && |Take(ws, k)| <= k
  {
  }

  lemma StepDistinct(e: World, p: Params, policy: Policy, online: Option<OnlineState>, prev: Follow,
                     scores: WalletScores, live: seq<PnlRow>, asOf: int)
    requires ValidScores(scores.ranks) && Distinct(Wallets(prev)) && (policy.OnlineWeighting? ==> SelectsOnce(e))
    ensures Distinct(Wallets(PolicyStep(e, p, policy, online, prev, scores, live, asOf).0))
  {
    var demoted := DemoteSet(e, live, asOf);
    var base := Knockout(p.k, Wallets(prev), scores.ranks, demoted);
    KnockoutShape(p.k, Wallets(prev), scores.ranks, demoted);
    match policy
    case FullRerank => TakeDistinct(scores.ranks.order, p.k);
    case KnockoutBackfill => WalletsOfHard(base);
    case HybridDisplacement =>
      var rules := Rules(scores.ranks, Trajectory.Periods(live, asOf), p.provenMin, p.margin);
      KeepsSizeAndProven(rules, base, 0);
      TakeDistinct(Hybrid(rules, base), p.k);
    case OnlineWeighting =>
  }

  lemma SignalDistinct(e: World, p: Params, g: GridPoint, ss: seq<Row>, c: Carry, asOf: int)
    requires ValidWorld(e) && (g.policy.OnlineWeighting? ==> SelectsOnce(e)) && Distinct(Wallets(c.prev))
    ensures var signal := SignalAt(e, p, g, ss, c, asOf);
      signal.Live? ==> signal.follow != [] && Distinct(Wallets(signal.follow))
  {
    var s := Surviving(e, p, g, ss, asOf);
    if s.Some? { StepDistinct(e, p, g.policy, c.online, c.prev, s.value, c.live, asOf); }
  }

  lemma AdvancePrev(p: Params, g: GridPoint, c: Carry, asOf: int, signal: Signal, b: Request -> seq<PnlRow>)
    ensures Advance(p, g, c, asOf, signal, b).prev == if signal.Live? then signal.follow else []
  {
  }

  lemma StepFollowsOnce(e: World, p: Params, g: GridPoint, ss: seq<Row>, c: Carry, asOf: int)
    requires ValidWorld(e) && (g.policy.OnlineWeighting? ==> SelectsOnce(e)) && Distinct(Wallets(c.prev))
    ensures Distinct(Wallets(Step(e, p, g, ss, c, asOf).prev))
  {
    SignalDistinct(e, p, g, ss, c, asOf);
    AdvancePrev(p, g, c, asOf, SignalAt(e, p, g, ss, c, asOf), e.backtest);
  }

  ghost predicate Once(c: Carry) { Distinct(Wallets(c.prev)) }

  lemma OnceAfter(e: World, p: Params, g: GridPoint, ss: seq<Row>, cutoffs: seq<int>, i: nat, c: Carry, d: Carry)
    requires ValidWorld(e) && (g.policy.OnlineWeighting? ==> SelectsOnce(e)) && i < |cutoffs| && Once(c)
    requires c == Before(e, p, g, ss, cutoffs, i) && d == Before(e, p, g, ss, cutoffs, i + 1)
    ensures Once(d)
  {
    BeforeStep(e, p, g, ss, cutoffs, i);
    StepFollowsOnce(e, p, g, ss, c, cutoffs[i]);
  }

  lemma {:induction false} FollowedOnce(e: World, p: Params, g: GridPoint, ss: seq<Row>, cutoffs: seq<int>, i: nat)
    requires ValidWorld(e) && (g.policy.OnlineWeighting? ==> SelectsOnce(e)) && i <= |cutoffs|
    ensures Once(Before(e, p, g, ss, cutoffs, i))
  {
    if i > 0 {
      FollowedOnce(e, p, g, ss, cutoffs, i - 1);
      OnceAfter(e, p, g, ss, cutoffs, i - 1, Before(e, p, g, ss, cutoffs, i - 1), Before(e, p, g, ss, cutoffs, i));
    } else {
      OnceAtStart(e, p, g, ss, cutoffs);
    }
  }

  lemma OnceAtStart(e: World, p: Params, g: GridPoint, ss: seq<Row>, cutoffs: seq<int>)
    requires ValidWorld(e)
    ensures Once(Before(e, p, g, ss, cutoffs, 0))
  {
  }

  // ---------- one period ----------

  /** From `c` to `d` in a period with a signal: one backtest of the followed wallets, its rows
      counted and collected, and their P&L, at the followed weights, earned net of the charge. */
  ghost predicate LivePeriod(e: World, p: Params, g: GridPoint, c: Carry, d: Carry, asOf: int, q: Request, window: seq<PnlRow>, x: real) {
    && Booked(c, d, q, window, x)
    && Asks(p, g.criteria, q, Wallets(d.prev), asOf)
    && Confined(window, e.backtest(q), asOf, p.horizonSecs)
    && Collected(c.live, d.live, window)
    && x + g.churnCost * Churn(c.prev, d.prev) == RowPnl(window, d.prev)
  }

  ghost predicate Booked(c: Carry, d: Carry, q: Request, window: seq<PnlRow>, x: real) {
    && d.requests == c.requests + [q] && d.counted == c.counted + [window] && d.earned == c.earned + [x]
    && d.finalFollow == d.prev
  }

  /** A period without a signal: nothing asked, counted, collected or earned. */
  ghost predicate IdlePeriod(c: Carry, d: Carry) {
    && d.requests == c.requests && d.counted == c.counted + [[]] && d.live == c.live
    && d.earned == c.earned + [0.0] && d.finalFollow == []
  }

  lemma RequestAsks(p: Params, g: GridPoint, follow: Follow, asOf: int)
    ensures Asks(p, g.criteria, RequestFor(p, g, follow, asOf), Wallets(follow), asOf)
  {
    SortInOrder(Wallets(follow));
  }

  lemma AdvanceLive(p: Params, g: GridPoint, c: Carry, asOf: int, signal: Signal, b: Request -> seq<PnlRow>)
    requires signal.Live?
    ensures var d := Advance(p, g, c, asOf, signal, b);
      var q := RequestFor(p, g, signal.follow, asOf); var window := Window(b(q), asOf, p.horizonSecs);
      && Booked(c, d, q, window, NetPnl(g, c.prev, signal.follow, window))
      && d.prev == signal.follow && d.live == c.live + Realized(window)
  {
  }

  lemma LiveStep(e: World, p: Params, g: GridPoint, c: Carry, asOf: int, signal: Signal)
    requires signal.Live? && Distinct(Wallets(signal.follow))
    ensures exists q, window, x :: LivePeriod(e, p, g, c, Advance(p, g, c, asOf, signal, e.backtest), asOf, q, window, x)
  {
    var d, q := Advance(p, g, c, asOf, signal, e.backtest), RequestFor(p, g, signal.follow, asOf);
    var window := Window(e.backtest(q), asOf, p.horizonSecs);
    AdvanceLive(p, g, c, asOf, signal, e.backtest);
    LiveHolds(e, p, g, c, d, asOf, window);
    assert LivePeriod(e, p, g, c, d, asOf, q, window, NetPnl(g, c.prev, d.prev, window));
  }

  lemma LiveHolds(e: World, p: Params, g: GridPoint, c: Carry, d: Carry, asOf: int, window: seq<PnlRow>)
    requires Distinct(Wallets(d.prev)) && d.live == c.live + Realized(window)
    requires window == Window(e.backtest(RequestFor(p, g, d.prev, asOf)), asOf, p.horizonSecs)
    ensures Asks(p, g.criteria, RequestFor(p, g, d.prev, asOf), Wallets(d.prev), asOf)
    ensures Confined(window, e.backtest(RequestFor(p, g, d.prev, asOf)), asOf, p.horizonSecs)
    ensures Collected(c.live, d.live, window)
    ensures NetPnl(g, c.prev, d.prev, window) + g.churnCost * Churn(c.prev, d.prev) == RowPnl(window, d.prev)
  {
    RequestAsks(p, g, d.prev, asOf);
    WindowIsConfined(e.backtest(RequestFor(p, g, d.prev, asOf)), asOf, p.horizonSecs);
    LiveIsCollected(c.live, window);
    NetByRow(g, c.prev, d.prev, window);
  }

  lemma NetByRow(g: GridPoint, held: Follow, follow: Follow, window: seq<PnlRow>)
    requires Distinct(Wallets(follow))
    ensures NetPnl(g, held, follow, window) + g.churnCost * Churn(held, follow) == RowPnl(window, follow)
  {
    var charge := g.churnCost * Churn(held, follow);
    assert NetPnl(g, held, follow, window) == WindowPnl(window, follow) - charge;
    WindowPnlByRow(window, follow);
  }

  /** One period, live or idle. */
  ghost predicate Period(e: World, p: Params, g: GridPoint, c: Carry, d: Carry, asOf: int) {
    if d.prev == [] then IdlePeriod(c, d) else exists q, window, x :: LivePeriod(e, p, g, c, d, asOf, q, window, x)
  }

  lemma AdvanceIsPeriod(e: World, p: Params, g: GridPoint, c: Carry, asOf: int, signal: Signal)
    requires signal.Live? ==> signal.follow != [] && Distinct(Wallets(signal.follow))
    ensures Period(e, p, g, c, Advance(p, g, c, asOf, signal, e.backtest), asOf)
  {
    AdvancePrev(p, g, c, asOf, signal, e.backtest);
    if signal.Live? { LiveStep(e, p, g, c, asOf, signal); }
  }

  /** Every step of every run is such a period. */
  lemma StepIsPeriod(e: World, p: Params, g: GridPoint, ss: seq<Row>, cutoffs: seq<int>, i: nat)
    requires ValidWorld(e) && (g.policy.OnlineWeighting? ==> SelectsOnce(e)) && i < |cutoffs|
    ensures Period(e, p, g, Before(e, p, g, ss, cutoffs, i), Before(e, p, g, ss, cutoffs, i + 1), cutoffs[i])
  {
    var c := Before(e, p, g, ss, cutoffs, i);
    FollowedOnce(e, p, g, ss, cutoffs, i);
    BeforeStep(e, p, g, ss, cutoffs, i);
    SignalDistinct(e, p, g, ss, c, cutoffs[i]);
    AdvanceIsPeriod(e, p, g, c, cutoffs[i], SignalAt(e, p, g, ss, c, cutoffs[i]));
  }

  // ---------- every period of a run ----------

  lemma {:induction false} Prefixes(e: World, p: Params, g: GridPoint, ss: seq<Row>, cutoffs: seq<int>, i: nat, n: nat)
    requires ValidWorld(e) && i <= n <= |cutoffs|
    ensures Before(e, p, g, ss, cutoffs, i).earned <= Before(e, p, g, ss, cutoffs, n).earned
    ensures Before(e, p, g, ss, cutoffs, i).counted <= Before(e, p, g, ss, cutoffs, n).counted
  {
    if i < n {
      Prefixes(e, p, g, ss, cutoffs, i, n - 1);
      BeforeStep(e, p, g, ss, cutoffs, n - 1);
    }
  }

  /** Period `i` of the finished run `c` accounts for its return. */
  ghost predicate Earns(g: GridPoint, c: Carry, held: Follow, follow: Follow, i: nat) {
    && i < |c.earned| == |c.counted|
    && (follow != [] ==> c.earned[i] + g.churnCost * Churn(held, follow) == RowPnl(c.counted[i], follow))
    && (follow == [] ==> c.earned[i] == 0.0 && c.counted[i] == [])
  }

  lemma PrefixAt<T>(a: seq<T>, x: T, b: seq<T>)
    requires a + [x] <= b
    ensures |a| < |b| && b[|a|] == x
  {
    assert (a + [x])[|a|] == x;
  }

  lemma LiveEarns(e: World, p: Params, g: GridPoint, a: Carry, b: Carry, c: Carry, asOf: int, q: Request, window: seq<PnlRow>, x: real)
    requires b.prev != [] && LivePeriod(e, p, g, a, b, asOf, q, window, x)
    requires |a.earned| == |a.counted| && b.earned <= c.earned && b.counted <= c.counted && |c.earned| == |c.counted|
    ensures Earns(g, c, a.prev, b.prev, |a.earned|)
  {
    PrefixAt(a.earned, x, c.earned);
    PrefixAt(a.counted, window, c.counted);
  }

  lemma PeriodEarns(e: World, p: Params, g: GridPoint, a: Carry, b: Carry, c: Carry, asOf: int, i: nat)
    requires Period(e, p, g, a, b, asOf) && |a.earned| == |a.counted| == i
    requires b.earned <= c.earned && b.counted <= c.counted && |c.earned| == |c.counted|
    ensures Earns(g, c, a.prev, b.prev, i)
  {
    if b.prev == [] {
      PrefixAt(a.earned, 0.0, c.earned);
      PrefixAt(a.counted, [], c.counted);
    } else {
      var q, window, x :| LivePeriod(e, p, g, a, b, asOf, q, window, x);
      LiveEarns(e, p, g, a, b, c, asOf, q, window, x);
    }
  }

  /** The return of every period, whatever the policy: the P&L of the rows counted in it, at the
      weights followed in it, less the charge on the move from the set held before; nothing in a
      period without a signal. */
  lemma PeriodReturn(e: World, p: Params, g: GridPoint, ss: seq<Row>, cutoffs: seq<int>, i: nat)
    requires ValidWorld(e) && (g.policy.OnlineWeighting? ==> SelectsOnce(e)) && i < |cutoffs|
    ensures Earns(g, RunFrom(e, p, g, ss, Start(), cutoffs),
                  Before(e, p, g, ss, cutoffs, i).prev, Before(e, p, g, ss, cutoffs, i + 1).prev, i)
  {
    assert cutoffs[..|cutoffs|] == cutoffs;
    RunAccounts(e, p, g, ss, cutoffs, |cutoffs|);
    RunAccounts(e, p, g, ss, cutoffs, i);
    StepIsPeriod(e, p, g, ss, cutoffs, i);
    Prefixes(e, p, g, ss, cutoffs, i + 1, |cutoffs|);
    PeriodEarns(e, p, g, Before(e, p, g, ss, cutoffs, i), Before(e, p, g, ss, cutoffs, i + 1),
                Before(e, p, g, ss, cutoffs, |cutoffs|), cutoffs[i], i);
  }

  ghost predicate HardPolicy(policy: Policy) { !policy.OnlineWeighting? }

  /** Every wallet at weight one, and at most `k` of them. */
  ghost predicate HardSet(f: Follow, k: nat) { f == Hard(Wallets(f)) && |f| <= k }

  lemma HardIsHard(ws: seq<Wallet>, k: nat)
    requires |ws| <= k
    ensures HardSet(Hard(ws), k)
  {
    WalletsOfHard(ws);
  }

  lemma StepIsHard(e: World, p: Params, policy: Policy, online: Option<OnlineState>, prev: Follow,
                   scores: WalletScores, live: seq<PnlRow>, asOf: int)
    requires ValidScores(scores.ranks) && HardPolicy(policy)
    ensures HardSet(PolicyStep(e, p, policy, online, prev, scores, live, asOf).0, p.k)
  {
    var base := Knockout(p.k, Wallets(prev), scores.ranks, DemoteSet(e, live, asOf));
    match policy
    case FullRerank => HardIsHard(Take(scores.ranks.order, p.k), p.k);
    case KnockoutBackfill => HardIsHard(base, p.k);
    case HybridDisplacement =>
      HardIsHard(Take(Hybrid(Rules(scores.ranks, Trajectory.Periods(live, asOf), p.provenMin, p.margin), base), p.k), p.k);
  }

  lemma StepHardlyFollows(e: World, p: Params, g: GridPoint, ss: seq<Row>, c: Carry, asOf: int)
    requires ValidWorld(e) && HardPolicy(g.policy)
    ensures HardSet(Step(e, p, g, ss, c, asOf).prev, p.k)
  {
    var s := Surviving(e, p, g, ss, asOf);
    if s.Some? { StepIsHard(e, p, g.policy, c.online, c.prev, s.value, c.live, asOf); }
    AdvancePrev(p, g, c, asOf, SignalAt(e, p, g, ss, c, asOf), e.backtest);
    HardIsHard([], p.k);
  }

  lemma HardlyFollowed(e: World, p: Params, g: GridPoint, ss: seq<Row>, cutoffs: seq<int>, i: nat)
    requires ValidWorld(e) && HardPolicy(g.policy) && i <= |cutoffs|
    ensures HardSet(Before(e, p, g, ss, cutoffs, i).prev, p.k)
  {
    if i > 0 {
      BeforeStep(e, p, g, ss, cutoffs, i - 1);
      StepHardlyFollows(e, p, g, ss, Before(e, p, g, ss, cutoffs, i - 1), cutoffs[i - 1]);
    } else {
      HardIsHard([], p.k);
    }
  }

  /** The rows of wallets of `ws`, added up. */
  function HeldPnl(window: seq<PnlRow>, ws: seq<Wallet>): real {
    if window == [] then 0.0
    else
      var r := window[|window| - 1];
      HeldPnl(window[..|window| - 1], ws) + if r.wallet in ws then r.realized + r.unrealized else 0.0
  }

  lemma {:induction false} HardRowPnl(window: seq<PnlRow>, ws: seq<Wallet>)
    ensures RowPnl(window, Hard(ws)) == HeldPnl(window, ws)
  {
    if window != [] {
      HardRowPnl(window[..|window| - 1], ws);
      HardWeight(ws, window[|window| - 1].wallet);
    }
  }

  /** What the counted rows of the followed wallets made, less the charge for each wallet newly
      admitted. */
  ghost predicate EarnsHard(g: GridPoint, c: Carry, held: seq<Wallet>, follow: seq<Wallet>, i: nat) {
    && i < |c.earned| == |c.counted|
    && c.earned[i] + g.churnCost * |Elems(follow) - Elems(held)| as real == HeldPnl(c.counted[i], follow)
  }

  lemma HardCharge(held: seq<Wallet>, follow: seq<Wallet>)
    requires Distinct(follow)
    ensures Churn(Hard(held), Hard(follow)) == |Elems(follow) - Elems(held)| as real
  {
    HardChurn(held, follow);
    CountOutside(follow, Elems(held));
  }

  lemma SameBalance(x: real, cost: real, a: real, b: real, p: real, q: real)
    requires x + cost * a == p && a == b && p == q
    ensures x + cost * b == q
  {
  }

  lemma IdleHardEarns(g: GridPoint, c: Carry, held: seq<Wallet>, i: nat)
    requires Earns(g, c, Hard(held), [], i)
    ensures EarnsHard(g, c, held, [], i)
  {
    assert Elems([]) - Elems(held) == {};
  }

  lemma HardEarns(g: GridPoint, c: Carry, held: seq<Wallet>, follow: seq<Wallet>, i: nat)
    requires Earns(g, c, Hard(held), Hard(follow), i) && Distinct(follow)
    ensures EarnsHard(g, c, held, follow, i)
  {
    if follow == [] {
      assert Hard(follow) == [];
      IdleHardEarns(g, c, held, i);
    } else {
      assert |Hard(follow)| == |follow|;
      HardCharge(held, follow);
      HardRowPnl(c.counted[i], follow);
      SameBalance(c.earned[i], g.churnCost, Churn(Hard(held), Hard(follow)), |Elems(follow) - Elems(held)| as real,
                  RowPnl(c.counted[i], Hard(follow)), HeldPnl(c.counted[i], follow));
    }
  }

  /** For the hard-set policies this is the return of every period, with a signal or without. */
  lemma HardPeriodReturn(e: World, p: Params, g: GridPoint, ss: seq<Row>, cutoffs: seq<int>, i: nat)
    requires ValidWorld(e) && HardPolicy(g.policy) && i < |cutoffs|
    ensures EarnsHard(g, RunFrom(e, p, g, ss, Start(), cutoffs),
                      Wallets(Before(e, p, g, ss, cutoffs, i).prev), Wallets(Before(e, p, g, ss, cutoffs, i + 1).prev), i)
  {
    PeriodReturn(e, p, g, ss, cutoffs, i);
    FollowedOnce(e, p, g, ss, cutoffs, i + 1);
    HardlyFollowed(e, p, g, ss, cutoffs, i);
    HardlyFollowed(e, p, g, ss, cutoffs, i + 1);
    HardEarns(g, RunFrom(e, p, g, ss, Start(), cutoffs),
              Wallets(Before(e, p, g, ss, cutoffs, i).prev), Wallets(Before(e, p, g, ss, cutoffs, i + 1).prev), i);
  }

  lemma ElemsLast(ws: seq<Wallet>, s: set<Wallet>)
    requires Distinct(ws) && ws != []
    ensures var n := |ws| - 1; |Elems(ws) - s| == |Elems(ws[..n]) - s| + if ws[n] in s then 0 else 1
  {
    var n := |ws| - 1;
    assert ws[n] !in ws[..n];
    if ws[n] in s {
      assert Elems(ws) - s == Elems(ws[..n]) - s;
    } else {
      assert Elems(ws) - s == (Elems(ws[..n]) - s) + {ws[n]};
    }
  }

  lemma {:induction false} CountOutside(ws: seq<Wallet>, s: set<Wallet>)
    requires Distinct(ws)
    ensures |Outside(ws, s)| == |Elems(ws) - s|
  {
    if ws != [] {
      CountOutside(ws[..|ws| - 1], s);
      ElemsLast(ws, s);
    } else {
      assert Elems(ws) - s == {};
    }
  }
}
