/** One config's walk-forward trajectory (`run_trajectory`), as a function of the cutoffs.

    Estimator scores, the deflation gate, the backtest, the demotion test and the online
    selector are parameters (`World`); everything the loop itself does is modelled. */
module Trajectory {
  import opened Basics
  import opened Policies
  import opened Displacement
  import Text

  /** A materialised label (`SuffStats` row). */
  datatype Row = Row(wallet: Wallet, entry: int, resolved: int, ttrRef: int, price: real)

  datatype Criteria = Criteria(
    activeWithin: int, ttrHours: real, priceMin: real, priceMax: real, halfLife: real, minTrl: int)

  datatype Policy = FullRerank | KnockoutBackfill | HybridDisplacement | OnlineWeighting

  datatype GridPoint = GridPoint(
    estimator: string, deflator: string, policy: Policy, criteria: Criteria, churnCost: real)

  /** One row of the backtest's per-period P&L. */
  datatype PnlRow = PnlRow(wallet: Wallet, periodEnd: int, realized: real, unrealized: real, isMtm: bool)

  datatype Holding = Holding(wallet: Wallet, weight: real)

  type Follow = seq<Holding>

  /** An estimator's output: ranks, and the scores the online selector reads. */
  datatype WalletScores = WalletScores(ranks: Scores, score: map<Wallet, real>)

  type OnlineState = map<Wallet, real>

  /** The part of the criteria that can confine the forward copy. */
  datatype Band = Band(ttrHours: real, priceMin: real, priceMax: real)

  /** A backtest request: wallets, stake, forward window, optional filter. */
  datatype Request = Request(wallets: seq<Wallet>, flatUsd: real, from: int, to: int, filter: Option<Band>)

  datatype World = World(
    uniqueness: seq<Row> -> seq<real>,
    score: (string, seq<Row>, set<Wallet>, int, seq<real>) -> WalletScores,
    deflate: (WalletScores, seq<Row>, string, nat, seq<real>) -> WalletScores,
    backtest: Request -> seq<PnlRow>,
    demote: seq<real> -> bool,
    select: (WalletScores, nat, Option<OnlineState>) -> (Follow, OnlineState))

  datatype Params = Params(
    trainSecs: int, horizonSecs: int, k: nat, margin: int, provenMin: int, flatUsd: real, forwardFilter: bool)

  /** The estimators rank each wallet once, from 1 upwards. */
  ghost predicate ValidWorld(e: World) {
    && (forall a, b, c, d, f {:trigger e.score(a, b, c, d, f)} :: ValidScores(e.score(a, b, c, d, f).ranks))
    && (forall a, b, c, d, f {:trigger e.deflate(a, b, c, d, f)} :: ValidScores(e.deflate(a, b, c, d, f).ranks))
  }

  // ---------- the frame: criteria slice, walk-forward split, eligibility ----------

  function Filter<T>(s: seq<T>, keep: T -> bool): seq<T> {
    if s == [] then []
    else Filter(s[..|s| - 1], keep) + if keep(s[|s| - 1]) then [s[|s| - 1]] else []
  }

  function Slice(ss: seq<Row>, c: Criteria): seq<Row> {
    Filter(ss, (r: Row) => (r.ttrRef - r.entry) as real <= c.ttrHours * 3600.0 && c.priceMin <= r.price <= c.priceMax)
  }

  function InSample(ss: seq<Row>, asOf: int, trainSecs: int): seq<Row> {
    Filter(ss, (r: Row) => asOf - trainSecs <= r.entry < asOf && r.resolved <= asOf)
  }

  function OfWallet(ss: seq<Row>, w: Wallet): seq<Row> { Filter(ss, (r: Row) => r.wallet == w) }

  /** Enough in-sample positions, and a recent one when the recency gate is on. */
  predicate Passes(ss: seq<Row>, c: Criteria, asOf: int, w: Wallet) {
    && |OfWallet(ss, w)| >= c.minTrl
    && (c.activeWithin > 0 ==> exists r :: r in OfWallet(ss, w) && r.entry >= asOf - c.activeWithin)
  }

  function Eligible(ss: seq<Row>, c: Criteria, asOf: int): set<Wallet> {
    set r | r in ss && Passes(ss, c, asOf, r.wallet) :: r.wallet
  }

  // ---------- demotion evidence ----------

  /** Periods closed by the cutoff. */
  function Closed(live: seq<PnlRow>, asOf: int): seq<PnlRow> {
    Filter(live, (r: PnlRow) => r.periodEnd <= asOf)
  }

  function RealizedOf(live: seq<PnlRow>, w: Wallet): seq<real> {
    if live == [] then []
    else
      var r := live[|live| - 1];
      RealizedOf(live[..|live| - 1], w) + if r.wallet == w then [r.realized] else []
  }

  predicate ShouldDemote(e: World, live: seq<PnlRow>, asOf: int, w: Wallet) {
    e.demote(RealizedOf(Closed(live, asOf), w))
  }

  /** One pass over the wallets with a closed period. */
  function DemoteSet(e: World, live: seq<PnlRow>, asOf: int): set<Wallet> {
    set r | r in Closed(live, asOf) && e.demote(RealizedOf(Closed(live, asOf), r.wallet)) :: r.wallet
  }

  function Periods(live: seq<PnlRow>, asOf: int): map<Wallet, nat> {
    var closed := Closed(live, asOf);
    map r | r in closed :: r.wallet := |RealizedOf(closed, r.wallet)|
  }

  // ---------- policy step ----------

  function Wallets(f: Follow): seq<Wallet> { seq(|f|, i requires 0 <= i < |f| => f[i].wallet) }

  function Hard(ws: seq<Wallet>): Follow { seq(|ws|, i requires 0 <= i < |ws| => Holding(ws[i], 1.0)) }

  function PolicyStep(e: World, p: Params, policy: Policy, online: Option<OnlineState>, prev: Follow,
                      scores: WalletScores, live: seq<PnlRow>, asOf: int): (Follow, Option<OnlineState>)
    requires ValidScores(scores.ranks)
  {
    match policy
    case FullRerank => (Hard(Take(scores.ranks.order, p.k)), online)
    case KnockoutBackfill =>
      (Hard(Knockout(p.k, Wallets(prev), scores.ranks, DemoteSet(e, live, asOf))), online)
    case HybridDisplacement =>
      var base := Knockout(p.k, Wallets(prev), scores.ranks, DemoteSet(e, live, asOf));
      var rules := Rules(scores.ranks, Periods(live, asOf), p.provenMin, p.margin);
      (Hard(Take(Hybrid(rules, base), p.k)), online)
    case OnlineWeighting =>
      var (follow, state) := e.select(scores, p.k, online);
      (follow, Some(state))
  }

  // ---------- churn and the window's P&L ----------

  function WeightOf(f: Follow, w: Wallet): real {
    if f == [] then 0.0
    else if f[|f| - 1].wallet == w then f[|f| - 1].weight
    else WeightOf(f[..|f| - 1], w)
  }

  function Pos(x: real): real { if x > 0.0 then x else 0.0 }

  /** Positive part of the weight movement of every wallet in `f`, from its weight in `g`. */
  function Increase(g: Follow, f: Follow): real {
    if f == [] then 0.0
    else Increase(g, f[..|f| - 1]) + Pos(f[|f| - 1].weight - WeightOf(g, f[|f| - 1].wallet))
  }

  /** The same movement of the wallets of `g` that left, down to zero. */
  function Leavers(g: Follow, f: Follow): real {
    if g == [] then 0.0
    else
      var h := g[|g| - 1];
      Leavers(g[..|g| - 1], f) + if h.wallet in Wallets(f) then 0.0 else Pos(0.0 - h.weight)
  }

  function Churn(prev: Follow, follow: Follow): real { Increase(prev, follow) + Leavers(prev, follow) }

  function WalletPnl(window: seq<PnlRow>, w: Wallet): real {
    if window == [] then 0.0
    else
      var r := window[|window| - 1];
      WalletPnl(window[..|window| - 1], w) + if r.wallet == w then r.realized + r.unrealized else 0.0
  }

  function HoldingPnl(window: seq<PnlRow>, h: Holding): real { WalletPnl(window, h.wallet) * h.weight }

  function WindowPnl(window: seq<PnlRow>, follow: Follow): real {
    if follow == [] then 0.0
    else
      var h := follow[|follow| - 1];
      WindowPnl(window, follow[..|follow| - 1]) + HoldingPnl(window, h)
  }

  /** A period's return: the window's P&L net of the churn charge. */
  function NetPnl(g: GridPoint, prev: Follow, follow: Follow, window: seq<PnlRow>): real {
    WindowPnl(window, follow) - g.churnCost * Churn(prev, follow)
  }

  // ---------- the loop ----------

  /** What the loop carries.  `counted` and `requests` are history: the P&L rows that entered
      each period's return, and the backtests asked for. */
  datatype Carry = Carry(
    prev: Follow,
    online: Option<OnlineState>,
    live: seq<PnlRow>,
    earned: seq<real>,
    finalFollow: Follow,
    finalScores: Option<WalletScores>,
    counted: seq<seq<PnlRow>>,
    requests: seq<Request>)

  function Start(): Carry { Carry([], None, [], [], [], None, [], []) }

  /** What a cutoff offers: nothing, or a follow set with its scores and selector state. */
  datatype Signal = NoSignal | Live(follow: Follow, scores: WalletScores, online: Option<OnlineState>)

  /** The scores that survive the gates at a cutoff; none if no wallet is eligible. */
  function Surviving(e: World, p: Params, g: GridPoint, ss: seq<Row>, asOf: int): Option<WalletScores> {
    var inSample := InSample(ss, asOf, p.trainSecs);
    var eligible := Eligible(inSample, g.criteria, asOf);
    if eligible == {} then None
    else
      var weights := e.uniqueness(inSample);
      var scores := e.score(g.estimator, inSample, eligible, asOf, weights);
      Some(e.deflate(scores, inSample, g.deflator, |scores.ranks.order|, weights))
  }

  /** What the policy makes of the surviving scores. */
  function SignalFrom(e: World, p: Params, g: GridPoint, s: WalletScores, c: Carry, asOf: int): Signal
    requires ValidScores(s.ranks)
  {
    if s.ranks.order == [] then NoSignal
    else
      var (follow, online) := PolicyStep(e, p, g.policy, c.online, c.prev, s, c.live, asOf);
      if follow == [] then NoSignal else Live(follow, s, online)
  }

  function SignalAt(e: World, p: Params, g: GridPoint, ss: seq<Row>, c: Carry, asOf: int): Signal
    requires ValidWorld(e)
  {
    var s := Surviving(e, p, g, ss, asOf);
    if s.None? then NoSignal else SignalFrom(e, p, g, s.value, c, asOf)
  }

  function BandOf(c: Criteria): Band { Band(c.ttrHours, c.priceMin, c.priceMax) }

  /** What the runner is asked, with the wallets sorted as in the memo key. */
  function RequestFor(p: Params, g: GridPoint, follow: Follow, asOf: int): Request {
    Request(SortWallets(Wallets(follow)), p.flatUsd, asOf, asOf + p.horizonSecs,
            if p.forwardFilter then Some(BandOf(g.criteria)) else None)
  }

  function Window(pnl: seq<PnlRow>, asOf: int, horizon: int): seq<PnlRow> {
    Filter(pnl, (r: PnlRow) => asOf < r.periodEnd <= asOf + horizon)
  }

  function Realized(window: seq<PnlRow>): seq<PnlRow> { Filter(window, (r: PnlRow) => !r.isMtm) }

  /** The loop body once the signal is known. */
  function Advance(p: Params, g: GridPoint, c: Carry, asOf: int, signal: Signal, backtest: Request -> seq<PnlRow>): Carry {
    match signal
    case NoSignal => Start().(live := c.live, earned := c.earned + [0.0], counted := c.counted + [[]],
                              requests := c.requests)
    case Live(follow, scores, online) =>
      var request := RequestFor(p, g, follow, asOf);
      var window := Window(backtest(request), asOf, p.horizonSecs);
      Carry(follow, online, c.live + Realized(window),
            c.earned + [NetPnl(g, c.prev, follow, window)],
            follow, Some(scores), c.counted + [window], c.requests + [request])
  }

  function Step(e: World, p: Params, g: GridPoint, ss: seq<Row>, c: Carry, asOf: int): Carry
    requires ValidWorld(e)
  {
    Advance(p, g, c, asOf, SignalAt(e, p, g, ss, c, asOf), e.backtest)
  }

  function RunFrom(e: World, p: Params, g: GridPoint, ss: seq<Row>, c: Carry, cutoffs: seq<int>): Carry
    requires ValidWorld(e)
  {
    if cutoffs == [] then c
    else Step(e, p, g, ss, RunFrom(e, p, g, ss, c, cutoffs[..|cutoffs| - 1]), cutoffs[|cutoffs| - 1])
  }

  function Run(e: World, p: Params, g: GridPoint, ss: seq<Row>, cutoffs: seq<int>): Carry
    requires ValidWorld(e)
  {
    RunFrom(e, p, g, Slice(ss, g.criteria), Start(), cutoffs)
  }

  // ---------- sorting wallets for the memo key ----------

  function InsertWallet(s: seq<Wallet>, w: Wallet): (r: seq<Wallet>)
    ensures multiset(r) == multiset(s) + multiset{w}
  {
    if s == [] then [w]
    else if Text.Less(w, s[0]) then [w] + s
    else
      assert s == [s[0]] + s[1..];
      [s[0]] + InsertWallet(s[1..], w)
  }

  function SortWallets(s: seq<Wallet>): (r: seq<Wallet>)
    ensures multiset(r) == multiset(s)
  {
    if s == [] then []
    else
      assert s == s[..|s| - 1] + [s[|s| - 1]];
      InsertWallet(SortWallets(s[..|s| - 1]), s[|s| - 1])
  }

  ghost predicate InOrder(s: seq<Wallet>) { forall i, j :: 0 <= i < j < |s| ==> !Text.Less(s[j], s[i]) }

  lemma {:induction false} InsertInOrder(s: seq<Wallet>, w: Wallet)
    requires InOrder(s)
    ensures InOrder(InsertWallet(s, w))
  {
    if s != [] {
      if Text.Less(w, s[0]) {
        Text.Asymmetric(w, s[0]);
        forall j | 0 < j < |s| ensures !Text.Less(s[j], w) {
          if Text.Less(s[j], w) { Text.Transitive(s[j], w, s[0]); }
        }
      } else {
        var t := InsertWallet(s[1..], w);
        InsertInOrder(s[1..], w);
        forall j | 0 <= j < |t| ensures !Text.Less(t[j], s[0]) {
          assert t[j] in multiset(t);
          assert t[j] == w || t[j] in s[1..];
        }
      }
    }
  }

  lemma {:induction false} SortInOrder(s: seq<Wallet>)
    ensures InOrder(SortWallets(s))
  {
    if s != [] {
      SortInOrder(s[..|s| - 1]);
      InsertInOrder(SortWallets(s[..|s| - 1]), s[|s| - 1]);
    }
  }

  lemma SameHead(a: seq<Wallet>, b: seq<Wallet>)
    requires InOrder(a) && InOrder(b) && a != [] && b != [] && multiset(a) == multiset(b)
    ensures a[0] == b[0]
  {
    assert a[0] in multiset(b) && b[0] in multiset(a);
    assert !Text.Less(a[0], b[0]) by { var i :| 0 <= i < |b| && b[i] == a[0]; Text.Asymmetric(b[0], b[0]); }
    assert !Text.Less(b[0], a[0]) by { var i :| 0 <= i < |a| && a[i] == b[0]; Text.Asymmetric(a[0], a[0]); }
    if a[0] != b[0] { Text.Connected(a[0], b[0]); }
  }

  lemma TailMultiset(a: seq<Wallet>)
    requires a != []
    ensures multiset(a[1..]) == multiset(a) - multiset{a[0]}
  {
    assert a == [a[0]] + a[1..];
  }

  lemma {:induction false} OrderIsUnique(a: seq<Wallet>, b: seq<Wallet>)
    requires InOrder(a) && InOrder(b) && multiset(a) == multiset(b)
    ensures a == b
  {
    assert |a| == |multiset(a)| == |b|;
    if a != [] {
      SameHead(a, b);
      TailMultiset(a);
      TailMultiset(b);
      OrderIsUnique(a[1..], b[1..]);
      assert a == [a[0]] + a[1..] && b == [b[0]] + b[1..];
    }
  }

  /** Two requests share a memo entry exactly when they follow the same wallets, in whatever
      order, at the same cutoff, and the filter, if on, is the same band. */
  lemma SharedEntry(p: Params, g: GridPoint, g': GridPoint, f: Follow, f': Follow, asOf: int, asOf': int)
    ensures RequestFor(p, g, f, asOf) == RequestFor(p, g', f', asOf') <==>
      && multiset(Wallets(f)) == multiset(Wallets(f')) && asOf == asOf'
      && (p.forwardFilter ==> BandOf(g.criteria) == BandOf(g'.criteria))
  {
    SortInOrder(Wallets(f));
    SortInOrder(Wallets(f'));
    if multiset(Wallets(f)) == multiset(Wallets(f')) {
      OrderIsUnique(SortWallets(Wallets(f)), SortWallets(Wallets(f')));
    }
  }

  /** The churn cost changes nothing but the returns: two configs that differ only in it follow
      the same sets and ask for the same backtests, so the memo runs each of them once. */
  lemma {:induction false} ChurnAxisShares(e: World, p: Params, g: GridPoint, cost: real, ss: seq<Row>, cutoffs: seq<int>)
    requires ValidWorld(e)
    ensures var c, d := RunFrom(e, p, g, ss, Start(), cutoffs), RunFrom(e, p, g.(churnCost := cost), ss, Start(), cutoffs);
      d.(earned := c.earned) == c
  {
    if cutoffs != [] {
      var n := |cutoffs| - 1;
      ChurnAxisShares(e, p, g, cost, ss, cutoffs[..n]);
      var c := RunFrom(e, p, g, ss, Start(), cutoffs[..n]);
      var d := RunFrom(e, p, g.(churnCost := cost), ss, Start(), cutoffs[..n]);
      assert SignalAt(e, p, g, ss, c, cutoffs[n]) == SignalAt(e, p, g.(churnCost := cost), ss, d, cutoffs[n]);
    }
  }

  lemma {:induction false} IncreaseNonNegative(g: Follow, f: Follow)
    ensures Increase(g, f) >= 0.0
  {
    if f != [] { IncreaseNonNegative(g, f[..|f| - 1]); }
  }

  lemma {:induction false} LeaversNonNegative(g: Follow, f: Follow)
    ensures Leavers(g, f) >= 0.0
  {
    if g != [] { LeaversNonNegative(g[..|g| - 1], f); }
  }

  lemma HigherCharge(a: real, b: real, x: real)
    requires a <= b && x >= 0.0
    ensures a * x <= b * x
  {
  }

  lemma NetFalls(g: GridPoint, cost: real, prev: Follow, follow: Follow, window: seq<PnlRow>)
    requires g.churnCost <= cost
    ensures NetPnl(g.(churnCost := cost), prev, follow, window) <= NetPnl(g, prev, follow, window)
    ensures Churn(prev, follow) == 0.0 ==> NetPnl(g.(churnCost := cost), prev, follow, window) == NetPnl(g, prev, follow, window)
  {
    IncreaseNonNegative(prev, follow);
    LeaversNonNegative(prev, follow);
    HigherCharge(g.churnCost, cost, Churn(prev, follow));
  }

  ghost predicate Below(xs: seq<real>, ys: seq<real>) {
    |xs| == |ys| && forall i :: 0 <= i < |xs| ==> xs[i] <= ys[i]
  }

  /** A higher churn cost raises no period's return, in any run. */
  lemma {:induction false} CostLowersReturns(e: World, p: Params, g: GridPoint, cost: real, ss: seq<Row>, cutoffs: seq<int>)
    requires ValidWorld(e) && g.churnCost <= cost
    ensures Below(RunFrom(e, p, g.(churnCost := cost), ss, Start(), cutoffs).earned, RunFrom(e, p, g, ss, Start(), cutoffs).earned)
  {
    if cutoffs != [] {
      var n, g' := |cutoffs| - 1, g.(churnCost := cost);
      var c, d := RunFrom(e, p, g, ss, Start(), cutoffs[..n]), RunFrom(e, p, g', ss, Start(), cutoffs[..n]);
      CostLowersReturns(e, p, g, cost, ss, cutoffs[..n]);
      ChurnAxisShares(e, p, g, cost, ss, cutoffs[..n]);
      var signal := SignalAt(e, p, g, ss, c, cutoffs[n]);
      assert signal == SignalAt(e, p, g', ss, d, cutoffs[n]);
      AdvanceFalls(p, g, cost, c, d, cutoffs[n], signal, e.backtest);
    }
  }

  lemma AdvanceFalls(p: Params, g: GridPoint, cost: real, c: Carry, d: Carry, asOf: int, signal: Signal, backtest: Request -> seq<PnlRow>)
    requires g.churnCost <= cost && d.(earned := c.earned) == c && Below(d.earned, c.earned)
    ensures Below(Advance(p, g.(churnCost := cost), d, asOf, signal, backtest).earned, Advance(p, g, c, asOf, signal, backtest).earned)
  {
    if signal.Live? {
      var window := Window(backtest(RequestFor(p, g, signal.follow, asOf)), asOf, p.horizonSecs);
      NetFalls(g, cost, c.prev, signal.follow, window);
    }
  }
}
