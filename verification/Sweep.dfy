/** A trajectory through memo caches and policy objects (`run_trajectory` with its cached helpers), and
    that it reports the uncached run. */
module Sweep {
  import opened Basics
  import opened Policies
  import opened Displacement
  import opened Trajectory

  const NO_DEFLATION := "none"

  // ---------- memo caches ----------

  /** A memo used by one thread at a time; `SingleFlight.SoloCall` says that the single-flight
      cache then behaves like this one. */
  class Memo<K(==), V> {
    var table: map<K, V>
    var calls: nat
    var lookups: nat

    /** Every stored value is the pure function of its key, and `calls` counts the keys. */
    ghost predicate Valid(f: K -> V)
      reads this
    {
      calls == |table| && forall k :: k in table ==> table[k] == f(k)
    }

    constructor ()
      ensures table == map[] && calls == 0 && lookups == 0
    {
      table, calls, lookups := map[], 0, 0;
    }

    method GetOrCompute(key: K, ghost f: K -> V, compute: () -> V) returns (v: V)
      requires Valid(f) && compute() == f(key)
      modifies this
      ensures Valid(f) && v == f(key)
      ensures table == old(table)[key := f(key)] && table.Keys == old(table).Keys + {key} && lookups == old(lookups) + 1
    {
      lookups := lookups + 1;
      if key in table {
        v := table[key];
      } else {
        v := compute();
        table := table[key := v];
        calls := calls + 1;
      }
    }
  }

  // ---------- what each cache memoises ----------

  type UniquenessKey = (Criteria, int)
  type ScoreKey = (string, Criteria, int)
  type DeflationKey = (string, Criteria, int, string, nat)

  function InSampleOf(p: Params, ss: seq<Row>, c: Criteria, asOf: int): seq<Row> {
    InSample(Slice(ss, c), asOf, p.trainSecs)
  }

  function UniquenessOf(e: World, p: Params, ss: seq<Row>): UniquenessKey -> seq<real> {
    (k: UniquenessKey) => e.uniqueness(InSampleOf(p, ss, k.0, k.1))
  }

  function ScoreOf(e: World, p: Params, ss: seq<Row>): ScoreKey -> WalletScores {
    (k: ScoreKey) =>
      var inSample := InSampleOf(p, ss, k.1, k.2);
      e.score(k.0, inSample, Eligible(inSample, k.1, k.2), k.2, e.uniqueness(inSample))
  }

  function DeflationOf(e: World, p: Params, ss: seq<Row>): DeflationKey -> WalletScores {
    (k: DeflationKey) =>
      var inSample := InSampleOf(p, ss, k.1, k.2);
      e.deflate(ScoreOf(e, p, ss)((k.0, k.1, k.2)), inSample, k.3, k.4, e.uniqueness(inSample))
  }

  /** The backtest does not depend on the order in which the wallets are listed. */
  ghost predicate OrderFree(e: World) {
    forall q: Request :: e.backtest(q.(wallets := SortWallets(q.wallets))) == e.backtest(q)
  }

  /** The caches of a run; a scoring cache may be absent. */
  datatype Caches = Caches(
    uniqueness: Memo?<UniquenessKey, seq<real>>,
    score: Memo?<ScoreKey, WalletScores>,
    deflation: Memo?<DeflationKey, WalletScores>,
    runner: Memo<Request, seq<PnlRow>>)
  {
    ghost predicate ValidScoring(e: World, p: Params, ss: seq<Row>)
      reads uniqueness, score, deflation
    {
      && (uniqueness != null ==> uniqueness.Valid(UniquenessOf(e, p, ss)))
      && (score != null ==> score.Valid(ScoreOf(e, p, ss)))
      && (deflation != null ==> deflation.Valid(DeflationOf(e, p, ss)))
    }

    ghost predicate Valid(e: World, p: Params, ss: seq<Row>)
      reads uniqueness, score, deflation, runner
    {
      ValidScoring(e, p, ss) && runner.Valid(e.backtest)
    }
  }

  // ---------- the scores at one cutoff, through the caches ----------

  method UniquenessCached(e: World, p: Params, ss: seq<Row>, inSample: seq<Row>, key: UniquenessKey, cache: Memo?<UniquenessKey, seq<real>>)
    returns (weights: seq<real>)
    requires inSample == InSampleOf(p, ss, key.0, key.1)
    requires cache != null ==> cache.Valid(UniquenessOf(e, p, ss))
    modifies cache
    ensures cache != null ==> cache.Valid(UniquenessOf(e, p, ss))
    ensures weights == e.uniqueness(inSample)
  {
    if cache == null {
      weights := e.uniqueness(inSample);
    } else {
      weights := cache.GetOrCompute(key, UniquenessOf(e, p, ss), () => e.uniqueness(inSample));
    }
  }

  method ScoreCached(e: World, p: Params, ss: seq<Row>, inSample: seq<Row>, eligible: set<Wallet>, weights: seq<real>, key: ScoreKey, cache: Memo?<ScoreKey, WalletScores>)
    returns (scores: WalletScores)
    requires inSample == InSampleOf(p, ss, key.1, key.2) && weights == e.uniqueness(inSample)
    requires eligible == Eligible(inSample, key.1, key.2)
    requires cache != null ==> cache.Valid(ScoreOf(e, p, ss))
    modifies cache
    ensures cache != null ==> cache.Valid(ScoreOf(e, p, ss))
    ensures scores == e.score(key.0, inSample, eligible, key.2, weights)
  {
    if cache == null {
      scores := e.score(key.0, inSample, eligible, key.2, weights);
    } else {
      scores := cache.GetOrCompute(key, ScoreOf(e, p, ss), () => e.score(key.0, inSample, eligible, key.2, weights));
    }
  }

  method DeflationCached(e: World, p: Params, ss: seq<Row>, scores: WalletScores, inSample: seq<Row>, weights: seq<real>, key: DeflationKey, cache: Memo?<DeflationKey, WalletScores>)
    returns (kept: WalletScores)
    requires inSample == InSampleOf(p, ss, key.1, key.2) && weights == e.uniqueness(inSample)
    requires scores == ScoreOf(e, p, ss)((key.0, key.1, key.2))
    requires cache != null ==> cache.Valid(DeflationOf(e, p, ss))
    modifies cache
    ensures cache != null ==> cache.Valid(DeflationOf(e, p, ss))
    ensures kept == e.deflate(scores, inSample, key.3, key.4, weights)
  {
    if key.3 == NO_DEFLATION || cache == null {
      kept := e.deflate(scores, inSample, key.3, key.4, weights);
    } else {
      kept := cache.GetOrCompute(key, DeflationOf(e, p, ss), () => e.deflate(scores, inSample, key.3, key.4, weights));
    }
  }

  method ScoresAt(e: World, p: Params, g: GridPoint, ss: seq<Row>, ssC: seq<Row>, asOf: int, caches: Caches)
    returns (s: Option<WalletScores>)
    requires ssC == Slice(ss, g.criteria) && caches.ValidScoring(e, p, ss)
    modifies caches.uniqueness, caches.score, caches.deflation
    ensures caches.ValidScoring(e, p, ss)
    ensures s == Surviving(e, p, g, ssC, asOf)
  {
    var inSample := InSample(ssC, asOf, p.trainSecs);
    var eligible := Eligible(inSample, g.criteria, asOf);
    if eligible == {} { return None; }
    var weights := UniquenessCached(e, p, ss, inSample, (g.criteria, asOf), caches.uniqueness);
    var scores := ScoreCached(e, p, ss, inSample, eligible, weights, (g.estimator, g.criteria, asOf), caches.score);
    var kept := DeflationCached(e, p, ss, scores, inSample, weights,
                                (g.estimator, g.criteria, asOf, g.deflator, |scores.ranks.order|), caches.deflation);
    s := Some(kept);
  }

  // ---------- the policy object ----------

  /** A policy instance; only the online selector carries state between steps. */
  class FollowPolicy {
    const kind: Policy
    var online: Option<OnlineState>

    constructor (kind: Policy)
      ensures this.kind == kind && online == None
    {
      this.kind := kind;
      online := None;
    }

    method Choose(e: World, p: Params, prev: Follow, scores: WalletScores, live: seq<PnlRow>, asOf: int)
      returns (follow: Follow)
      requires ValidScores(scores.ranks)
      modifies this
      ensures (follow, online) == PolicyStep(e, p, kind, old(online), prev, scores, live, asOf)
    {
      match kind
      case FullRerank => follow := Hard(Take(scores.ranks.order, p.k));
      case KnockoutBackfill =>
        var kept := KnockoutStep(p.k, Wallets(prev), scores.ranks, DemoteSet(e, live, asOf));
        follow := Hard(kept);
      case HybridDisplacement =>
        var rules := Rules(scores.ranks, Periods(live, asOf), p.provenMin, p.margin);
        var kept := HybridStep(p.k, Wallets(prev), DemoteSet(e, live, asOf), rules);
        follow := Hard(kept);
      case OnlineWeighting =>
        var (chosen, state) := e.select(scores, p.k, online);
        follow, online := chosen, Some(state);
    }
  }

  // ---------- one trajectory through the caches ----------

  /** What a trajectory reports. */
  datatype Result = Result(earned: seq<real>, finalFollow: Follow, finalScores: Option<WalletScores>)

  function Report(c: Carry): Result { Result(c.earned, c.finalFollow, c.finalScores) }

  /** The runner's memo: keyed by the sorted wallets, computed on the list as given. */
  method RunBacktest(e: World, p: Params, g: GridPoint, follow: Follow, asOf: int, runner: Memo<Request, seq<PnlRow>>)
    returns (pnl: seq<PnlRow>)
    requires OrderFree(e) && runner.Valid(e.backtest)
    modifies runner
    ensures runner.Valid(e.backtest) && pnl == e.backtest(RequestFor(p, g, follow, asOf))
    ensures runner.table.Keys == old(runner.table).Keys + {RequestFor(p, g, follow, asOf)} && runner.lookups == old(runner.lookups) + 1
  {
    var key := RequestFor(p, g, follow, asOf);
    var asked := key.(wallets := Wallets(follow));
    assert key == asked.(wallets := SortWallets(asked.wallets));
    pnl := runner.GetOrCompute(key, e.backtest, () => e.backtest(asked));
  }

  ghost function Asked(c: Carry): set<Request> { set q | q in c.requests }

  /** From `keys` and `lookups` the runner has got to `keys'` and `lookups'` by answering
      exactly the requests of `c`. */
  ghost predicate Answered(keys: set<Request>, lookups: nat, keys': set<Request>, lookups': nat, c: Carry) {
    keys' == keys + Asked(c) && lookups' == lookups + |c.requests|
  }

  /** The local variables of the loop. */
  datatype Local = Local(prev: Follow, live: seq<PnlRow>, result: Result)

  ghost predicate Stands(l: Local, online: Option<OnlineState>, c: Carry) {
    l.prev == c.prev && l.live == c.live && l.result == Report(c) && online == c.online
  }

  /** The policy's part of the loop body.  Whenever the config holds nothing, a new policy
      instance takes over. */
  method Decide(e: World, p: Params, g: GridPoint, ssC: seq<Row>, asOf: int, scores: Option<WalletScores>,
                policy: FollowPolicy, l: Local, ghost c: Carry)
    returns (signal: Signal, next: FollowPolicy)
    requires ValidWorld(e) && scores == Surviving(e, p, g, ssC, asOf)
    requires policy.kind == g.policy && Stands(l, policy.online, c)
    modifies policy
    ensures signal == SignalAt(e, p, g, ssC, c, asOf)
    ensures next.kind == g.policy && (next == policy || fresh(next))
    ensures next.online == if signal.Live? then signal.online else None
  {
    signal, next := NoSignal, policy;
    if scores.Some? && scores.value.ranks.order != [] {
      var follow := policy.Choose(e, p, l.prev, scores.value, l.live, asOf);
      if follow != [] { signal := Live(follow, scores.value, policy.online); }
    }
    if signal.NoSignal? { next := new FollowPolicy(g.policy); }
  }

  function Bookkeeping(g: GridPoint, l: Local, signal: Signal, window: seq<PnlRow>): Local {
    match signal
    case NoSignal => Local([], l.live, Result(l.result.earned + [0.0], [], None))
    case Live(follow, scores, _) =>
      Local(follow, l.live + Realized(window),
            Result(l.result.earned + [NetPnl(g, l.prev, follow, window)], follow, Some(scores)))
  }

  lemma BookkeepingStands(e: World, p: Params, g: GridPoint, asOf: int, signal: Signal, l: Local, c: Carry, window: seq<PnlRow>)
    requires Stands(l, c.online, c)
    requires signal.Live? ==> window == Window(e.backtest(RequestFor(p, g, signal.follow, asOf)), asOf, p.horizonSecs)
    ensures var c' := Advance(p, g, c, asOf, signal, e.backtest);
      Stands(Bookkeeping(g, l, signal, window), if signal.Live? then signal.online else None, c')
  {
  }

  lemma AdvanceAsks(e: World, p: Params, g: GridPoint, asOf: int, signal: Signal, c: Carry)
    ensures var c' := Advance(p, g, c, asOf, signal, e.backtest);
      Asked(c') == Asked(c) + (if signal.Live? then {RequestFor(p, g, signal.follow, asOf)} else {})
      && |c'.requests| == |c.requests| + if signal.Live? then 1 else 0
  {
  }

  /** The second half: the backtest and the bookkeeping. */
  method Trade(e: World, p: Params, g: GridPoint, asOf: int, signal: Signal, runner: Memo<Request, seq<PnlRow>>, l: Local, ghost c: Carry,
               ghost keys: set<Request>, ghost lookups: nat)
    returns (l': Local)
    requires OrderFree(e) && runner.Valid(e.backtest) && Stands(l, c.online, c)
    requires Answered(keys, lookups, runner.table.Keys, runner.lookups, c)
    modifies runner
    ensures runner.Valid(e.backtest)
    ensures Stands(l', if signal.Live? then signal.online else None, Advance(p, g, c, asOf, signal, e.backtest))
    ensures Answered(keys, lookups, runner.table.Keys, runner.lookups, Advance(p, g, c, asOf, signal, e.backtest))
  {
    var window := [];
    if signal.Live? {
      var pnl := RunBacktest(e, p, g, signal.follow, asOf, runner);
      window := Window(pnl, asOf, p.horizonSecs);
    }
    BookkeepingStands(e, p, g, asOf, signal, l, c, window);
    AdvanceAsks(e, p, g, asOf, signal, c);
    l' := Bookkeeping(g, l, signal, window);
  }

  /** A period from its scores on. */
  method Settle(e: World, p: Params, g: GridPoint, ssC: seq<Row>, asOf: int, scores: Option<WalletScores>,
                runner: Memo<Request, seq<PnlRow>>, policy: FollowPolicy, l: Local, ghost c: Carry,
                ghost keys: set<Request>, ghost lookups: nat)
    returns (next: FollowPolicy, l': Local)
    requires ValidWorld(e) && OrderFree(e) && scores == Surviving(e, p, g, ssC, asOf) && runner.Valid(e.backtest)
    requires policy.kind == g.policy && Stands(l, policy.online, c)
    requires Answered(keys, lookups, runner.table.Keys, runner.lookups, c)
    modifies runner, policy
    ensures runner.Valid(e.backtest)
    ensures next.kind == g.policy && (next == policy || fresh(next))
    ensures Stands(l', next.online, Step(e, p, g, ssC, c, asOf))
    ensures Answered(keys, lookups, runner.table.Keys, runner.lookups, Step(e, p, g, ssC, c, asOf))
  {
    var signal;
    signal, next := Decide(e, p, g, ssC, asOf, scores, policy, l, c);
    l' := Trade(e, p, g, asOf, signal, runner, l, c, keys, lookups);
  }

  /** One period of the loop. */
  method Period(e: World, p: Params, g: GridPoint, ss: seq<Row>, ssC: seq<Row>, asOf: int, caches: Caches,
                policy: FollowPolicy, l: Local, ghost c: Carry, ghost keys: set<Request>, ghost lookups: nat)
    returns (next: FollowPolicy, l': Local)
    requires ValidWorld(e) && OrderFree(e) && ssC == Slice(ss, g.criteria) && caches.Valid(e, p, ss)
    requires policy.kind == g.policy && Stands(l, policy.online, c)
    requires Answered(keys, lookups, caches.runner.table.Keys, caches.runner.lookups, c)
    modifies caches.uniqueness, caches.score, caches.deflation, caches.runner, policy
    ensures caches.Valid(e, p, ss)
    ensures next.kind == g.policy && (next == policy || fresh(next))
    ensures Stands(l', next.online, Step(e, p, g, ssC, c, asOf))
    ensures Answered(keys, lookups, caches.runner.table.Keys, caches.runner.lookups, Step(e, p, g, ssC, c, asOf))
  {
    var scores := ScoresAt(e, p, g, ss, ssC, asOf, caches);
    next, l' := Settle(e, p, g, ssC, asOf, scores, caches.runner, policy, l, c, keys, lookups);
  }

  lemma RunFromStep(e: World, p: Params, g: GridPoint, ss: seq<Row>, cutoffs: seq<int>, i: nat)
    requires ValidWorld(e) && i < |cutoffs|
    ensures RunFrom(e, p, g, ss, Start(), cutoffs[..i + 1])
         == Step(e, p, g, ss, RunFrom(e, p, g, ss, Start(), cutoffs[..i]), cutoffs[i])
  {
    assert cutoffs[..i + 1][..i] == cutoffs[..i];
  }

  method RunTrajectory(e: World, p: Params, g: GridPoint, ss: seq<Row>, cutoffs: seq<int>, caches: Caches)
    returns (r: Result)
    requires ValidWorld(e) && OrderFree(e) && caches.Valid(e, p, ss)
    modifies caches.uniqueness, caches.score, caches.deflation, caches.runner
    ensures caches.Valid(e, p, ss)
    ensures r == Report(Run(e, p, g, ss, cutoffs))
    ensures Answered(old(caches.runner.table).Keys, old(caches.runner.lookups), caches.runner.table.Keys, caches.runner.lookups,
               Run(e, p, g, ss, cutoffs))
  {
    var policy := new FollowPolicy(g.policy);
    var ssC := Slice(ss, g.criteria);
    var l := Local([], [], Result([], [], None));
    ghost var c := Start();
    ghost var keys, lookups := caches.runner.table.Keys, caches.runner.lookups;
    for i := 0 to |cutoffs|
      invariant fresh(policy) && policy.kind == g.policy && caches.Valid(e, p, ss)
      invariant c == RunFrom(e, p, g, ssC, Start(), cutoffs[..i])
      invariant Stands(l, policy.online, c)
      invariant Answered(keys, lookups, caches.runner.table.Keys, caches.runner.lookups, c)
    {
      RunFromStep(e, p, g, ssC, cutoffs, i);
      policy, l := Period(e, p, g, ss, ssC, cutoffs[i], caches, policy, l, c, keys, lookups);
      c := Step(e, p, g, ssC, c, cutoffs[i]);
    }
    assert cutoffs[..|cutoffs|] == cutoffs;
    r := l.result;
  }
}
