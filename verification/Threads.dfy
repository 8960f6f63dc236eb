/** The thread pool of `run_trajectories`: every grid point's trajectory is a worker, and all of them
    share the four single-flight caches.

    The caches are one machine whose keys name the cache they belong to: no action on a key reads
    or writes anything of another one. */
module Threads {
  import opened Basics
  import opened Policies
  import opened Trajectory
  import opened Sweep
  import opened Executors
  import SingleFlight
  import Pool

  datatype Key =
    | Weigh(u: UniquenessKey)
    | Rank(s: ScoreKey)
    | Gate(d: DeflationKey)
    | Backtest(q: Request)

  datatype Value = Weights(ws: seq<real>) | Ranked(scores: WalletScores) | Rows(rows: seq<PnlRow>)

  /** What every cache is meant to hold under a key. */
  ghost function Answer(e: World, p: Params, ss: seq<Row>): Key -> Value {
    (k: Key) =>
      match k
      case Weigh(u) => Weights(UniquenessOf(e, p, ss)(u))
      case Rank(s) => Ranked(ScoreOf(e, p, ss)(s))
      case Gate(d) => Ranked(DeflationOf(e, p, ss)(d))
      case Backtest(q) => Rows(e.backtest(q))
  }

  // ---------- a trajectory as a program ----------

  /** How far a thread has come with a cutoff. */
  datatype Stage = Fresh | Weighed(ws: seq<real>) | Scored(ws: seq<real>, scores: WalletScores) | Gated(scores: WalletScores)

  datatype Thread = Thread(g: GridPoint, c: Carry, i: nat, stage: Stage)

  datatype Job = Job(e: World, p: Params, ss: seq<Row>, cutoffs: seq<int>)

  function Sample(j: Job, g: GridPoint, asOf: int): seq<Row> { InSampleOf(j.p, j.ss, g.criteria, asOf) }

  /** The cutoff is done: on to the next one. */
  function Finish(j: Job, t: Thread, asOf: int, signal: Signal, rows: seq<PnlRow>): Thread {
    Thread(t.g, Advance(j.p, t.g, t.c, asOf, signal, (q: Request) => rows), t.i + 1, Fresh)
  }

  /** The next thing a thread does: ask a cache, compute on its own, or stop. */
  ghost function MoveOf(j: Job, t: Thread): Pool.Move<Key, Thread> {
    if t.i >= |j.cutoffs| then Pool.Stop
    else
      var asOf, g := j.cutoffs[t.i], t.g;
      match t.stage
      case Fresh =>
        if Eligible(Sample(j, g, asOf), g.criteria, asOf) == {} then Pool.Quiet(Finish(j, t, asOf, NoSignal, []))
        else Pool.Ask(Weigh((g.criteria, asOf)))
      case Weighed(_) => Pool.Ask(Rank((g.estimator, g.criteria, asOf)))
      case Scored(ws, scores) =>
        var n := |scores.ranks.order|;
        if g.deflator == NO_DEFLATION then
          Pool.Quiet(t.(stage := Gated(j.e.deflate(scores, Sample(j, g, asOf), g.deflator, n, ws))))
        else Pool.Ask(Gate((g.estimator, g.criteria, asOf, g.deflator, n)))
      case Gated(scores) =>
        if !ValidScores(scores.ranks) then Pool.Stop
        else
          var signal := SignalFrom(j.e, j.p, g, scores, t.c, asOf);
          if signal.NoSignal? then Pool.Quiet(Finish(j, t, asOf, NoSignal, []))
          else Pool.Ask(Backtest(RequestFor(j.p, g, signal.follow, asOf)))
  }

  ghost function ResumeOf(j: Job, t: Thread, v: Value): Thread {
    if t.i >= |j.cutoffs| then t
    else
      var asOf := j.cutoffs[t.i];
      match (t.stage, v)
      case (Fresh, Weights(ws)) => t.(stage := Weighed(ws))
      case (Weighed(ws), Ranked(scores)) => t.(stage := Scored(ws, scores))
      case (Scored(_, _), Ranked(scores)) => t.(stage := Gated(scores))
      case (Gated(scores), Rows(rows)) =>
        if ValidScores(scores.ranks) then Finish(j, t, asOf, SignalFrom(j.e, j.p, t.g, scores, t.c, asOf), rows) else t
      case _ => t
  }

  ghost function Trajectories(j: Job): Pool.Program<Key, Value, Thread> {
    Pool.Program((t: Thread) => MoveOf(j, t), (t: Thread, v: Value) => ResumeOf(j, t, v))
  }

  ghost function Own(j: Job): Key -> Value { Answer(j.e, j.p, j.ss) }

  function Begin(g: GridPoint): Thread { Thread(g, Start(), 0, Fresh) }

  // ---------- one cutoff ----------

  /** The backtests among the keys. */
  ghost function Backtests(ks: seq<Key>): seq<Request> {
    if ks == [] then []
    else
      var k := ks[|ks| - 1];
      Backtests(ks[..|ks| - 1]) + if k.Backtest? then [k.q] else []
  }

  /** From `t` the thread gets to `u` on its own in `n` steps, asking for the keys `ks`. */
  ghost predicate Gets(j: Job, t: Thread, n: nat, u: Thread, ks: seq<Key>) {
    Pool.After(Trajectories(j), Own(j), t, n) == u && Pool.Asked(Trajectories(j), Own(j), t, n) == ks
  }

  lemma OneStep(j: Job, t: Thread)
    ensures Gets(j, t, 1, Pool.Private(Trajectories(j), Own(j), t), Pool.KeysOf(MoveOf(j, t)))
  {
    var prog := Trajectories(j);
    assert Pool.After(prog, Own(j), t, 0) == t && Pool.Asked(prog, Own(j), t, 0) == [];
    assert Pool.Asked(prog, Own(j), t, 1) == [] + Pool.KeysOf(prog.move(t));
  }

  lemma Chain(j: Job, t: Thread, m: nat, u: Thread, ks: seq<Key>, n: nat, v: Thread, ls: seq<Key>)
    requires Gets(j, t, m, u, ks) && Gets(j, u, n, v, ls)
    ensures Gets(j, t, m + n, v, ks + ls)
  {
    Pool.AfterMore(Trajectories(j), Own(j), t, m, n);
  }

  /** The values of a cutoff, as an uncached run computes them. */
  function WeightsAt(j: Job, g: GridPoint, asOf: int): seq<real> { j.e.uniqueness(Sample(j, g, asOf)) }

  function ScoresOf(j: Job, g: GridPoint, asOf: int): WalletScores {
    var sample := Sample(j, g, asOf);
    j.e.score(g.estimator, sample, Eligible(sample, g.criteria, asOf), asOf, WeightsAt(j, g, asOf))
  }

  function KeptAt(j: Job, g: GridPoint, asOf: int): WalletScores {
    var scores := ScoresOf(j, g, asOf);
    j.e.deflate(scores, Sample(j, g, asOf), g.deflator, |scores.ranks.order|, WeightsAt(j, g, asOf))
  }

  /** The caches' values under the keys of a cutoff are the uncached ones. */
  lemma AnswersAt(j: Job, g: GridPoint, asOf: int)
    ensures Own(j)(Weigh((g.criteria, asOf))) == Weights(WeightsAt(j, g, asOf))
    ensures Own(j)(Rank((g.estimator, g.criteria, asOf))) == Ranked(ScoresOf(j, g, asOf))
    ensures var n := |ScoresOf(j, g, asOf).ranks.order|;
      Own(j)(Gate((g.estimator, g.criteria, asOf, g.deflator, n))) == Ranked(KeptAt(j, g, asOf))
  {
    assert UniquenessOf(j.e, j.p, j.ss)((g.criteria, asOf)) == WeightsAt(j, g, asOf);
    assert ScoreOf(j.e, j.p, j.ss)((g.estimator, g.criteria, asOf)) == ScoresOf(j, g, asOf);
    var n := |ScoresOf(j, g, asOf).ranks.order|;
    assert DeflationOf(j.e, j.p, j.ss)((g.estimator, g.criteria, asOf, g.deflator, n)) == KeptAt(j, g, asOf);
  }

  lemma AskStep(j: Job, t: Thread, k: Key)
    requires MoveOf(j, t) == Pool.Ask(k)
    ensures Gets(j, t, 1, ResumeOf(j, t, Own(j)(k)), [k])
  {
    OneStep(j, t);
  }

  lemma QuietStep(j: Job, t: Thread, u: Thread)
    requires MoveOf(j, t) == Pool.Quiet(u)
    ensures Gets(j, t, 1, u, [])
  {
    OneStep(j, t);
  }

  lemma FromFresh(j: Job, t: Thread)
    requires t.i < |j.cutoffs| && t.stage == Fresh
    requires Eligible(Sample(j, t.g, j.cutoffs[t.i]), t.g.criteria, j.cutoffs[t.i]) != {}
    ensures var asOf := j.cutoffs[t.i];
      Gets(j, t, 1, t.(stage := Weighed(WeightsAt(j, t.g, asOf))), [Weigh((t.g.criteria, asOf))])
  {
    var asOf := j.cutoffs[t.i];
    AnswersAt(j, t.g, asOf);
    AskStep(j, t, Weigh((t.g.criteria, asOf)));
  }

  lemma FromWeighed(j: Job, t: Thread)
    requires t.i < |j.cutoffs| && t.stage == Weighed(WeightsAt(j, t.g, j.cutoffs[t.i]))
    ensures var asOf := j.cutoffs[t.i];
      Gets(j, t, 1, t.(stage := Scored(WeightsAt(j, t.g, asOf), ScoresOf(j, t.g, asOf))),
           [Rank((t.g.estimator, t.g.criteria, asOf))])
  {
    var asOf := j.cutoffs[t.i];
    AnswersAt(j, t.g, asOf);
    AskStep(j, t, Rank((t.g.estimator, t.g.criteria, asOf)));
  }

  lemma FromScored(j: Job, t: Thread) returns (ks: seq<Key>)
    requires t.i < |j.cutoffs|
    requires t.stage == Scored(WeightsAt(j, t.g, j.cutoffs[t.i]), ScoresOf(j, t.g, j.cutoffs[t.i]))
    ensures Gets(j, t, 1, t.(stage := Gated(KeptAt(j, t.g, j.cutoffs[t.i]))), ks) && Backtests(ks) == []
  {
    var asOf := j.cutoffs[t.i];
    var k := Gate((t.g.estimator, t.g.criteria, asOf, t.g.deflator, |ScoresOf(j, t.g, asOf).ranks.order|));
    AnswersAt(j, t.g, asOf);
    if t.g.deflator == NO_DEFLATION {
      ks := [];
      QuietStep(j, t, t.(stage := Gated(KeptAt(j, t.g, asOf))));
    } else {
      ks := [k];
      AskStep(j, t, k);
      assert ks[..0] == [];
    }
  }

  lemma FromGated(j: Job, t: Thread) returns (ks: seq<Key>)
    requires ValidWorld(j.e) && t.i < |j.cutoffs| && t.stage == Gated(KeptAt(j, t.g, j.cutoffs[t.i]))
    ensures var asOf := j.cutoffs[t.i]; var kept := KeptAt(j, t.g, asOf);
      && ValidScores(kept.ranks)
      && var signal := SignalFrom(j.e, j.p, t.g, kept, t.c, asOf);
         && Gets(j, t, 1, Thread(t.g, Advance(j.p, t.g, t.c, asOf, signal, j.e.backtest), t.i + 1, Fresh), ks)
         && Backtests(ks) == if signal.Live? then [RequestFor(j.p, t.g, signal.follow, asOf)] else []
  {
    var asOf := j.cutoffs[t.i];
    var kept := KeptAt(j, t.g, asOf);
    var signal := SignalFrom(j.e, j.p, t.g, kept, t.c, asOf);
    if signal.NoSignal? {
      ks := [];
      QuietStep(j, t, Finish(j, t, asOf, NoSignal, []));
    } else {
      var q := RequestFor(j.p, t.g, signal.follow, asOf);
      ks := [Backtest(q)];
      AskStep(j, t, Backtest(q));
      assert ks[..0] == [] && Own(j)(Backtest(q)) == Rows(j.e.backtest(q));
    }
  }

  // ---------- the whole trajectory ----------

  lemma {:induction false} BacktestsAppend(a: seq<Key>, b: seq<Key>)
    ensures Backtests(a + b) == Backtests(a) + Backtests(b)
  {
    if b == [] {
      assert a + b == a;
    } else {
      assert (a + b)[..|a + b| - 1] == a + b[..|b| - 1];
      BacktestsAppend(a, b[..|b| - 1]);
    }
  }

  /** The uncached step in terms of the values above. */
  lemma StepOf(j: Job, g: GridPoint, c: Carry, asOf: int)
    requires ValidWorld(j.e)
    ensures var sample := Sample(j, g, asOf); var kept := KeptAt(j, g, asOf);
      && ValidScores(kept.ranks)
      && SignalAt(j.e, j.p, g, Slice(j.ss, g.criteria), c, asOf)
         == if Eligible(sample, g.criteria, asOf) == {} then NoSignal else SignalFrom(j.e, j.p, g, kept, c, asOf)
  {
  }

  ghost predicate Period(j: Job, t: Thread, n: nat, u: Thread, ks: seq<Key>)
    requires ValidWorld(j.e)
  {
    t.i < |j.cutoffs| && t.stage.Fresh? && Gets(j, t, n, u, ks)
    && u == Thread(t.g, Step(j.e, j.p, t.g, Slice(j.ss, t.g.criteria), t.c, j.cutoffs[t.i]), t.i + 1, Fresh)
    && u.c.requests == t.c.requests + Backtests(ks)
  }

  lemma IdlePeriod(j: Job, t: Thread)
    requires ValidWorld(j.e) && t.i < |j.cutoffs| && t.stage.Fresh?
    requires Eligible(Sample(j, t.g, j.cutoffs[t.i]), t.g.criteria, j.cutoffs[t.i]) == {}
    ensures Period(j, t, 1, Finish(j, t, j.cutoffs[t.i], NoSignal, []), [])
  {
    StepOf(j, t.g, t.c, j.cutoffs[t.i]);
    QuietStep(j, t, Finish(j, t, j.cutoffs[t.i], NoSignal, []));
  }

  lemma ToGated(j: Job, t: Thread) returns (ks: seq<Key>)
    requires t.i < |j.cutoffs| && t.stage.Fresh?
    requires Eligible(Sample(j, t.g, j.cutoffs[t.i]), t.g.criteria, j.cutoffs[t.i]) != {}
    ensures Gets(j, t, 3, t.(stage := Gated(KeptAt(j, t.g, j.cutoffs[t.i]))), ks) && Backtests(ks) == []
  {
    var asOf := j.cutoffs[t.i];
    var t1 := t.(stage := Weighed(WeightsAt(j, t.g, asOf)));
    var t2 := t.(stage := Scored(WeightsAt(j, t.g, asOf), ScoresOf(j, t.g, asOf)));
    FromFresh(j, t);
    FromWeighed(j, t1);
    var k1, k2 := Weigh((t.g.criteria, asOf)), Rank((t.g.estimator, t.g.criteria, asOf));
    Chain(j, t, 1, t1, [k1], 1, t2, [k2]);
    var k3 := FromScored(j, t2);
    Chain(j, t, 2, t2, [k1] + [k2], 1, t.(stage := Gated(KeptAt(j, t.g, asOf))), k3);
    ks := [k1] + [k2] + k3;
    BacktestsAppend([k1], [k2]);
    BacktestsAppend([k1] + [k2], k3);
  }

  lemma StepRequests(j: Job, g: GridPoint, c: Carry, asOf: int)
    requires ValidWorld(j.e)
    ensures var signal := SignalAt(j.e, j.p, g, Slice(j.ss, g.criteria), c, asOf);
      Step(j.e, j.p, g, Slice(j.ss, g.criteria), c, asOf).requests
      == c.requests + if signal.Live? then [RequestFor(j.p, g, signal.follow, asOf)] else []
  {
  }

  lemma GatedIsStep(j: Job, t: Thread) returns (ks: seq<Key>)
    requires ValidWorld(j.e) && t.i < |j.cutoffs| && t.stage == Gated(KeptAt(j, t.g, j.cutoffs[t.i]))
    requires Eligible(Sample(j, t.g, j.cutoffs[t.i]), t.g.criteria, j.cutoffs[t.i]) != {}
    ensures var c := Step(j.e, j.p, t.g, Slice(j.ss, t.g.criteria), t.c, j.cutoffs[t.i]);
      Gets(j, t, 1, Thread(t.g, c, t.i + 1, Fresh), ks) && c.requests == t.c.requests + Backtests(ks)
  {
    ks := FromGated(j, t);
    StepOf(j, t.g, t.c, j.cutoffs[t.i]);
    StepRequests(j, t.g, t.c, j.cutoffs[t.i]);
  }

  lemma BusyPeriod(j: Job, t: Thread) returns (u: Thread, ks: seq<Key>)
    requires ValidWorld(j.e) && t.i < |j.cutoffs| && t.stage.Fresh?
    requires Eligible(Sample(j, t.g, j.cutoffs[t.i]), t.g.criteria, j.cutoffs[t.i]) != {}
    ensures Period(j, t, 4, u, ks)
  {
    var t3 := t.(stage := Gated(KeptAt(j, t.g, j.cutoffs[t.i])));
    u := Thread(t.g, Step(j.e, j.p, t.g, Slice(j.ss, t.g.criteria), t.c, j.cutoffs[t.i]), t.i + 1, Fresh);
    var k3 := ToGated(j, t);
    var k4 := GatedIsStep(j, t3);
    Chain(j, t, 3, t3, k3, 1, u, k4);
    ks := k3 + k4;
    BacktestsAppend(k3, k4);
  }

  /** The steps of a cutoff. */
  ghost function PeriodSteps(j: Job, t: Thread): nat
    requires t.i < |j.cutoffs|
  {
    if Eligible(Sample(j, t.g, j.cutoffs[t.i]), t.g.criteria, j.cutoffs[t.i]) == {} then 1 else 4
  }

  lemma OnePeriod(j: Job, t: Thread)
    requires ValidWorld(j.e) && t.i < |j.cutoffs| && t.stage.Fresh?
    ensures var c := Step(j.e, j.p, t.g, Slice(j.ss, t.g.criteria), t.c, j.cutoffs[t.i]); var n := PeriodSteps(j, t);
      && Pool.After(Trajectories(j), Own(j), t, n) == Thread(t.g, c, t.i + 1, Fresh)
      && c.requests == t.c.requests + Backtests(Pool.Asked(Trajectories(j), Own(j), t, n))
  {
    if PeriodSteps(j, t) == 1 { IdlePeriod(j, t); } else { var u, ks := BusyPeriod(j, t); }
  }

  /** The thread of `g` after its first `m` cutoffs. */
  ghost function Reached(j: Job, g: GridPoint, m: nat): Thread
    requires ValidWorld(j.e) && m <= |j.cutoffs|
  {
    Thread(g, RunFrom(j.e, j.p, g, Slice(j.ss, g.criteria), Start(), j.cutoffs[..m]), m, Fresh)
  }

  lemma ReachedStep(j: Job, g: GridPoint, m: nat)
    requires ValidWorld(j.e) && m < |j.cutoffs|
    ensures Reached(j, g, m + 1).c == Step(j.e, j.p, g, Slice(j.ss, g.criteria), Reached(j, g, m).c, j.cutoffs[m])
  {
    assert j.cutoffs[..m + 1][..m] == j.cutoffs[..m];
  }

  lemma OneLeg(j: Job, g: GridPoint, m: nat)
    requires ValidWorld(j.e) && m < |j.cutoffs|
    ensures var t, n := Reached(j, g, m), PeriodSteps(j, Reached(j, g, m));
      && Pool.After(Trajectories(j), Own(j), t, n) == Reached(j, g, m + 1)
      && Reached(j, g, m + 1).c.requests == t.c.requests + Backtests(Pool.Asked(Trajectories(j), Own(j), t, n))
  {
    OnePeriod(j, Reached(j, g, m));
    ReachedStep(j, g, m);
  }

  lemma {:induction false} BacktestsOfLegs(prog: Pool.Program<Key, Value, Thread>, f: Key -> Value, at: nat -> Thread, cost: nat -> nat,
                                           m: nat, seen: nat -> seq<Request>)
    requires seen(0) == []
    requires forall i :: 0 <= i < m ==> seen(i + 1) == seen(i) + Backtests(Pool.Asked(prog, f, at(i), cost(i)))
    ensures Backtests(Pool.LegKeys(prog, f, at, cost, m)) == seen(m)
  {
    if m > 0 {
      BacktestsOfLegs(prog, f, at, cost, m - 1, seen);
      BacktestsAppend(Pool.LegKeys(prog, f, at, cost, m - 1), Pool.Asked(prog, f, at(m - 1), cost(m - 1)));
    }
  }

  // The cutoffs of a thread as legs of its run.

  ghost function Places(j: Job, g: GridPoint): nat -> Thread
    requires ValidWorld(j.e)
  {
    (m: nat) => if m <= |j.cutoffs| then Reached(j, g, m) else Begin(g)
  }

  ghost function Costs(j: Job, g: GridPoint): nat -> nat
    requires ValidWorld(j.e)
  {
    (m: nat) => if m < |j.cutoffs| then PeriodSteps(j, Reached(j, g, m)) else 0
  }

  ghost function Requested(j: Job, g: GridPoint): nat -> seq<Request>
    requires ValidWorld(j.e)
  {
    (m: nat) => if m <= |j.cutoffs| then Reached(j, g, m).c.requests else []
  }

  /** The number of steps the thread of `g` takes on its own. */
  ghost function OwnSteps(j: Job, g: GridPoint): nat
    requires ValidWorld(j.e)
  {
    Pool.Spent(Costs(j, g), |j.cutoffs|)
  }

  lemma LegsHold(j: Job, g: GridPoint, m: nat)
    requires ValidWorld(j.e) && m < |j.cutoffs|
    ensures Pool.Leg(Trajectories(j), Own(j), Places(j, g), Costs(j, g), m)
    ensures Requested(j, g)(m + 1)
         == Requested(j, g)(m) + Backtests(Pool.Asked(Trajectories(j), Own(j), Places(j, g)(m), Costs(j, g)(m)))
  {
    OneLeg(j, g, m);
  }

  lemma Ends(j: Job, g: GridPoint)
    requires ValidWorld(j.e)
    ensures Places(j, g)(0) == Begin(g) && Requested(j, g)(0) == []
    ensures Places(j, g)(|j.cutoffs|) == Thread(g, Run(j.e, j.p, g, j.ss, j.cutoffs), |j.cutoffs|, Fresh)
    ensures Requested(j, g)(|j.cutoffs|) == Run(j.e, j.p, g, j.ss, j.cutoffs).requests
  {
    assert j.cutoffs[..0] == [] && j.cutoffs[..|j.cutoffs|] == j.cutoffs;
  }

  /** On its own a thread makes its uncached run, stops, and asks for exactly that run's
      backtests. */
  lemma OwnRun(j: Job, g: GridPoint)
    requires ValidWorld(j.e)
    ensures var n := OwnSteps(j, g);
      && Pool.After(Trajectories(j), Own(j), Begin(g), n) == Thread(g, Run(j.e, j.p, g, j.ss, j.cutoffs), |j.cutoffs|, Fresh)
      && Backtests(Pool.Asked(Trajectories(j), Own(j), Begin(g), n)) == Run(j.e, j.p, g, j.ss, j.cutoffs).requests
  {
    var prog, f, at, cost, m := Trajectories(j), Own(j), Places(j, g), Costs(j, g), |j.cutoffs|;
    forall i | 0 <= i < m
      ensures Pool.Leg(prog, f, at, cost, i)
      ensures Requested(j, g)(i + 1) == Requested(j, g)(i) + Backtests(Pool.Asked(prog, f, at(i), cost(i)))
    {
      LegsHold(j, g, i);
    }
    Ends(j, g);
    Pool.Journey(prog, f, at, cost, m);
    Pool.JourneyKeys(prog, f, at, cost, m);
    BacktestsOfLegs(prog, f, at, cost, m, Requested(j, g));
  }

  // ---------- every factory is the pure function of its key ----------

  /** What the thread's own factory computes for the key it asks for: from the values it holds,
      and, for a backtest, on the wallets in the order it lists them. */
  ghost function FactoryOf(j: Job, t: Thread): Value {
    if t.i >= |j.cutoffs| then Weights([])
    else
      var asOf, g := j.cutoffs[t.i], t.g;
      var sample := Sample(j, g, asOf);
      match t.stage
      case Fresh => Weights(j.e.uniqueness(sample))
      case Weighed(ws) => Ranked(j.e.score(g.estimator, sample, Eligible(sample, g.criteria, asOf), asOf, ws))
      case Scored(ws, scores) => Ranked(j.e.deflate(scores, sample, g.deflator, |scores.ranks.order|, ws))
      case Gated(scores) =>
        if !ValidScores(scores.ranks) then Weights([])
        else
          match SignalFrom(j.e, j.p, g, scores, t.c, asOf)
          case NoSignal => Weights([])
          case Live(follow, _, _) => Rows(j.e.backtest(RequestFor(j.p, g, follow, asOf).(wallets := Wallets(follow))))
  }

  /** The values a thread holds are the uncached ones of its cutoff. */
  ghost predicate StageOk(j: Job, t: Thread) {
    t.i < |j.cutoffs| ==>
      match t.stage
      case Fresh => true
      case Weighed(ws) => ws == WeightsAt(j, t.g, j.cutoffs[t.i])
      case Scored(ws, scores) => ws == WeightsAt(j, t.g, j.cutoffs[t.i]) && scores == ScoresOf(j, t.g, j.cutoffs[t.i])
      case Gated(_) => true
  }

  lemma StageKept(j: Job, t: Thread)
    requires StageOk(j, t)
    ensures StageOk(j, Pool.Private(Trajectories(j), Own(j), t))
  {
    if t.i < |j.cutoffs| { AnswersAt(j, t.g, j.cutoffs[t.i]); }
  }

  lemma {:induction false} StageAlways(j: Job, g: GridPoint, n: nat)
    ensures StageOk(j, Pool.After(Trajectories(j), Own(j), Begin(g), n))
  {
    if n > 0 {
      StageAlways(j, g, n - 1);
      StageKept(j, Pool.After(Trajectories(j), Own(j), Begin(g), n - 1));
    }
  }

  lemma OwnFactory(j: Job, t: Thread, k: Key)
    requires OrderFree(j.e) && StageOk(j, t) && MoveOf(j, t) == Pool.Ask(k)
    ensures FactoryOf(j, t) == Own(j)(k)
  {
    var asOf := j.cutoffs[t.i];
    AnswersAt(j, t.g, asOf);
    if t.stage.Gated? {
      var follow := SignalFrom(j.e, j.p, t.g, t.stage.scores, t.c, asOf).follow;
      var asked := RequestFor(j.p, t.g, follow, asOf).(wallets := Wallets(follow));
      assert asked.(wallets := SortWallets(asked.wallets)) == RequestFor(j.p, t.g, follow, asOf);
    }
  }

  type Caches4 = SingleFlight.State<Key, Value, string>
  type ThreadPool = Pool.Pool<Key, Value, string, Thread>

  ghost function Begins(grid: seq<GridPoint>): seq<Thread> { seq(|grid|, i requires 0 <= i < |grid| => Begin(grid[i])) }

  /** In every interleaving the factory of whoever owns a call returns the pure value of its
      key: the keys leave out nothing that matters. */
  lemma FactoriesArePure(j: Job, grid: seq<GridPoint>, p: ThreadPool, w: nat)
    requires OrderFree(j.e) && Pool.PoolInv(Trajectories(j), Own(j), Begins(grid), p) && w < |grid| && p.workers[w].call.Some?
    ensures p.workers[w].call.value < |p.cache.callers|
    ensures FactoryOf(j, p.workers[w].s) == Own(j)(p.cache.callers[p.workers[w].call.value].key)
  {
    var wk := p.workers[w];
    assert Pool.WorkerOk(Trajectories(j), Own(j), p.cache, Begins(grid)[w], wk);
    StageAlways(j, grid[w], wk.steps);
    OwnFactory(j, wk.s, p.cache.callers[wk.call.value].key);
  }

  // ---------- the finished pool ----------

  ghost function Lengths(j: Job, grid: seq<GridPoint>): seq<nat>
    requires ValidWorld(j.e)
  {
    seq(|grid|, i requires 0 <= i < |grid| => OwnSteps(j, grid[i]))
  }

  lemma AllStop(j: Job, grid: seq<GridPoint>)
    requires ValidWorld(j.e)
    ensures Pool.Stops(Trajectories(j), Own(j), Begins(grid), Lengths(j, grid))
  {
    forall w | 0 <= w < |grid| ensures Trajectories(j).move(Pool.After(Trajectories(j), Own(j), Begins(grid)[w], Lengths(j, grid)[w])).Stop? {
      OwnRun(j, grid[w]);
    }
  }

  /** A finished interleaving of all the grid's trajectories. */
  ghost predicate FinishedPool(j: Job, grid: seq<GridPoint>, p: ThreadPool, ts: seq<Pool.Turn<Key, Value, string>>) {
    && Pool.Ready(Own(j), p, Begins(grid)) && Pool.Playable(Trajectories(j), Own(j), p, ts)
    && Pool.Finished(Trajectories(j), Pool.Play(Trajectories(j), Own(j), p, ts))
  }

  /** Every thread ends with its uncached run. */
  lemma ThreadsEnd(j: Job, grid: seq<GridPoint>, p: ThreadPool, ts: seq<Pool.Turn<Key, Value, string>>, i: nat)
    requires ValidWorld(j.e) && FinishedPool(j, grid, p, ts) && i < |grid|
    ensures var q := Pool.Play(Trajectories(j), Own(j), p, ts);
      |q.workers| == |grid| && q.workers[i].s.c == Run(j.e, j.p, grid[i], j.ss, j.cutoffs)
  {
    AllStop(j, grid);
    Pool.PoolOutcome(Trajectories(j), Own(j), Begins(grid), Lengths(j, grid), p, ts, (k: Key) => true);
    OwnRun(j, grid[i]);
  }

  // ---------- the runner's counters ----------

  ghost function IsBacktest(): Key -> bool { (k: Key) => k.Backtest? }

  ghost function IsKey(key: Key): Key -> bool { (k: Key) => k == key }

  /** The runner's lookups: the calls with a backtest key. */
  ghost function Lookups(s: Caches4): nat { Pool.CountKeys(Pool.CallKeys(s.callers), IsBacktest()) }

  /** The backtests the runner's cache holds; each was run once, so their number is its calls. */
  ghost function Stored(s: Caches4): set<Request> { set k | k in s.cache && k.Backtest? :: k.q }

  lemma {:induction false} CountBacktests(ks: seq<Key>)
    ensures Pool.CountKeys(ks, IsBacktest()) == |Backtests(ks)|
  {
    if ks != [] { CountBacktests(ks[..|ks| - 1]); }
  }

  lemma {:induction false} CountBacktest(ks: seq<Key>, q: Request)
    ensures Pool.CountKeys(ks, IsKey(Backtest(q))) > 0 <==> q in Backtests(ks)
  {
    if ks != [] { CountBacktest(ks[..|ks| - 1], q); }
  }

  ghost function OwnKeys(j: Job, g: GridPoint): seq<Key>
    requires ValidWorld(j.e)
  {
    Pool.Asked(Trajectories(j), Own(j), Begin(g), OwnSteps(j, g))
  }

  lemma OwnCounts(j: Job, g: GridPoint, q: Request)
    requires ValidWorld(j.e)
    ensures Pool.CountKeys(OwnKeys(j, g), IsBacktest()) == |Meaning(j.e, j.p, j.ss, j.cutoffs)(g).requests|
    ensures Pool.CountKeys(OwnKeys(j, g), IsKey(Backtest(q))) > 0 <==> q in Asked(Meaning(j.e, j.p, j.ss, j.cutoffs)(g))
  {
    OwnRun(j, g);
    CountBacktests(OwnKeys(j, g));
    CountBacktest(OwnKeys(j, g), q);
  }

  lemma LastOfGrid(j: Job, init: seq<GridPoint>, g: GridPoint)
    requires ValidWorld(j.e)
    ensures Begins(init + [g]) == Begins(init) + [Begin(g)]
    ensures Lengths(j, init + [g]) == Lengths(j, init) + [OwnSteps(j, g)]
  {
  }

  lemma PrivateLast(j: Job, init: seq<GridPoint>, g: GridPoint, which: Key -> bool)
    requires ValidWorld(j.e)
    ensures Pool.CountPrivate(Trajectories(j), Own(j), Begins(init + [g]), Lengths(j, init + [g]), which)
         == Pool.CountPrivate(Trajectories(j), Own(j), Begins(init), Lengths(j, init), which)
          + Pool.CountKeys(OwnKeys(j, g), which)
  {
    LastOfGrid(j, init, g);
    Pool.OneMoreWorker(Trajectories(j), Own(j), Begins(init), Begin(g), Lengths(j, init), OwnSteps(j, g), which);
  }

  lemma {:induction false} PrivateTotals(j: Job, grid: seq<GridPoint>, q: Request)
    requires ValidWorld(j.e)
    ensures Pool.CountPrivate(Trajectories(j), Own(j), Begins(grid), Lengths(j, grid), IsBacktest())
         == TotalRequests(Meaning(j.e, j.p, j.ss, j.cutoffs), grid)
    ensures Pool.CountPrivate(Trajectories(j), Own(j), Begins(grid), Lengths(j, grid), IsKey(Backtest(q))) > 0
       <==> q in AllRequests(Meaning(j.e, j.p, j.ss, j.cutoffs), grid)
  {
    if grid != [] {
      var init, g := grid[..|grid| - 1], grid[|grid| - 1];
      assert grid == init + [g];
      PrivateTotals(j, init, q);
      PrivateLast(j, init, g, IsBacktest());
      PrivateLast(j, init, g, IsKey(Backtest(q)));
      OwnCounts(j, g, q);
    }
  }

  /** The runner of a finished thread pool: its lookups are all the requests of the uncached
      runs, and it holds exactly the distinct ones, each run at most once. */
  lemma ThreadsCount(j: Job, grid: seq<GridPoint>, p: ThreadPool, ts: seq<Pool.Turn<Key, Value, string>>)
    requires ValidWorld(j.e) && FinishedPool(j, grid, p, ts)
    ensures var q := Pool.Play(Trajectories(j), Own(j), p, ts);
      && Counted(Meaning(j.e, j.p, j.ss, j.cutoffs), grid, Stored(p.cache), Lookups(p.cache), Stored(q.cache), Lookups(q.cache))
      && forall k :: q.cache.successes[k] <= 1
  {
    var prog, f, inits, ns := Trajectories(j), Own(j), Begins(grid), Lengths(j, grid);
    var meaning := Meaning(j.e, j.p, j.ss, j.cutoffs);
    var q := Pool.Play(prog, f, p, ts);
    AllStop(j, grid);
    Pool.PoolOutcome(prog, f, inits, ns, p, ts, IsBacktest());
    forall k ensures q.cache.successes[k] <= 1 { Pool.PoolCache(prog, f, inits, ns, p, ts, k, IsKey(k)); }
    forall r ensures r in Stored(q.cache) <==> r in Stored(p.cache) || r in AllRequests(meaning, grid) {
      PrivateTotals(j, grid, r);
      StoredOne(j, grid, p, ts, r);
    }
    PrivateTotals(j, grid, Request([], 0.0, 0, 0, None));
  }

  lemma StoredOne(j: Job, grid: seq<GridPoint>, p: ThreadPool, ts: seq<Pool.Turn<Key, Value, string>>, r: Request)
    requires ValidWorld(j.e) && FinishedPool(j, grid, p, ts)
    ensures r in Stored(Pool.Play(Trajectories(j), Own(j), p, ts).cache) <==>
      r in Stored(p.cache) || Pool.CountPrivate(Trajectories(j), Own(j), Begins(grid), Lengths(j, grid), IsKey(Backtest(r))) > 0
  {
    AllStop(j, grid);
    Pool.PoolCache(Trajectories(j), Own(j), Begins(grid), Lengths(j, grid), p, ts, Backtest(r), IsKey(Backtest(r)));
    InStored(p.cache, r);
    InStored(Pool.Play(Trajectories(j), Own(j), p, ts).cache, r);
  }

  lemma InStored(s: Caches4, r: Request)
    ensures r in Stored(s) <==> Backtest(r) in s.cache
  {
    if Backtest(r) in s.cache { assert Backtest(r).q == r; }
  }
}
