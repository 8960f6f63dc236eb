/** Whom a run follows at each cutoff, in terms of the frame's rows, the fresh ranks and the closed
    live rows. */
module PolicyLaws {
  import opened Basics
  import opened Policies
  import opened Displacement
  import opened Trajectory
  import opened WalkForward
  import opened PeriodLaws

  // ---------- counting rows ----------

  /** The places of `s` that pass the test. */
  ghost function Places<T>(s: seq<T>, keep: T -> bool): set<int> { set i | 0 <= i < |s| && keep(s[i]) }

  lemma {:induction false} FilterLength<T>(s: seq<T>, keep: T -> bool)
    ensures |Filter(s, keep)| == |Places(s, keep)|
  {
    if s == [] {
      assert Places(s, keep) == {};
    } else {
      var n := |s| - 1;
      FilterLength(s[..n], keep);
      assert Places(s, keep) == Places(s[..n], keep) + if keep(s[n]) then {n} else {};
    }
  }

  lemma {:induction false} FilterTwice<T>(s: seq<T>, a: T -> bool, b: T -> bool, both: T -> bool)
    requires forall x :: x in s ==> (both(x) <==> a(x) && b(x))
    ensures Filter(Filter(s, a), b) == Filter(s, both)
  {
    if s != [] {
      var n := |s| - 1;
      assert s == s[..n] + [s[n]];
      FilterTwice(s[..n], a, b, both);
      FilterAppend(Filter(s[..n], a), if a(s[n]) then [s[n]] else [], b);
    }
  }

  // ---------- who is eligible ----------

  /** A label of `w` inside the criteria band, entered in the training window and resolved. */
  ghost predicate Usable(r: Row, p: Params, c: Criteria, asOf: int, w: Wallet) {
    && r.wallet == w
    && (r.ttrRef - r.entry) as real <= 3600.0 * c.ttrHours && r.price >= c.priceMin && r.price <= c.priceMax
    && r.entry >= asOf - p.trainSecs && r.entry < asOf && r.resolved <= asOf
  }

  lemma UsableRows(ss: seq<Row>, p: Params, c: Criteria, asOf: int, w: Wallet)
    ensures OfWallet(InSample(Slice(ss, c), asOf, p.trainSecs), w) == Filter(ss, r => Usable(r, p, c, asOf, w))
  {
    var band := (r: Row) => (r.ttrRef - r.entry) as real <= c.ttrHours * 3600.0 && c.priceMin <= r.price <= c.priceMax;
    var known := (r: Row) => asOf - p.trainSecs <= r.entry < asOf && r.resolved <= asOf;
    var own := (r: Row) => r.wallet == w;
    var usable := (r: Row) => Usable(r, p, c, asOf, w);
    FilterTwice(ss, band, known, r => band(r) && known(r));
    FilterTwice(ss, r => band(r) && known(r), own, usable);
  }

  lemma EligibleIsOwn(rows: seq<Row>, c: Criteria, asOf: int, w: Wallet)
    ensures w in Eligible(rows, c, asOf) <==> OfWallet(rows, w) != [] && Passes(rows, c, asOf, w)
  {
    var own := OfWallet(rows, w);
    FilterMembers(rows, (r: Row) => r.wallet == w);
    if own != [] {
      assert own[0] in own;
      assert own[0] in rows && own[0].wallet == w;
    }
  }

  lemma FilterPlaces<T>(s: seq<T>, keep: T -> bool)
    ensures Filter(s, keep) == [] <==> Places(s, keep) == {}
    ensures forall x :: x in Filter(s, keep) ==> exists i :: i in Places(s, keep) && s[i] == x
    ensures forall i :: i in Places(s, keep) ==> s[i] in Filter(s, keep)
  {
    FilterLength(s, keep);
    FilterMembers(s, keep);
    forall x | x in Filter(s, keep) ensures exists i :: i in Places(s, keep) && s[i] == x {
      var i :| 0 <= i < |s| && s[i] == x;
      assert i in Places(s, keep);
    }
  }

  /** Enough places, and a recent one when the recency gate is on. */
  ghost predicate Suffice(ss: seq<Row>, places: set<int>, c: Criteria, asOf: int)
    requires forall i :: i in places ==> 0 <= i < |ss|
  {
    && places != {} && |places| >= c.minTrl
    && (c.activeWithin > 0 ==> exists i :: i in places && ss[i].entry >= asOf - c.activeWithin)
  }

  lemma PassesIff(ss: seq<Row>, usable: Row -> bool, rows: seq<Row>, c: Criteria, asOf: int, w: Wallet)
    requires OfWallet(rows, w) == Filter(ss, usable)
    ensures OfWallet(rows, w) != [] && Passes(rows, c, asOf, w) <==> Suffice(ss, Places(ss, usable), c, asOf)
  {
    FilterLength(ss, usable);
    FilterPlaces(ss, usable);
  }

  /** A wallet is eligible exactly when it has a usable label, at least `minTrl` of them, and,
      with the recency gate on, one entered within it. */
  lemma EligibleExactly(ss: seq<Row>, p: Params, c: Criteria, asOf: int, w: Wallet)
    ensures w in Eligible(InSample(Slice(ss, c), asOf, p.trainSecs), c, asOf)
       <==> Suffice(ss, Places(ss, r => Usable(r, p, c, asOf, w)), c, asOf)
  {
    var rows := InSample(Slice(ss, c), asOf, p.trainSecs);
    UsableRows(ss, p, c, asOf, w);
    EligibleIsOwn(rows, c, asOf, w);
    PassesIff(ss, r => Usable(r, p, c, asOf, w), rows, c, asOf, w);
  }

  // ---------- evidence ----------

  /** A live row of `w` whose period is closed by the cutoff. */
  ghost predicate Evidence(r: PnlRow, asOf: int, w: Wallet) { r.wallet == w && r.periodEnd <= asOf }

  /** The realized amounts of the rows, in order. */
  ghost function Amounts(rows: seq<PnlRow>): seq<real> { seq(|rows|, i requires 0 <= i < |rows| => rows[i].realized) }

  lemma {:induction false} RealizedIsAmounts(live: seq<PnlRow>, w: Wallet)
    ensures RealizedOf(live, w) == Amounts(Filter(live, (r: PnlRow) => r.wallet == w))
  {
    if live != [] { RealizedIsAmounts(live[..|live| - 1], w); }
  }

  /** The series a wallet is judged on: its own closed rows, in order. */
  lemma EvidenceRows(live: seq<PnlRow>, asOf: int, w: Wallet)
    ensures RealizedOf(Closed(live, asOf), w) == Amounts(Filter(live, r => Evidence(r, asOf, w)))
    ensures |RealizedOf(Closed(live, asOf), w)| == |Places(live, r => Evidence(r, asOf, w))|
  {
    var evidence := (r: PnlRow) => Evidence(r, asOf, w);
    RealizedIsAmounts(Closed(live, asOf), w);
    FilterTwice(live, (r: PnlRow) => r.periodEnd <= asOf, (r: PnlRow) => r.wallet == w, evidence);
    FilterLength(live, evidence);
  }

  /** A member is proven exactly when it has at least `provenMin` closed live rows. */
  lemma ProvenByRows(s: Scores, live: seq<PnlRow>, asOf: int, provenMin: int, margin: int, w: Wallet)
    ensures Proven(Rules(s, Trajectory.Periods(live, asOf), provenMin, margin), w)
       <==> |Places(live, r => Evidence(r, asOf, w))| >= provenMin
  {
    var closed := Closed(live, asOf);
    EvidenceRows(live, asOf, w);
    RealizedAny(closed, w);
    var periods := Trajectory.Periods(live, asOf);
    assert w in periods <==> exists r :: r in closed && r.wallet == w;
  }

  /** A wallet is demoted exactly when the bound condemns its closed rows (a bound that spares a
      wallet without any). */
  lemma DemotedByRows(e: World, live: seq<PnlRow>, asOf: int, w: Wallet)
    requires !e.demote([])
    ensures w in DemoteSet(e, live, asOf) <==> e.demote(Amounts(Filter(live, r => Evidence(r, asOf, w))))
  {
    DemoteSetIsTest(e, live, asOf, w);
    EvidenceRows(live, asOf, w);
  }

  // ---------- whom each policy follows ----------

  /** Nobody of `ws` ranks behind a ranked wallet outside it. */
  ghost predicate Ahead(ws: seq<Wallet>, s: Scores) {
    forall w, v :: w in ws && w in s.rank && v in s.rank && v !in ws ==> s.rank[w] <= s.rank[v]
  }

  ghost predicate BestFirst(ws: seq<Wallet>, s: Scores) {
    forall i, j :: 0 <= i < j < |ws| && ws[i] in s.rank && ws[j] in s.rank ==> s.rank[ws[i]] <= s.rank[ws[j]]
  }

  /** `ws` are the `n` best of the ranking, or all of it if it is shorter, best first. */
  ghost predicate Best(ws: seq<Wallet>, s: Scores, n: nat) {
    && |ws| == (if |s.rank| <= n then |s.rank| else n) && Distinct(ws)
    && (forall w :: w in ws ==> w in s.rank)
    && Ahead(ws, s) && BestFirst(ws, s)
  }

  lemma KeysRanked(s: Scores)
    requires ValidScores(s)
    ensures |Elems(s.order) - {}| == |s.rank|
  {
    assert Elems(s.order) - {} == s.rank.Keys;
  }

  lemma RankedOnce(s: Scores)
    requires ValidScores(s)
    ensures |s.order| == |s.rank|
  {
    CountOutside(s.order, {});
    NoneOutside(s.order);
    KeysRanked(s);
  }

  lemma PrefixAhead(s: Scores, k: nat)
    requires ValidScores(s)
    ensures Ahead(Take(s.order, k), s)
  {
    var ws := Take(s.order, k);
    assert forall i :: 0 <= i < |ws| ==> ws[i] == s.order[i] && ws[i] in ws;
    forall w, v | w in ws && w in s.rank && v in s.rank && v !in ws ensures s.rank[w] <= s.rank[v] {
      var i :| 0 <= i < |ws| && ws[i] == w;
      assert v in s.order;
      var j :| 0 <= j < |s.order| && s.order[j] == v;
      assert s.order[i] == w;
    }
  }

  lemma TakeIsBest(s: Scores, k: nat)
    requires ValidScores(s)
    ensures Best(Take(s.order, k), s, k)
  {
    var ws := Take(s.order, k);
    RankedOnce(s);
    PrefixAhead(s, k);
    assert forall w :: w in ws ==> w in s.order;
    assert forall i :: 0 <= i < |ws| ==> ws[i] == s.order[i];
  }

  /** What the run does at cutoff `i` with the ranks that survive the gates there. */
  lemma FollowsSignal(e: World, p: Params, g: GridPoint, ss: seq<Row>, cutoffs: seq<int>, i: nat)
    requires ValidWorld(e) && i < |cutoffs|
    ensures var c := Before(e, p, g, ss, cutoffs, i); var s := Surviving(e, p, g, ss, cutoffs[i]);
      Before(e, p, g, ss, cutoffs, i + 1).prev ==
        if s.None? || s.value.ranks.order == [] then []
        else PolicyStep(e, p, g.policy, c.online, c.prev, s.value, c.live, cutoffs[i]).0
  {
    var c := Before(e, p, g, ss, cutoffs, i);
    BeforeStep(e, p, g, ss, cutoffs, i);
    AdvancePrev(p, g, c, cutoffs[i], SignalAt(e, p, g, ss, c, cutoffs[i]), e.backtest);
  }

  /** The ranks that survive the gates at a cutoff; none without an eligible wallet. */
  ghost function RanksAt(e: World, p: Params, g: GridPoint, ss: seq<Row>, asOf: int): Scores
  {
    var s := Surviving(e, p, g, ss, asOf);
    if s.None? then Scores([], map[]) else s.value.ranks
  }

  /** What a run reports as final after cutoff `i`: the set followed then and its scores, or
      nothing. */
  lemma ReportsLast(e: World, p: Params, g: GridPoint, ss: seq<Row>, cutoffs: seq<int>, i: nat)
    requires ValidWorld(e) && i < |cutoffs|
    ensures var d := Before(e, p, g, ss, cutoffs, i + 1); var s := Surviving(e, p, g, ss, cutoffs[i]);
      d.finalFollow == d.prev && d.finalScores == if d.prev == [] then None else s
  {
    BeforeStep(e, p, g, ss, cutoffs, i);
  }

  /** From `c` to `d` the online policy follows its selector, which carries its state from one
      signal to the next and starts afresh after a period without one. */
  ghost predicate FollowsSelector(e: World, k: nat, s: Option<WalletScores>, c: Carry, d: Carry) {
    if d.prev == [] then
      d.online == None && (s.None? || s.value.ranks.order == [] || e.select(s.value, k, c.online).0 == [])
    else s.Some? && (d.prev, d.online) == (e.select(s.value, k, c.online).0, Some(e.select(s.value, k, c.online).1))
  }

  lemma OnlineStep(e: World, p: Params, g: GridPoint, ss: seq<Row>, c: Carry, asOf: int)
    requires ValidWorld(e) && g.policy.OnlineWeighting?
    ensures FollowsSelector(e, p.k, Surviving(e, p, g, ss, asOf), c, Step(e, p, g, ss, c, asOf))
  {
  }

  lemma OnlineFollows(e: World, p: Params, g: GridPoint, ss: seq<Row>, cutoffs: seq<int>, i: nat)
    requires ValidWorld(e) && g.policy.OnlineWeighting? && i < |cutoffs|
    ensures FollowsSelector(e, p.k, Surviving(e, p, g, ss, cutoffs[i]),
                            Before(e, p, g, ss, cutoffs, i), Before(e, p, g, ss, cutoffs, i + 1))
  {
    BeforeStep(e, p, g, ss, cutoffs, i);
    OnlineStep(e, p, g, ss, Before(e, p, g, ss, cutoffs, i), cutoffs[i]);
  }

  // ---------- what is asked of the estimator and of the gate ----------

  /** Two worlds that answer alike what a cutoff asks: the uniqueness of its in-sample rows, the
      estimator's scores of the eligible wallets on those rows and weights, and the gate on those
      scores, for as many trials as there are wallets scored. */
  ghost predicate AnswerAlike(e: World, e': World, p: Params, g: GridPoint, ss: seq<Row>, asOf: int) {
    var rows := InSample(ss, asOf, p.trainSecs);
    var eligible := Eligible(rows, g.criteria, asOf);
    var ws := e.uniqueness(rows);
    var scores := e.score(g.estimator, rows, eligible, asOf, ws);
    var n := |scores.ranks.order|;
    && e'.uniqueness(rows) == ws && e'.score(g.estimator, rows, eligible, asOf, ws) == scores
    && e'.deflate(scores, rows, g.deflator, n, ws) == e.deflate(scores, rows, g.deflator, n, ws)
  }

  /** Nothing else of the world reaches the ranks of a cutoff. */
  lemma RanksReadOnly(e: World, e': World, p: Params, g: GridPoint, ss: seq<Row>, asOf: int)
    requires AnswerAlike(e, e', p, g, ss, asOf)
    ensures Surviving(e, p, g, ss, asOf) == Surviving(e', p, g, ss, asOf)
    ensures Surviving(e, p, g, ss, asOf).None? <==> Eligible(InSample(ss, asOf, p.trainSecs), g.criteria, asOf) == {}
  {
  }

  /** The full re-rank follows the k best survivors of every cutoff, best first. */
  lemma RerankFollowsBest(e: World, p: Params, g: GridPoint, ss: seq<Row>, cutoffs: seq<int>, i: nat)
    requires ValidWorld(e) && g.policy.FullRerank? && i < |cutoffs|
    ensures Best(Wallets(Before(e, p, g, ss, cutoffs, i + 1).prev), RanksAt(e, p, g, ss, cutoffs[i]), p.k)
  {
    FollowsSignal(e, p, g, ss, cutoffs, i);
    var s := RanksAt(e, p, g, ss, cutoffs[i]);
    TakeIsBest(s, p.k);
    WalletsOfHard(Take(s.order, p.k));
  }

  /** The held wallets that the bound spares at a cutoff. */
  ghost predicate Spared(e: World, c: Carry, asOf: int, w: Wallet) {
    w in Wallets(c.prev) && !e.demote(Amounts(Filter(c.live, r => Evidence(r, asOf, w))))
  }

  /** Spared members and ranked wallets only, and no slot empty while one of them is out. */
  ghost predicate Filled(spared: Wallet -> bool, s: Scores, k: nat, follow: seq<Wallet>) {
    && Distinct(follow) && |follow| <= k
    && (forall w :: w in follow ==> spared(w) || w in s.rank)
    && (|follow| < k ==> forall w :: spared(w) || w in s.rank ==> w in follow)
  }

  lemma SparedAreOutside(e: World, c: Carry, asOf: int)
    requires !e.demote([])
    ensures forall w :: w in Outside(Wallets(c.prev), DemoteSet(e, c.live, asOf)) <==> Spared(e, c, asOf, w)
  {
    OutsideMembers(Wallets(c.prev), DemoteSet(e, c.live, asOf));
    forall w ensures w in Outside(Wallets(c.prev), DemoteSet(e, c.live, asOf)) <==> Spared(e, c, asOf, w) {
      DemotedByRows(e, c.live, asOf, w);
    }
  }

  lemma {:induction false} OutsideShorter(ws: seq<Wallet>, s: set<Wallet>)
    ensures |Outside(ws, s)| <= |ws|
  {
    if ws != [] { OutsideShorter(ws[..|ws| - 1], s); }
  }

  lemma KnockoutFilled(e: World, p: Params, c: Carry, s: Scores, asOf: int)
    requires !e.demote([]) && ValidScores(s) && Distinct(Wallets(c.prev)) && |c.prev| <= p.k
    ensures var follow := Knockout(p.k, Wallets(c.prev), s, DemoteSet(e, c.live, asOf));
      && Filled(w => Spared(e, c, asOf, w), s, p.k, follow)
      && (forall w :: Spared(e, c, asOf, w) ==> w in follow)
  {
    var demoted := DemoteSet(e, c.live, asOf);
    KnockoutShape(p.k, Wallets(c.prev), s, demoted);
    SparedAreOutside(e, c, asOf);
    OutsideShorter(Wallets(c.prev), demoted);
  }

  /** No newcomer ranks behind a ranked wallet left out. */
  ghost predicate BestAdmitted(spared: Wallet -> bool, s: Scores, follow: seq<Wallet>) {
    forall a, b :: a in follow && a in s.rank && !spared(a) && b in s.rank && b !in follow ==> s.rank[a] <= s.rank[b]
  }

  lemma KnockoutAdmitsBest(e: World, p: Params, c: Carry, s: Scores, asOf: int)
    requires !e.demote([]) && ValidScores(s)
    requires forall w :: Spared(e, c, asOf, w) ==> w in Knockout(p.k, Wallets(c.prev), s, DemoteSet(e, c.live, asOf))
    ensures BestAdmitted(w => Spared(e, c, asOf, w), s, Knockout(p.k, Wallets(c.prev), s, DemoteSet(e, c.live, asOf)))
  {
    var demoted := DemoteSet(e, c.live, asOf);
    var follow := Knockout(p.k, Wallets(c.prev), s, demoted);
    SparedAreOutside(e, c, asOf);
    forall a, b | a in follow && a in s.rank && !Spared(e, c, asOf, a) && b in s.rank && b !in follow
      ensures s.rank[a] <= s.rank[b]
    {
      assert a in s.order && b in s.order;
      var i, j :| 0 <= i < |s.order| && s.order[i] == a && 0 <= j < |s.order| && s.order[j] == b;
      KnockoutBestFirst(p.k, Wallets(c.prev), s, demoted, i, j);
    }
  }

  /** Knockout and backfill at every cutoff: exactly the spared members stay, and the free slots
      go to the best-ranked others. */
  lemma KnockoutFollows(e: World, p: Params, g: GridPoint, ss: seq<Row>, cutoffs: seq<int>, i: nat)
    requires ValidWorld(e) && !e.demote([]) && g.policy.KnockoutBackfill? && i < |cutoffs|
    requires RanksAt(e, p, g, ss, cutoffs[i]).rank != map[]
    ensures var c := Before(e, p, g, ss, cutoffs, i); var s := RanksAt(e, p, g, ss, cutoffs[i]);
      var spared := w => Spared(e, c, cutoffs[i], w); var follow := Wallets(Before(e, p, g, ss, cutoffs, i + 1).prev);
      Filled(spared, s, p.k, follow) && BestAdmitted(spared, s, follow) && forall w :: spared(w) ==> w in follow
  {
    var c, s := Before(e, p, g, ss, cutoffs, i), RanksAt(e, p, g, ss, cutoffs[i]);
    FollowedOnce(e, p, g, ss, cutoffs, i);
    HardlyFollowed(e, p, g, ss, cutoffs, i);
    FollowsSignal(e, p, g, ss, cutoffs, i);
    RankedOnce(s);
    KnockoutFilled(e, p, c, s, cutoffs[i]);
    KnockoutAdmitsBest(e, p, c, s, cutoffs[i]);
    WalletsOfHard(Knockout(p.k, Wallets(c.prev), s, DemoteSet(e, c.live, cutoffs[i])));
  }

  /** `w` has fewer than the proving number of closed live rows. */
  ghost predicate Unproven(p: Params, c: Carry, asOf: int, w: Wallet) {
    |Places(c.live, r => Evidence(r, asOf, w))| < p.provenMin
  }

  /** No ranked wallet left out beats a followed wallet that is not proven yet. */
  ghost predicate Undisplaced(p: Params, c: Carry, s: Scores, asOf: int, follow: seq<Wallet>) {
    forall w, m :: w in s.rank && w !in follow && m in follow && Unproven(p, c, asOf, m) ==> !Beats(s, p.margin, w, m)
  }

  /** The rules of the displacement pass at a cutoff. */
  ghost function RulesAt(p: Params, c: Carry, s: Scores, asOf: int): Rules {
    Rules(s, Trajectory.Periods(c.live, asOf), p.provenMin, p.margin)
  }

  lemma UnbeatenIsUndisplaced(p: Params, c: Carry, s: Scores, asOf: int, follow: seq<Wallet>)
    requires Unbeaten(RulesAt(p, c, s, asOf), follow)
    ensures Undisplaced(p, c, s, asOf, follow)
  {
    forall w, m | w in s.rank && w !in follow && m in follow && Unproven(p, c, asOf, m) ensures !Beats(s, p.margin, w, m) {
      ProvenByRows(s, c.live, asOf, p.provenMin, p.margin, m);
    }
  }

  lemma PassKeepsFilled(spared: Wallet -> bool, r: Rules, k: nat, base: seq<Wallet>)
    requires ValidScores(r.scores) && Settling(r) && Filled(spared, r.scores, k, base)
    ensures Take(Hybrid(r, base), k) == Hybrid(r, base) && Filled(spared, r.scores, k, Hybrid(r, base))
  {
    var after := Hybrid(r, base);
    KeepsSizeAndProven(r, base, 0);
    PassShape(r, base);
    OutsideMembers(base, Elems(base) - Elems(after));
    NewcomersAre(r.scores.order, base, after);
    if |base| < k { FixedExactlyWhen(r, base); }
  }

  /** The displacement policy at every cutoff: proven spared members stay, no slot is empty while
      somebody is available, and no ranked wallet left out beats a member that is not proven. */
  lemma HybridFollows(e: World, p: Params, g: GridPoint, ss: seq<Row>, cutoffs: seq<int>, i: nat)
    requires ValidWorld(e) && !e.demote([]) && g.policy.HybridDisplacement? && i < |cutoffs|
    requires RanksAt(e, p, g, ss, cutoffs[i]).rank != map[]
    requires p.margin >= 0 || (p.margin == -1 && ValidScores(RanksAt(e, p, g, ss, cutoffs[i])) && StrictRanks(RanksAt(e, p, g, ss, cutoffs[i])))
    ensures var c := Before(e, p, g, ss, cutoffs, i); var s := RanksAt(e, p, g, ss, cutoffs[i]);
      var spared := w => Spared(e, c, cutoffs[i], w); var follow := Wallets(Before(e, p, g, ss, cutoffs, i + 1).prev);
      && Filled(spared, s, p.k, follow) && Undisplaced(p, c, s, cutoffs[i], follow)
      && forall w :: spared(w) && !Unproven(p, c, cutoffs[i], w) ==> w in follow
  {
    var c, s := Before(e, p, g, ss, cutoffs, i), RanksAt(e, p, g, ss, cutoffs[i]);
    FollowedOnce(e, p, g, ss, cutoffs, i);
    HardlyFollowed(e, p, g, ss, cutoffs, i);
    FollowsSignal(e, p, g, ss, cutoffs, i);
    RankedOnce(s);
    HybridStepFollows(e, p, c, s, cutoffs[i]);
    WalletsOfHard(HybridFollow(e, p, c, s, cutoffs[i]));
  }

  ghost function HybridFollow(e: World, p: Params, c: Carry, s: Scores, asOf: int): seq<Wallet>
    requires ValidScores(s)
  {
    Take(Hybrid(RulesAt(p, c, s, asOf), Knockout(p.k, Wallets(c.prev), s, DemoteSet(e, c.live, asOf))), p.k)
  }

  lemma HybridStepFollows(e: World, p: Params, c: Carry, s: Scores, asOf: int)
    requires !e.demote([]) && ValidScores(s) && Distinct(Wallets(c.prev)) && |c.prev| <= p.k
    requires Settling(RulesAt(p, c, s, asOf))
    ensures var spared := w => Spared(e, c, asOf, w); var follow := HybridFollow(e, p, c, s, asOf);
      && Filled(spared, s, p.k, follow) && Undisplaced(p, c, s, asOf, follow)
      && forall w :: spared(w) && !Unproven(p, c, asOf, w) ==> w in follow
  {
    var r, base := RulesAt(p, c, s, asOf), Knockout(p.k, Wallets(c.prev), s, DemoteSet(e, c.live, asOf));
    KnockoutFilled(e, p, c, s, asOf);
    PassKeepsFilled(w => Spared(e, c, asOf, w), r, p.k, base);
    FixedExactlyWhen(r, base);
    UnbeatenIsUndisplaced(p, c, s, asOf, Hybrid(r, base));
    KeepsSizeAndProven(r, base, 0);
    forall w | Spared(e, c, asOf, w) && !Unproven(p, c, asOf, w) ensures w in Hybrid(r, base) {
      ProvenByRows(s, c.live, asOf, p.provenMin, p.margin, w);
    }
  }

  // ---------- the charge, wallet by wallet ----------

  /** What the weight of `w` rises by. */
  ghost function Rise(held: Follow, follow: Follow, w: Wallet): real {
    if WeightOf(follow, w) > WeightOf(held, w) then WeightOf(follow, w) - WeightOf(held, w) else 0.0
  }

  ghost function Rises(held: Follow, follow: Follow, ws: seq<Wallet>): real {
    if ws == [] then 0.0 else Rises(held, follow, ws[..|ws| - 1]) + Rise(held, follow, ws[|ws| - 1])
  }

  /** The two pairs differ at most in the weights of `x`. */
  ghost predicate DifferAt(p: Follow, f: Follow, p': Follow, f': Follow, x: Wallet) {
    forall w :: w != x ==> WeightOf(p, w) == WeightOf(p', w) && WeightOf(f, w) == WeightOf(f', w)
  }

  lemma {:induction false} RisesChange(p: Follow, f: Follow, p': Follow, f': Follow, ws: seq<Wallet>, x: Wallet)
    requires DifferAt(p, f, p', f', x) && Distinct(ws)
    ensures Rises(p', f', ws) == Rises(p, f, ws) + if x in ws then Rise(p', f', x) - Rise(p, f, x) else 0.0
  {
    if ws != [] {
      var n := |ws| - 1;
      RisesChange(p, f, p', f', ws[..n], x);
      assert ws == ws[..n] + [ws[n]] && ws[n] !in ws[..n];
    }
  }

  lemma WeightOfMore(f: Follow, h: Holding)
    ensures forall w :: WeightOf(f + [h], w) == if w == h.wallet then h.weight else WeightOf(f, w)
  {
    assert (f + [h])[..|f|] == f;
  }

  lemma {:induction false} NoRises(ws: seq<Wallet>)
    ensures Rises([], [], ws) == 0.0
  {
    if ws != [] { NoRises(ws[..|ws| - 1]); }
  }

  lemma {:induction false} ReleasedRises(held: Follow, ws: seq<Wallet>)
    requires Distinct(Wallets(held)) && Distinct(ws) && forall w :: w in Wallets(held) ==> w in ws
    ensures Churn(held, []) == Rises(held, [], ws)
  {
    if held == [] {
      NoRises(ws);
    } else {
      var init, h := held[..|held| - 1], held[|held| - 1];
      WalletsInit(held);
      assert held == init + [h];
      ReleasedRises(init, ws);
      WeightOfMore(init, h);
      WeightOutside(init, h.wallet);
      RisesChange(init, [], held, [], ws, h.wallet);
    }
  }

  lemma ChurnOneMore(held: Follow, f: Follow, h: Holding)
    requires Distinct(Wallets(held)) && h.wallet !in Wallets(f)
    ensures Churn(held, f + [h]) == Churn(held, f) + Rise(held, f + [h], h.wallet) - Rise(held, f, h.wallet)
  {
    assert (f + [h])[..|f|] == f;
    LeaversDrop(held, f, h);
    WeightOfMore(f, h);
    WeightOutside(f, h.wallet);
    if h.wallet !in Wallets(held) { WeightOutside(held, h.wallet); }
  }

  /** The charge is on the weight increases of all wallets on either side, added up in any order:
      a wallet absent on a side weighs nothing there, and a decrease costs nothing. */
  lemma {:induction false} ChurnByWallet(held: Follow, follow: Follow, ws: seq<Wallet>)
    requires Distinct(Wallets(held)) && Distinct(Wallets(follow)) && Distinct(ws)
    requires forall w :: w in Wallets(held) || w in Wallets(follow) ==> w in ws
    ensures Churn(held, follow) == Rises(held, follow, ws)
  {
    if follow == [] {
      ReleasedRises(held, ws);
    } else {
      var init, h := follow[..|follow| - 1], follow[|follow| - 1];
      WalletsInit(follow);
      assert follow == init + [h];
      ChurnByWallet(held, init, ws);
      ChurnOneMore(held, init, h);
      WeightOfMore(init, h);
      RisesChange(held, init, held, follow, ws, h.wallet);
    }
  }
}
