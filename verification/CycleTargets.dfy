/** Selection of a cycle's activity generation (`candidate_targets` and
    `_candidate_obligations` of `scripts/rank_cycle_manifest.py`). */
module CycleTargets {
  import opened Basics

  /** A decoded collection identity. */
  datatype Identity = Identity(
    version: int, generation: int, fixedEnd: int, base: Option<int>, digest: string, wallets: set<string>)

  /** An archived identity column: absent, undecodable, or decoded. */
  datatype Archived = Absent | Broken | Stored(identity: Identity)

  datatype Manifest = Manifest(archived: Archived, reference: string)

  datatype Kind = AcquisitionFailure | DormantDeferred | OtherKind

  /** What the obligation rules read of one activity receipt; `version` is the acquisition's. */
  datatype Receipt = Receipt(
    infra: bool, excluded: bool, unrepresentable: bool, parseFailure: bool, version: Option<int>, kind: Kind, aggregated: bool)

  datatype Side = Side(
    head: Option<Identity>,
    manifests: map<int, Manifest>,
    receipts: map<int, seq<Receipt>>,
    participantHolds: nat,
    coverageHold: bool,
    active: set<string>,
    infra: set<string>,
    payouts: map<int, int>)

  /** The cycle's baseline and the arguments of the call; `payout` is its payout generation. */
  datatype Ask = Ask(
    previous: nat, prior: Option<Identity>, payout: int, after: bool, now: int, maxStalenessHours: int,
    windowEnd: Option<int>, fillWindow: int)

  datatype Error =
    | Hold | NotCollected | OutsideCycle | OutsideChain | OmittedIdentity | BrokenIdentity
    | NoMatchingManifest | ForeignInitial | HeadIncomplete | FutureEnd | StaleTopUp

  datatype Result<+T> = Ok(value: T) | Err(error: Error)

  datatype Targets = Targets(generation: int, payout: int, payoutDone: bool)

  const TOP_UP_RESERVE_HOURS := 7

  function Initial(a: Ask): int { a.previous + 1 }

  // ---------- obligations ----------

  datatype Duty = Nothing | Held | Successor

  function DutyOf(r: Receipt): Duty {
    if !r.excluded || r.infra then Nothing
    else if r.unrepresentable && (r.version.None? || r.version.value <= 3) then Nothing
    else if r.unrepresentable || r.parseFailure then Held
    else if r.version.Some? && r.version.value in {3, 4} && r.kind.AcquisitionFailure? && r.aggregated then Successor
    else if r.version.Some? && r.kind.DormantDeferred? then Successor
    else Held
  }

  function ReceiptsOf(side: Side, g: int): seq<Receipt> {
    if g in side.receipts then side.receipts[g] else []
  }

  /** An excluded receipt of a wallet that never carried an infra mark. */
  predicate Open(r: Receipt) { r.excluded && !r.infra }

  /** An unrepresentable row is excused up to acquisition version 3, or without an acquisition. */
  predicate Excused(r: Receipt) { r.unrepresentable && !(r.version.Some? && r.version.value > 3) }

  /** A receipt that another collection can mend: a deferred wallet, or a version 3 or 4 failure
      whose aggregation is complete; neither unrepresentable nor unparsable. */
  predicate Mendable(r: Receipt) {
    && r.version.Some? && !r.unrepresentable && !r.parseFailure
    && (r.kind == DormantDeferred || (r.kind == AcquisitionFailure && r.aggregated && 3 <= r.version.value <= 4))
  }

  /** Nothing may be on hold: no participant, no coverage gap, and every open receipt of the
      head is excused or mendable. */
  ghost predicate NoHolds(side: Side, head: Option<Identity>) {
    && side.participantHolds == 0 && !side.coverageHold
    && (head.Some? ==> forall r :: r in ReceiptsOf(side, head.value.generation) && Open(r) ==> Excused(r) || Mendable(r))
  }

  /** A successor is owed by a mendable receipt, or, once complete, by a wallet missing from the head's
      frozen list or by a fixed end short of the window's print tail. */
  ghost predicate Owes(side: Side, head: Option<Identity>, completed: bool, a: Ask) {
    head.Some? &&
    ((exists r :: r in ReceiptsOf(side, head.value.generation) && Open(r) && Mendable(r))
     || (completed && (side.active - side.infra - head.value.wallets != {}
                       || (a.windowEnd.Some? && head.value.fixedEnd < a.windowEnd.value - 1 + a.fillWindow))))
  }

  /** The rules, taken in order, sort the receipts just so. */
  lemma DutyIff(r: Receipt)
    ensures DutyOf(r).Nothing? <==> !Open(r) || Excused(r)
    ensures DutyOf(r).Successor? <==> Open(r) && Mendable(r)
    ensures DutyOf(r).Held? <==> Open(r) && !Excused(r) && !Mendable(r)
  {
  }

  method Obligations(side: Side, head: Option<Identity>, completed: bool, a: Ask) returns (r: Result<bool>)
    requires completed ==> head.Some?
    ensures r.Err? ==> r.error == Hold
    ensures r.Ok? <==> NoHolds(side, head)
    ensures r.Ok? ==> (r.value <==> Owes(side, head, completed, a))
  {
    var holds := side.participantHolds + if side.coverageHold then 1 else 0;
    var successor := false;
    if head.Some? {
      var rs := ReceiptsOf(side, head.value.generation);
      for i := 0 to |rs|
        invariant holds >= 0
        invariant holds == 0 <==> NoHolds(side, None) && forall j :: 0 <= j < i && Open(rs[j]) ==> Excused(rs[j]) || Mendable(rs[j])
        invariant successor <==> exists j :: 0 <= j < i && Open(rs[j]) && Mendable(rs[j])
      {
        DutyIff(rs[i]);
        match DutyOf(rs[i])
        case Nothing =>
        case Held => holds := holds + 1;
        case Successor => successor := true;
      }
    }
    if holds > 0 { return Err(Hold); }
    if completed {
      successor := successor || side.active - side.infra - head.value.wallets != {};
      successor := successor || (a.windowEnd.Some? && head.value.fixedEnd < a.windowEnd.value - 1 + a.fillWindow);
    }
    r := Ok(successor);
  }

  // ---------- the predecessor chain ----------

  /** The archived predecessor of `id`: linked by `id`, stored under its own generation, and
      completed by a manifest whose reference is its digest. */
  function Predecessor(side: Side, id: Identity): (r: Result<Identity>)
    ensures r.Ok? ==> r.value.generation == id.generation - 1
  {
    var g := id.generation - 1;
    if id.version < 2 || id.base != Some(g) then Err(OutsideChain)
    else if g !in side.manifests then Err(OmittedIdentity)
    else
      match side.manifests[g].archived
      case Broken => Err(BrokenIdentity)
      case Absent => Err(OmittedIdentity)
      case Stored(p) =>
        if p.generation != g then Err(OmittedIdentity)
        else if side.manifests[g].reference != p.digest then Err(NoMatchingManifest)
        else Ok(p)
  }

  /** The walk from the head down to the initial generation. */
  function Walk(side: Side, id: Identity, initial: int): Result<Identity>
    decreases id.generation - initial
  {
    if id.generation <= initial then Ok(id)
    else
      var p := Predecessor(side, id);
      if p.Err? then p else Walk(side, p.value, initial)
  }

  method WalkChain(side: Side, head: Identity, initial: int) returns (r: Result<Identity>)
    ensures r == Walk(side, head, initial)
  {
    var id := head;
    while id.generation > initial
      invariant Walk(side, id, initial) == Walk(side, head, initial)
      decreases id.generation - initial
    {
      var p := Predecessor(side, id);
      if p.Err? { return p; }
      id := p.value;
    }
    r := Ok(id);
  }

  /** `lower` is the completed, digest-matching archived predecessor that `upper` names. */
  ghost predicate Linked(side: Side, lower: Identity, upper: Identity) {
    && upper.generation == lower.generation + 1
    && upper.version >= 2 && upper.base == Some(lower.generation)
    && lower.generation in side.manifests
    && side.manifests[lower.generation] == Manifest(Stored(lower), lower.digest)
  }

  /** An unbroken chain of identities from the initial generation up to the head. */
  ghost predicate Chain(side: Side, ids: seq<Identity>, initial: int, head: Identity) {
    && ids != [] && ids[0].generation == initial && ids[|ids| - 1] == head
    && forall k :: 0 <= k < |ids| - 1 ==> Linked(side, ids[k], ids[k + 1])
  }

  lemma {:induction false} ChainOfWalk(side: Side, head: Identity, initial: int) returns (ids: seq<Identity>)
    requires head.generation >= initial && Walk(side, head, initial).Ok?
    ensures Chain(side, ids, initial, head) && ids[0] == Walk(side, head, initial).value
    decreases head.generation - initial
  {
    if head.generation == initial {
      ids := [head];
    } else {
      var p := Predecessor(side, head).value;
      var lower := ChainOfWalk(side, p, initial);
      ids := lower + [head];
      forall k | 0 <= k < |ids| - 1 ensures Linked(side, ids[k], ids[k + 1]) {
        if k < |lower| - 1 { assert Linked(side, lower[k], lower[k + 1]); }
      }
    }
  }

  lemma {:induction false} WalkOfChain(side: Side, ids: seq<Identity>, initial: int, head: Identity)
    requires Chain(side, ids, initial, head)
    ensures head.generation == initial + |ids| - 1
    ensures Walk(side, head, initial) == Ok(ids[0])
  {
    var n := |ids| - 1;
    if n > 0 {
      assert Linked(side, ids[n - 1], ids[n - 1 + 1]);
      forall k | 0 <= k < n - 1 ensures Linked(side, ids[..n][k], ids[..n][k + 1]) {
        assert Linked(side, ids[k], ids[k + 1]);
      }
      WalkOfChain(side, ids[..n], initial, ids[n - 1]);
    }
  }

  // ---------- the decision ----------

  function PayoutDone(side: Side, a: Ask, generation: int): bool {
    if a.after then
      side.head.Some? && generation == side.head.value.generation
      && LatestPayoutAtLeast(side.payouts, a.payout, side.head.value.fixedEnd)
    else a.payout in side.payouts
  }

  /** The newest payout generation is at least `payout` and was completed at or after `end`. */
  predicate LatestPayoutAtLeast(payouts: map<int, int>, payout: int, end: int) {
    exists g :: g in payouts && (forall h :: h in payouts ==> h <= g) && g >= payout && payouts[g] >= end
  }

  function TargetsFor(side: Side, a: Ask, generation: int): Targets {
    Targets(generation, a.payout, PayoutDone(side, a, generation))
  }

  predicate Completed(side: Side, head: Identity) {
    head.generation in side.manifests && side.manifests[head.generation].reference == head.digest
  }

  /** Nothing has been collected in this cycle yet. */
  predicate Untouched(side: Side, a: Ask) {
    side.head.None? || (side.head == a.prior && side.head.value.generation == a.previous)
  }

  /** The generation chosen after a collection that owes no successor. */
  function AfterCollection(head: Identity, a: Ask): Result<int> {
    var age := a.now - head.fixedEnd;
    if age < 0 then Err(FutureEnd)
    else if head.generation != Initial(a) then
      if age > a.maxStalenessHours * 3600 then Err(StaleTopUp)
      else Ok(if head.version == 4 then head.generation + 1 else head.generation)
    else if head.version < 5 || age + TOP_UP_RESERVE_HOURS * 3600 > a.maxStalenessHours * 3600 then Ok(Initial(a) + 1)
    else Ok(head.generation)
  }

  /** The initial head extends the cycle's prior identity, if there is one, and nothing else. */
  predicate OwnBase(a: Ask, id: Identity) {
    id.version >= 2 ==> id.base == if a.prior.Some? then Some(a.previous) else None
  }

  /** The head's cycle membership: the generation, the chain and the initial base. */
  function Membership(side: Side, a: Ask, head: Identity): Result<Identity> {
    if head.generation < Initial(a) then Err(OutsideCycle)
    else
      var w := Walk(side, head, Initial(a));
      if w.Err? then w
      else if !OwnBase(a, w.value) then Err(ForeignInitial)
      else w
  }

  method CandidateTargets(side: Side, a: Ask) returns (r: Result<Targets>)
    ensures Untouched(side, a) ==>
      r == if !NoHolds(side, None) then Err(Hold)
           else if a.after then Err(NotCollected)
           else Ok(TargetsFor(side, a, Initial(a)))
    ensures !Untouched(side, a) ==> r == Decision(side, a, side.head.value)
  {
    if Untouched(side, a) {
      var duties := Obligations(side, None, false, a);
      if duties.Err? { return Err(duties.error); }
      if a.after { return Err(NotCollected); }
      return Ok(TargetsFor(side, a, Initial(a)));
    }
    var head := side.head.value;
    if head.generation < Initial(a) { return Err(OutsideCycle); }
    var first := WalkChain(side, head, Initial(a));
    if first.Err? { return Err(first.error); }
    if !OwnBase(a, first.value) { return Err(ForeignInitial); }
    var completed := Completed(side, head);
    if a.after && !completed { return Err(HeadIncomplete); }
    var successor := Obligations(side, Some(head), completed, a);
    if successor.Err? { return Err(successor.error); }
    if !a.after { return Ok(TargetsFor(side, a, head.generation)); }
    if successor.value { return Ok(TargetsFor(side, a, head.generation + 1)); }
    var next := AfterCollection(head, a);
    if next.Err? { return Err(next.error); }
    r := Ok(TargetsFor(side, a, next.value));
  }

  /** The decision for a head of this cycle, check by check. */
  ghost function Decision(side: Side, a: Ask, head: Identity): Result<Targets> {
    var m := Membership(side, a, head);
    if m.Err? then Err(m.error)
    else if a.after && !Completed(side, head) then Err(HeadIncomplete)
    else if !NoHolds(side, Some(head)) then Err(Hold)
    else if !a.after then Ok(TargetsFor(side, a, head.generation))
    else if Owes(side, Some(head), true, a) then Ok(TargetsFor(side, a, head.generation + 1))
    else
      var next := AfterCollection(head, a);
      if next.Err? then Err(next.error) else Ok(TargetsFor(side, a, next.value))
  }

  /** What the source answers, as a value. */
  ghost function Answer(side: Side, a: Ask): Result<Targets> {
    if !Untouched(side, a) then Decision(side, a, side.head.value)
    else if !NoHolds(side, None) then Err(Hold)
    else if a.after then Err(NotCollected)
    else Ok(TargetsFor(side, a, Initial(a)))
  }

  // ---------- what an answer implies ----------

  /** Every answer is the cycle's initial generation, the head's, or the next one. */
  lemma TargetIsNear(side: Side, a: Ask)
    requires Answer(side, a).Ok?
    ensures var g := Answer(side, a).value.generation;
      && g >= Initial(a)
      && (g == Initial(a) || (side.head.Some? && (g == side.head.value.generation || g == side.head.value.generation + 1)))
  {
  }

  /** A head is accepted only at the top of an unbroken chain of completed, digest-matching
      predecessors that starts at the cycle's initial generation on the cycle's own base. */
  lemma AcceptedHeadIsChained(side: Side, a: Ask) returns (ids: seq<Identity>)
    requires Answer(side, a).Ok? && !Untouched(side, a)
    ensures Chain(side, ids, Initial(a), side.head.value)
    ensures OwnBase(a, ids[0])
  {
    ids := ChainOfWalk(side, side.head.value, Initial(a));
  }

  /** Membership is exactly that chain: no check of the walk is redundant or missing. */
  lemma MembershipIffChain(side: Side, a: Ask, head: Identity)
    ensures Membership(side, a, head).Ok? <==>
      exists ids: seq<Identity> :: Chain(side, ids, Initial(a), head) && OwnBase(a, ids[0])
  {
    if Membership(side, a, head).Ok? {
      var ids := ChainOfWalk(side, head, Initial(a));
    }
    if ids: seq<Identity> :| Chain(side, ids, Initial(a), head) && OwnBase(a, ids[0]) {
      WalkOfChain(side, ids, Initial(a), head);
    }
  }

  /** After a collection the head's own generation is final exactly when the head belongs to
      the cycle, is complete, holds nothing, owes no successor, and is recent enough: for the
      initial head version 5 with the reserve to spare, for a top-up any version but 4. */
  lemma FinalIff(side: Side, a: Ask)
    requires a.after && !Untouched(side, a)
    ensures var head := side.head.value; var age := a.now - head.fixedEnd;
      Answer(side, a) == Ok(TargetsFor(side, a, head.generation)) <==>
        && Membership(side, a, head).Ok? && Completed(side, head)
        && NoHolds(side, Some(head)) && !Owes(side, Some(head), true, a)
        && age >= 0
        && if head.generation == Initial(a)
           then head.version >= 5 && age + TOP_UP_RESERVE_HOURS * 3600 <= a.maxStalenessHours * 3600
           else head.version != 4 && age <= a.maxStalenessHours * 3600
  {
  }

  // ---------- collect-then-ask runs ----------

  /** A run of the refresh loop: the first answer before any collection, then, while the
      target changes, a collection that installs a head of the target generation and another
      answer.  `sides[i]` is the cache when answer `i` is given. */
  ghost predicate Refresh(sides: seq<Side>, answers: seq<int>, a: Ask, clocks: seq<int>) {
    && |sides| == |answers| == |clocks| > 0 && !a.after
    && Answer(sides[0], a).Ok? && Answer(sides[0], a).value.generation == answers[0]
    && forall i :: 0 < i < |answers| ==> Collected(sides, answers, a, clocks, i)
  }

  ghost predicate Collected(sides: seq<Side>, answers: seq<int>, a: Ask, clocks: seq<int>, i: nat)
    requires |sides| == |answers| == |clocks| && 0 < i < |answers|
  {
    var asked := a.(after := true, now := clocks[i]);
    && sides[i].head.Some? && sides[i].head.value.generation == answers[i - 1]
    && !Untouched(sides[i], asked)
    && Answer(sides[i], asked).Ok? && Answer(sides[i], asked).value.generation == answers[i]
    && (i > 1 ==> answers[i - 1] != answers[i - 2])
  }

  /** Each answer repeats the target or moves it up by one, never below the initial
      generation: after `i` collections the target is at most `i` above the first. */
  lemma {:induction false} RefreshClimbs(sides: seq<Side>, answers: seq<int>, a: Ask, clocks: seq<int>, i: nat)
    requires Refresh(sides, answers, a, clocks) && i < |answers|
    ensures Initial(a) <= answers[0] <= answers[i] <= answers[0] + i
    ensures i > 0 ==> answers[i] == answers[i - 1] || answers[i] == answers[i - 1] + 1
    ensures 0 < i < |answers| - 1 ==> answers[i] == answers[i - 1] + 1
  {
    TargetIsNear(sides[0], a);
    if i > 0 {
      RefreshClimbs(sides, answers, a, clocks, i - 1);
      assert Collected(sides, answers, a, clocks, i);
      TargetIsNear(sides[i], a.(after := true, now := clocks[i]));
      if i < |answers| - 1 { assert Collected(sides, answers, a, clocks, i + 1); }
    }
  }

  /** When the loop stops, the collected head is final in the sense of `FinalIff`, at the top
      of a completed chain. */
  lemma RefreshStops(sides: seq<Side>, answers: seq<int>, a: Ask, clocks: seq<int>) returns (ids: seq<Identity>)
    requires Refresh(sides, answers, a, clocks) && |answers| > 1
    requires answers[|answers| - 1] == answers[|answers| - 2]
    ensures var side := sides[|sides| - 1]; var asked := a.(after := true, now := clocks[|clocks| - 1]);
      && side.head.Some? && Chain(side, ids, Initial(a), side.head.value)
      && Completed(side, side.head.value)
      && !Owes(side, Some(side.head.value), true, asked)
      && side.head.value.version != 4
      && asked.now - side.head.value.fixedEnd <= a.maxStalenessHours * 3600
  {
    var n := |answers| - 1;
    assert Collected(sides, answers, a, clocks, n);
    var asked := a.(after := true, now := clocks[n]);
    ids := AcceptedHeadIsChained(sides[n], asked);
    FinalIff(sides[n], asked);
  }
}
