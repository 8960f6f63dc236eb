/** Every answer and every error of `candidate_targets`, each with the condition under which it is
    given. */
module CycleLaws {
  import opened Basics
  import opened CycleTargets

  // ---------- why a walk down the chain fails ----------

  /** A stretch of the chain that ends in the head. */
  ghost predicate Descends(side: Side, ids: seq<Identity>, head: Identity) {
    ids != [] && ids[|ids| - 1] == head && forall k :: 0 <= k < |ids| - 1 ==> Linked(side, ids[k], ids[k + 1])
  }

  /** `id` names the generation below its own as its base. */
  ghost predicate Named(id: Identity) { id.version >= 2 && id.base == Some(id.generation - 1) }

  /** What is wrong below `id`. */
  ghost predicate Fault(side: Side, id: Identity, e: Error) {
    var g := id.generation - 1;
    match e
    case OutsideChain => !Named(id)
    case OmittedIdentity =>
      && Named(id)
      && (g in side.manifests ==>
            side.manifests[g].archived == Absent
            || (side.manifests[g].archived.Stored? && side.manifests[g].archived.identity.generation != g))
    case BrokenIdentity => Named(id) && g in side.manifests && side.manifests[g].archived == Broken
    case NoMatchingManifest =>
      && Named(id) && g in side.manifests && side.manifests[g].archived.Stored?
      && side.manifests[g].archived.identity.generation == g
      && side.manifests[g].archived.identity.digest != side.manifests[g].reference
    case _ => false
  }

  lemma PredecessorIs(side: Side, id: Identity)
    ensures Predecessor(side, id).Ok? ==> Linked(side, Predecessor(side, id).value, id)
    ensures forall lower :: Linked(side, lower, id) ==> Predecessor(side, id) == Ok(lower)
    ensures forall e :: Predecessor(side, id) == Err(e) <==> Fault(side, id, e)
  {
  }

  lemma {:induction false} FaultOfWalk(side: Side, head: Identity, initial: int, e: Error) returns (ids: seq<Identity>)
    requires Walk(side, head, initial) == Err(e)
    ensures Descends(side, ids, head) && ids[0].generation > initial && Fault(side, ids[0], e)
    decreases head.generation - initial
  {
    PredecessorIs(side, head);
    var p := Predecessor(side, head);
    if p.Err? {
      ids := [head];
    } else {
      var lower := FaultOfWalk(side, p.value, initial, e);
      ids := lower + [head];
      forall k | 0 <= k < |ids| - 1 ensures Linked(side, ids[k], ids[k + 1]) {
        if k < |lower| - 1 { assert Linked(side, lower[k], lower[k + 1]); }
      }
    }
  }

  lemma {:induction false} WalkOfFault(side: Side, ids: seq<Identity>, head: Identity, initial: int, e: Error)
    requires Descends(side, ids, head) && ids[0].generation > initial && Fault(side, ids[0], e)
    ensures head.generation >= ids[0].generation && Walk(side, head, initial) == Err(e)
  {
    PredecessorIs(side, head);
    var n := |ids| - 1;
    if n > 0 {
      assert Linked(side, ids[n - 1], ids[n - 1 + 1]);
      forall k | 0 <= k < n - 1 ensures Linked(side, ids[..n][k], ids[..n][k + 1]) {
        assert Linked(side, ids[k], ids[k + 1]);
      }
      WalkOfFault(side, ids[..n], ids[n - 1], initial, e);
    }
  }

  /** Above the initial generation the links are sound down to one with this fault. */
  ghost predicate BreaksOff(side: Side, head: Identity, initial: int, e: Error) {
    exists ids: seq<Identity> :: Descends(side, ids, head) && ids[0].generation > initial && Fault(side, ids[0], e)
  }

  lemma WalkFailsIff(side: Side, head: Identity, initial: int, e: Error)
    ensures Walk(side, head, initial) == Err(e) <==> BreaksOff(side, head, initial, e)
  {
    if Walk(side, head, initial) == Err(e) {
      var ids := FaultOfWalk(side, head, initial, e);
    }
    if BreaksOff(side, head, initial, e) {
      var ids: seq<Identity> :| Descends(side, ids, head) && ids[0].generation > initial && Fault(side, ids[0], e);
      WalkOfFault(side, ids, head, initial, e);
    }
  }

  // ---------- the answers ----------

  /** The head tops an unbroken chain that starts on the cycle's own base. */
  ghost predicate Belongs(side: Side, a: Ask, head: Identity) {
    exists ids: seq<Identity> :: Chain(side, ids, a.previous + 1, head) && OnOwnBase(a, ids[0])
  }

  ghost predicate OnOwnBase(a: Ask, id: Identity) {
    id.version < 2 || (a.prior.Some? && id.base == Some(a.previous)) || (a.prior.None? && id.base == None)
  }

  /** The head is sealed by a manifest with its digest. */
  ghost predicate Sealed(side: Side, head: Identity) {
    head.generation in side.manifests && side.manifests[head.generation].reference == head.digest
  }

  lemma BelongsIff(side: Side, a: Ask, head: Identity)
    ensures Membership(side, a, head).Ok? <==> Belongs(side, a, head)
  {
    MembershipIffChain(side, a, head);
    assert forall id :: OwnBase(a, id) <==> OnOwnBase(a, id);
    assert Initial(a) == a.previous + 1;
  }

  /** The head, sealed and on nobody's hold, after a collection that owes no successor. */
  ghost predicate Collected(side: Side, a: Ask, head: Identity) {
    Belongs(side, a, head) && a.after && Sealed(side, head) && NoHolds(side, Some(head)) && !Owes(side, Some(head), true, a)
  }

  /** Nothing has been collected in this cycle: no head, or still the prior one at the generation
      before the cycle's first. */
  ghost predicate Unstarted(side: Side, a: Ask) {
    side.head.None? || (a.prior == side.head && a.previous == side.head.value.generation)
  }

  /** When the call fails with `e`. */
  ghost predicate FailsWith(side: Side, a: Ask, e: Error) {
    if Unstarted(side, a) then
      match e
      case Hold => !NoHolds(side, None)
      case NotCollected => NoHolds(side, None) && a.after
      case _ => false
    else
      var head := side.head.value;
      match e
      case OutsideCycle => head.generation <= a.previous
      case OutsideChain | OmittedIdentity | BrokenIdentity | NoMatchingManifest =>
        head.generation > a.previous && BreaksOff(side, head, a.previous + 1, e)
      case ForeignInitial => exists ids: seq<Identity> :: Chain(side, ids, a.previous + 1, head) && !OnOwnBase(a, ids[0])
      case HeadIncomplete => Belongs(side, a, head) && a.after && !Sealed(side, head)
      case Hold => Belongs(side, a, head) && (a.after ==> Sealed(side, head)) && !NoHolds(side, Some(head))
      case FutureEnd => Collected(side, a, head) && a.now < head.fixedEnd
      case StaleTopUp =>
        && Collected(side, a, head) && a.now >= head.fixedEnd
        && head.generation != a.previous + 1 && head.fixedEnd + 3600 * a.maxStalenessHours < a.now
      case NotCollected => false
  }

  /** The generation after a collection that owes nothing: the head's own, if it is a version 5
      initial head with seven hours to spare, or a fresh enough top-up that is not version 4;
      the next one otherwise. */
  ghost predicate Settles(head: Identity, a: Ask, g: int) {
    && a.now >= head.fixedEnd
    && if head.generation == a.previous + 1 then
         g == head.generation + if head.version >= 5 && a.now + 25200 <= head.fixedEnd + 3600 * a.maxStalenessHours then 0 else 1
       else
         && a.now <= head.fixedEnd + 3600 * a.maxStalenessHours
         && g == head.generation + if head.version == 4 then 1 else 0
  }

  /** When the call answers with generation `g`. */
  ghost predicate Selects(side: Side, a: Ask, g: int) {
    if Unstarted(side, a) then NoHolds(side, None) && !a.after && g == a.previous + 1
    else
      var head := side.head.value;
      && Belongs(side, a, head) && NoHolds(side, Some(head))
      && if !a.after then g == head.generation
         else if Owes(side, Some(head), true, a) then Sealed(side, head) && g == head.generation + 1
         else Sealed(side, head) && Settles(head, a, g)
  }

  lemma AfterCollectionIs(head: Identity, a: Ask)
    ensures forall g :: AfterCollection(head, a) == Ok(g) <==> Settles(head, a, g)
    ensures AfterCollection(head, a) == Err(FutureEnd) <==> a.now < head.fixedEnd
    ensures AfterCollection(head, a) == Err(StaleTopUp) <==>
      a.now >= head.fixedEnd && head.generation != a.previous + 1 && head.fixedEnd + 3600 * a.maxStalenessHours < a.now
    ensures AfterCollection(head, a).Err? ==> AfterCollection(head, a).error in {FutureEnd, StaleTopUp}
  {
  }

  /** The call answers with a generation exactly under its condition. */
  lemma SelectsIff(side: Side, a: Ask, g: int)
    ensures Answer(side, a).Ok? && Answer(side, a).value.generation == g <==> Selects(side, a, g)
  {
    if !Unstarted(side, a) {
      BelongsIff(side, a, side.head.value);
      AfterCollectionIs(side.head.value, a);
    }
  }

  lemma MembershipFails(side: Side, a: Ask, head: Identity, e: Error)
    ensures Membership(side, a, head) == Err(e) <==>
      match e
      case OutsideCycle => head.generation <= a.previous
      case OutsideChain | OmittedIdentity | BrokenIdentity | NoMatchingManifest =>
        head.generation > a.previous && BreaksOff(side, head, a.previous + 1, e)
      case ForeignInitial => exists ids: seq<Identity> :: Chain(side, ids, a.previous + 1, head) && !OnOwnBase(a, ids[0])
      case _ => false
  {
    WalkFailsIff(side, head, Initial(a), e);
    if head.generation >= Initial(a) && Walk(side, head, Initial(a)).Ok? {
      var ids := ChainOfWalk(side, head, Initial(a));
      assert OnOwnBase(a, ids[0]) <==> OwnBase(a, ids[0]);
    }
    forall ids: seq<Identity> | Chain(side, ids, a.previous + 1, head)
      ensures head.generation >= Initial(a) && Walk(side, head, Initial(a)) == Ok(ids[0]) && (OnOwnBase(a, ids[0]) <==> OwnBase(a, ids[0]))
    {
      WalkOfChain(side, ids, Initial(a), head);
    }
  }

  /** And fails with an error exactly under that error's. */
  lemma FailsIff(side: Side, a: Ask, e: Error)
    ensures Answer(side, a) == Err(e) <==> FailsWith(side, a, e)
  {
    if !Unstarted(side, a) {
      var head := side.head.value;
      MembershipFails(side, a, head, e);
      BelongsIff(side, a, head);
      AfterCollectionIs(head, a);
    }
  }

  /** The payout walk counts as done before a collection if its generation is recorded; after
      one, if the answer stays on the head and the newest recorded walk is recent enough. */
  lemma PayoutDoneIff(side: Side, a: Ask)
    requires Answer(side, a).Ok?
    ensures var t := Answer(side, a).value;
      && t.payout == a.payout
      && (!a.after ==> (t.payoutDone <==> a.payout in side.payouts))
      && (a.after ==> side.head.Some? && (t.payoutDone <==>
            && t.generation == side.head.value.generation
            && exists g :: g in side.payouts && g >= a.payout && side.payouts[g] >= side.head.value.fixedEnd
                           && forall h :: h in side.payouts ==> h <= g))
  {
  }
}
