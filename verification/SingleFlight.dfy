/** The single-flight cache of the bake-off (`_SingleFlightCache`) as a state machine.

    Every caller of `get_or_compute` is a program counter.  One action is one region the
    lock makes atomic, or one access to shared state outside the lock: the entry region,
    the factory returning or raising, the write of `rec["exc"]`, the pop of the in-flight
    record, the publication of the value, `event.set()` (outside the lock), the return of
    `event.wait()`, and the waiter's re-check.  A run is any sequence of enabled actions, so
    it covers every interleaving of any number of callers and every factory outcome. */
module SingleFlight {
  import opened Basics

  datatype Outcome<+V, +E> = Ok(value: V) | Err(error: E)

  /** An in-flight record: the event flag, the owner's exception, and, as history, the key
      and the caller that created it. */
  datatype Record<K, E> = Record(key: K, owner: nat, fired: bool, exc: Option<E>)

  datatype Phase<V, E> =
    | Compute          // owner inside factory()
    | Computed(v: V)   // factory returned, value not yet published
    | Published(v: V)  // value stored and record popped, event not yet set
    | Failed(e: E)     // factory raised, exception not yet recorded
    | Recorded(e: E)   // rec["exc"] written, record still in flight
    | Popped(e: E)     // record popped, event not yet set
    | Waiting          // blocked in event.wait()
    | Awake            // wait() returned, about to re-check under the lock
    | Missed           // re-check found no cached value
    | Returned(v: V)
    | Raised(e: E)
    | OwnerLost        // the generic "owner failed to compute" RuntimeError

  datatype Role = Hit | Owner(rec: nat) | Waiter(rec: nat)

  datatype Call<K, V, E> = Call(key: K, role: Role, phase: Phase<V, E>)

  /** `publisher` and `successes` are history: who stored each key, and how often the
      factory of each key has returned normally. */
  datatype State<K, V, E> = State(
    cache: map<K, V>,
    inflight: map<K, nat>,
    calls: nat,
    lookups: nat,
    recs: seq<Record<K, E>>,
    callers: seq<Call<K, V, E>>,
    publisher: map<K, nat>,
    successes: multiset<K>)

  datatype Action<K, V, E> =
    | Enter(key: K)
    | Finish(who: nat, outcome: Outcome<V, E>)
    | Advance(who: nat)

  ghost function Init<K, V, E>(): State<K, V, E> {
    State(map[], map[], 0, 0, [], [], map[], multiset{})
  }

  ghost predicate Done<V, E>(p: Phase<V, E>) {
    p.Returned? || p.Raised? || p.OwnerLost?
  }

  // ---------- steps ----------

  ghost predicate Enabled<K, V, E>(s: State<K, V, E>, a: Action<K, V, E>) {
    match a
    case Enter(_) => true
    case Finish(i, _) => i < |s.callers| && s.callers[i].phase.Compute?
    case Advance(i) =>
      && i < |s.callers|
      && var c := s.callers[i];
         && !Done(c.phase) && !c.phase.Compute?
         && !c.role.Hit? && c.role.rec < |s.recs|
         && (c.phase.Waiting? ==> s.recs[c.role.rec].fired)
  }

  /** The region under the first `with self._lock`. */
  ghost function EnterStep<K, V, E>(s: State<K, V, E>, k: K): State<K, V, E> {
    var s := s.(lookups := s.lookups + 1);
    if k in s.cache then
      s.(callers := s.callers + [Call(k, Hit, Returned(s.cache[k]))])
    else if k in s.inflight then
      s.(callers := s.callers + [Call(k, Waiter(s.inflight[k]), Waiting)])
    else
      s.(recs := s.recs + [Record(k, |s.callers|, false, None)],
         inflight := s.inflight[k := |s.recs|],
         callers := s.callers + [Call(k, Owner(|s.recs|), Compute)])
  }

  /** Where an enabled action takes its caller. */
  ghost function NextPhase<K, V, E>(s: State<K, V, E>, a: Action<K, V, E>): Phase<V, E>
    requires Enabled(s, a) && !a.Enter?
  {
    var c := s.callers[a.who];
    match a
    case Finish(_, Ok(v)) => Computed(v)
    case Finish(_, Err(e)) => Failed(e)
    case Advance(_) =>
      match c.phase
      case Computed(v) => Published(v)
      case Published(v) => Returned(v)
      case Failed(e) => Recorded(e)
      case Recorded(e) => Popped(e)
      case Popped(e) => Raised(e)
      case Waiting => Awake
      case Awake => if c.key in s.cache then Returned(s.cache[c.key]) else Missed
      case Missed =>
        if s.recs[c.role.rec].exc.Some? then Raised(s.recs[c.role.rec].exc.value) else OwnerLost
      case p => p
  }

  /** What an enabled action does to the shared state. */
  ghost function Effect<K, V, E>(s: State<K, V, E>, a: Action<K, V, E>): (t: State<K, V, E>)
    requires Enabled(s, a) && !a.Enter?
    ensures t.callers == s.callers
  {
    var c := s.callers[a.who];
    match a
    case Finish(_, o) => if o.Ok? then s.(successes := s.successes + multiset{c.key}) else s
    case Advance(i) =>
      var r := c.role.rec;
      match c.phase
      case Computed(v) =>
        s.(cache := s.cache[c.key := v], inflight := s.inflight - {c.key},
           calls := s.calls + 1, publisher := s.publisher[c.key := i])
      case Failed(e) => s.(recs := s.recs[r := s.recs[r].(exc := Some(e))])
      case Recorded(_) => s.(inflight := s.inflight - {c.key})
      case Published(_) | Popped(_) => s.(recs := s.recs[r := s.recs[r].(fired := true)])
      case _ => s
  }

  ghost function Next<K, V, E>(s: State<K, V, E>, a: Action<K, V, E>): State<K, V, E>
    requires Enabled(s, a)
  {
    if a.Enter? then EnterStep(s, a.key)
    else
      var c := s.callers[a.who];
      Effect(s, a).(callers := s.callers[a.who := c.(phase := NextPhase(s, a))])
  }

  /** `acts` is a run from `s`: each action is enabled when it is taken. */
  ghost predicate Legal<K, V, E>(s: State<K, V, E>, acts: seq<Action<K, V, E>>)
    decreases |acts|
  {
    acts == [] || (Enabled(s, acts[0]) && Legal(Next(s, acts[0]), acts[1..]))
  }

  ghost function Run<K, V, E>(s: State<K, V, E>, acts: seq<Action<K, V, E>>): State<K, V, E>
    requires Legal(s, acts)
    decreases |acts|
  {
    if acts == [] then s else Run(Next(s, acts[0]), acts[1..])
  }

  // ---------- the inductive invariant ----------

  /** The owner phases during which the record is the key's registered in-flight record. */
  ghost predicate Holding<V, E>(p: Phase<V, E>) {
    p.Compute? || p.Computed? || p.Failed? || p.Recorded?
  }

  ghost predicate OwnerOk<K, V, E>(s: State<K, V, E>, i: nat, c: Call<K, V, E>, r: nat) {
    && r < |s.recs|
    && var rec := s.recs[r];
       && rec.key == c.key && rec.owner == i
       && (Holding(c.phase) ==> c.key in s.inflight && s.inflight[c.key] == r)
       && (rec.fired <==> Done(c.phase))
       && match c.phase
          case Compute | Computed(_) | Failed(_) => rec.exc.None?
          case Published(v) => rec.exc.None? && c.key in s.cache && s.cache[c.key] == v
          case Returned(v) => rec.exc.None? && c.key in s.cache && s.cache[c.key] == v
          case Recorded(e) => rec.exc == Some(e)
          case Popped(e) => rec.exc == Some(e)
          case Raised(e) => rec.exc == Some(e)
          case _ => false
  }

  ghost predicate WaiterOk<K, V, E>(s: State<K, V, E>, i: nat, c: Call<K, V, E>, r: nat) {
    && r < |s.recs|
    && var rec := s.recs[r];
       && rec.key == c.key && rec.owner != i
       && (!c.phase.Waiting? ==> rec.fired)
       && match c.phase
          case Waiting | Awake => true
          case Missed => rec.exc.Some?
          case Returned(v) => c.key in s.cache && s.cache[c.key] == v
          case Raised(e) => rec.exc == Some(e)
          case _ => false
  }

  ghost predicate CallOk<K, V, E>(s: State<K, V, E>, i: nat)
    requires i < |s.callers|
  {
    var c := s.callers[i];
    match c.role
    case Hit => c.phase.Returned? && c.key in s.cache && s.cache[c.key] == c.phase.v
    case Owner(r) => OwnerOk(s, i, c, r)
    case Waiter(r) => WaiterOk(s, i, c, r)
  }

  ghost predicate RecordOk<K, V, E>(s: State<K, V, E>, r: nat)
    requires r < |s.recs|
  {
    var o := s.recs[r].owner;
    o < |s.callers| && s.callers[o].role == Owner(r) && s.callers[o].key == s.recs[r].key
  }

  /** The registered record of `k` is held by its owner and `k` is not cached yet. */
  ghost predicate InflightOk<K, V, E>(s: State<K, V, E>, k: K) {
    k in s.inflight ==>
      && k !in s.cache
      && s.inflight[k] < |s.recs|
      && var rec := s.recs[s.inflight[k]];
         rec.key == k && rec.owner < |s.callers| && Holding(s.callers[rec.owner].phase)
  }

  /** A cached key was stored by exactly the owner the history names. */
  ghost predicate PublisherOk<K, V, E>(s: State<K, V, E>, k: K) {
    && (k in s.cache <==> k in s.publisher)
    && (k in s.cache ==>
          && s.publisher[k] < |s.callers|
          && var c := s.callers[s.publisher[k]];
             && c.key == k && c.role.Owner?
             && (c.phase == Published(s.cache[k]) || c.phase == Returned(s.cache[k])))
  }

  /** Normal factory returns of `k`: one if cached or waiting to be published, else none. */
  ghost predicate SuccessesOk<K, V, E>(s: State<K, V, E>, k: K)
    requires InflightOk(s, k)
  {
    s.successes[k] ==
      if k in s.cache then 1
      else if k in s.inflight && s.callers[s.recs[s.inflight[k]].owner].phase.Computed? then 1
      else 0
  }

  ghost predicate KeyOk<K, V, E>(s: State<K, V, E>, k: K) {
    InflightOk(s, k) && PublisherOk(s, k) && SuccessesOk(s, k)
  }

  ghost predicate Inv<K(!new), V, E>(s: State<K, V, E>) {
    && (forall i :: 0 <= i < |s.callers| ==> CallOk(s, i))
    && (forall r :: 0 <= r < |s.recs| ==> RecordOk(s, r))
    && (forall k :: KeyOk(s, k))
    && s.calls == |s.cache|
    && s.lookups == |s.callers|
  }

  // ---------- one caller's step does not disturb the others ----------

  /** `t` differs from `s` only at caller `i`, at its key, and, if `i` is an owner that has
      not finished, at its record, whose key and owner stay. */
  ghost predicate LocalTo<K, V, E>(s: State<K, V, E>, t: State<K, V, E>, i: nat) {
    && i < |s.callers| == |t.callers|
    && |s.recs| == |t.recs|
    && (forall j :: 0 <= j < |s.callers| && j != i ==> t.callers[j] == s.callers[j])
    && var c := s.callers[i];
       && t.callers[i].key == c.key && t.callers[i].role == c.role
       && (forall r :: 0 <= r < |s.recs| ==>
             if c.role == Owner(r) && !Done(c.phase)
             then t.recs[r].key == s.recs[r].key && t.recs[r].owner == s.recs[r].owner
             else t.recs[r] == s.recs[r])
       && (forall k :: k in s.cache ==> k in t.cache && t.cache[k] == s.cache[k])
       && (forall k :: k in t.cache && k !in s.cache ==> k == c.key)
       && (forall k :: k in s.inflight && k != c.key ==> k in t.inflight && t.inflight[k] == s.inflight[k])
       && (forall k :: k in t.inflight ==> k in s.inflight && t.inflight[k] == s.inflight[k])
       && (c.key !in t.inflight && c.key in s.inflight ==> c.role.Owner? && Holding(c.phase))
  }

  lemma OthersKeepCallOk<K, V, E>(s: State<K, V, E>, t: State<K, V, E>, i: nat, j: nat)
    requires LocalTo(s, t, i) && j < |s.callers| && j != i
    requires CallOk(s, i) && CallOk(s, j)
    ensures CallOk(t, j)
  {
  }

  lemma OtherKeysKept<K, V, E>(s: State<K, V, E>, t: State<K, V, E>, i: nat, k: K)
    requires LocalTo(s, t, i) && k != s.callers[i].key
    requires k in s.inflight ==> s.inflight[k] < |s.recs| && RecordOk(s, s.inflight[k])
    requires KeyOk(s, k)
    requires (k in t.publisher <==> k in s.publisher) && (k in s.publisher ==> t.publisher[k] == s.publisher[k])
    requires t.successes[k] == s.successes[k]
    ensures KeyOk(t, k)
  {
  }

  lemma FrameKeepsInv<K(!new), V, E>(s: State<K, V, E>, t: State<K, V, E>, i: nat)
    requires Inv(s) && LocalTo(s, t, i)
    requires CallOk(t, i) && KeyOk(t, s.callers[i].key)
    requires forall k :: k != s.callers[i].key ==>
      && (k in t.publisher <==> k in s.publisher)
      && (k in s.publisher ==> t.publisher[k] == s.publisher[k])
      && t.successes[k] == s.successes[k]
    requires t.calls == |t.cache| && t.lookups == s.lookups
    ensures Inv(t)
  {
    assert CallOk(s, i);
    forall j | 0 <= j < |t.callers| ensures CallOk(t, j) {
      if j != i { assert CallOk(s, j); OthersKeepCallOk(s, t, i, j); }
    }
    forall r | 0 <= r < |t.recs| ensures RecordOk(t, r) { assert RecordOk(s, r); }
    forall k ensures KeyOk(t, k) {
      if k != s.callers[i].key {
        assert KeyOk(s, k);
        OtherKeysKept(s, t, i, k);
      }
    }
  }

  // ---------- every action keeps the invariant ----------

  lemma EnterKeepsCalls<K(!new), V, E>(s: State<K, V, E>, k: K, i: nat)
    requires Inv(s) && i < |EnterStep(s, k).callers|
    ensures CallOk(EnterStep(s, k), i)
  {
    assert KeyOk(s, k);
    if i < |s.callers| {
      assert CallOk(s, i);
    } else if k in s.inflight {
      assert RecordOk(s, s.inflight[k]);
    }
  }

  lemma EnterKeepsKeys<K(!new), V, E>(s: State<K, V, E>, k: K, k': K)
    requires Inv(s)
    ensures KeyOk(EnterStep(s, k), k')
  {
    assert KeyOk(s, k');
  }

  lemma EnterKeepsInv<K(!new), V, E>(s: State<K, V, E>, k: K)
    requires Inv(s)
    ensures Inv(EnterStep(s, k))
  {
    var t := EnterStep(s, k);
    forall i | 0 <= i < |t.callers| ensures CallOk(t, i) { EnterKeepsCalls(s, k, i); }
    forall r | 0 <= r < |t.recs| ensures RecordOk(t, r) {
      if r < |s.recs| { assert RecordOk(s, r); }
    }
    forall k' ensures KeyOk(t, k') { EnterKeepsKeys(s, k, k'); }
  }

  ghost predicate OwnerTakes<K(!new), V, E>(s: State<K, V, E>, a: Action<K, V, E>) {
    Inv(s) && !a.Enter? && Enabled(s, a) && s.callers[a.who].role.Owner?
  }

  lemma OwnerStepLocal<K(!new), V, E>(s: State<K, V, E>, a: Action<K, V, E>)
    requires OwnerTakes(s, a)
    ensures LocalTo(s, Next(s, a), a.who)
  {
    var c := s.callers[a.who];
    assert CallOk(s, a.who) && KeyOk(s, c.key);
  }

  lemma OwnerStepCall<K(!new), V, E>(s: State<K, V, E>, a: Action<K, V, E>)
    requires OwnerTakes(s, a)
    ensures CallOk(Next(s, a), a.who)
  {
    assert CallOk(s, a.who);
  }

  lemma OwnerStepKey<K(!new), V, E>(s: State<K, V, E>, a: Action<K, V, E>)
    requires OwnerTakes(s, a)
    ensures KeyOk(Next(s, a), s.callers[a.who].key)
  {
    var c := s.callers[a.who];
    assert CallOk(s, a.who) && KeyOk(s, c.key);
  }

  lemma OwnerStepKeepsInv<K(!new), V, E>(s: State<K, V, E>, a: Action<K, V, E>)
    requires OwnerTakes(s, a)
    ensures Inv(Next(s, a))
  {
    var c := s.callers[a.who];
    assert CallOk(s, a.who) && KeyOk(s, c.key);
    OwnerStepLocal(s, a);
    OwnerStepCall(s, a);
    OwnerStepKey(s, a);
    FrameKeepsInv(s, Next(s, a), a.who);
  }

  lemma WaiterStepKeepsInv<K(!new), V, E>(s: State<K, V, E>, a: Action<K, V, E>)
    requires Inv(s) && !a.Enter? && Enabled(s, a) && s.callers[a.who].role.Waiter?
    ensures Inv(Next(s, a))
  {
    var c := s.callers[a.who];
    assert CallOk(s, a.who) && KeyOk(s, c.key);
    assert RecordOk(s, c.role.rec);
    assert CallOk(s, s.recs[c.role.rec].owner);
    FrameKeepsInv(s, Next(s, a), a.who);
  }

  lemma StepKeepsInv<K(!new), V, E>(s: State<K, V, E>, a: Action<K, V, E>)
    requires Inv(s) && Enabled(s, a)
    ensures Inv(Next(s, a))
  {
    match a
    case Enter(k) => EnterKeepsInv(s, k);
    case _ =>
      assert CallOk(s, a.who);
      if s.callers[a.who].role.Owner? { OwnerStepKeepsInv(s, a); } else { WaiterStepKeepsInv(s, a); }
  }

  lemma {:induction false} RunKeepsInv<K(!new), V, E>(s: State<K, V, E>, acts: seq<Action<K, V, E>>)
    requires Inv(s) && Legal(s, acts)
    ensures Inv(Run(s, acts))
    decreases |acts|
  {
    if acts != [] {
      StepKeepsInv(s, acts[0]);
      RunKeepsInv(Next(s, acts[0]), acts[1..]);
    }
  }

  lemma ReachableInv<K(!new), V, E>(acts: seq<Action<K, V, E>>)
    requires Legal(Init<K, V, E>(), acts)
    ensures Inv(Run(Init(), acts))
  {
    RunKeepsInv(Init(), acts);
  }

  // ---------- what every run guarantees ----------

  ghost function Entries<K, V, E>(acts: seq<Action<K, V, E>>): nat {
    if acts == [] then 0 else (if acts[0].Enter? then 1 else 0) + Entries(acts[1..])
  }

  lemma {:induction false} RunCounts<K, V, E>(s: State<K, V, E>, acts: seq<Action<K, V, E>>)
    requires Legal(s, acts)
    ensures Run(s, acts).lookups == s.lookups + Entries(acts)
    ensures |Run(s, acts).callers| == |s.callers| + Entries(acts)
    decreases |acts|
  {
    if acts != [] { RunCounts(Next(s, acts[0]), acts[1..]); }
  }

  /** Safety of every interleaving: one thread computes a key at a time, a key's factory
      succeeds at most once, the two counters are exact, and whatever a call returns is the
      value stored for its key. */
  lemma SafeInEveryRun<K(!new), V, E>(acts: seq<Action<K, V, E>>)
    requires Legal(Init<K, V, E>(), acts)
    ensures var s := Run(Init(), acts);
      && (forall i, j :: 0 <= i < j < |s.callers| && Holding(s.callers[i].phase) && Holding(s.callers[j].phase)
            ==> s.callers[i].key != s.callers[j].key)
      && (forall k :: s.successes[k] <= 1)
      && s.calls == |s.cache|
      && s.lookups == Entries(acts)
      && (forall i :: 0 <= i < |s.callers| && s.callers[i].phase.Returned? ==>
            && s.callers[i].key in s.cache
            && s.callers[i].phase.v == s.cache[s.callers[i].key])
  {
    ReachableInv(acts);
    RunCounts(Init<K, V, E>(), acts);
    var s := Run(Init(), acts);
    forall i, j | 0 <= i < j < |s.callers| && Holding(s.callers[i].phase) && Holding(s.callers[j].phase)
      ensures s.callers[i].key != s.callers[j].key
    {
      assert CallOk(s, i) && CallOk(s, j);
    }
    forall k ensures s.successes[k] <= 1 { assert KeyOk(s, k); }
    forall i | 0 <= i < |s.callers| && s.callers[i].phase.Returned?
      ensures s.callers[i].key in s.cache && s.callers[i].phase.v == s.cache[s.callers[i].key]
    {
      assert CallOk(s, i);
    }
  }

  /** A stored value is never replaced or removed, however the run goes on. */
  lemma {:induction false} CacheOnlyGrows<K(!new), V, E>(s: State<K, V, E>, acts: seq<Action<K, V, E>>)
    requires Inv(s) && Legal(s, acts)
    ensures forall k :: k in s.cache ==> k in Run(s, acts).cache && Run(s, acts).cache[k] == s.cache[k]
    decreases |acts|
  {
    if acts != [] {
      var a, t := acts[0], Next(s, acts[0]);
      assert forall k :: k in s.cache ==> k in t.cache && t.cache[k] == s.cache[k] by {
        if !a.Enter? {
          assert CallOk(s, a.who);
          assert KeyOk(s, s.callers[a.who].key);
        }
      }
      StepKeepsInv(s, a);
      CacheOnlyGrows(t, acts[1..]);
    }
  }

  /** No wake-up is lost: a waiter whose event is unset has a live owner of that very record,
      and that owner is not itself blocked; the generic RuntimeError is unreachable. */
  lemma NoLostWakeup<K(!new), V, E>(acts: seq<Action<K, V, E>>, i: nat)
    requires Legal(Init<K, V, E>(), acts) && i < |Run(Init(), acts).callers|
    ensures var s := Run(Init(), acts); var c := s.callers[i];
      && !c.phase.OwnerLost?
      && (c.phase.Waiting? ==>
            && c.role.Waiter? && c.role.rec < |s.recs|
            && var rec := s.recs[c.role.rec];
               && rec.owner < |s.callers| && rec.owner != i
               && s.callers[rec.owner].role == Owner(c.role.rec)
               && s.callers[rec.owner].key == c.key
               && (rec.fired <==> Done(s.callers[rec.owner].phase))
               && !s.callers[rec.owner].phase.Waiting?)
  {
    ReachableInv(acts);
    var s := Run(Init(), acts);
    assert CallOk(s, i);
    if s.callers[i].phase.Waiting? {
      assert RecordOk(s, s.callers[i].role.rec);
      assert CallOk(s, s.recs[s.callers[i].role.rec].owner);
    }
  }

  /** The registered record of a key, or the one whose owner stored the key, is the newest of
      that key. */
  ghost predicate Newest<K, V, E>(s: State<K, V, E>, r: nat)
    requires r < |s.recs|
  {
    var k := s.recs[r].key;
    && (k in s.inflight ==> r <= s.inflight[k])
    && (k in s.publisher && s.publisher[k] < |s.callers| && s.callers[s.publisher[k]].role.Owner? ==>
          r <= s.callers[s.publisher[k]].role.rec)
  }

  lemma EnterKeepsNewest<K(!new), V, E>(s: State<K, V, E>, k: K, r: nat)
    requires Inv(s) && r < |EnterStep(s, k).recs| && (r < |s.recs| ==> Newest(s, r))
    ensures Newest(EnterStep(s, k), r)
  {
    assert KeyOk(s, k) && (r < |s.recs| ==> KeyOk(s, s.recs[r].key));
  }

  lemma OtherKeepsNewest<K(!new), V, E>(s: State<K, V, E>, a: Action<K, V, E>, r: nat)
    requires Inv(s) && Enabled(s, a) && !a.Enter? && r < |s.recs| && Newest(s, r)
    ensures r < |Next(s, a).recs| && Newest(Next(s, a), r)
  {
    assert CallOk(s, a.who) && KeyOk(s, s.recs[r].key);
  }

  lemma StepKeepsNewest<K(!new), V, E>(s: State<K, V, E>, a: Action<K, V, E>, r: nat)
    requires Inv(s) && Enabled(s, a) && r < |Next(s, a).recs| && (r < |s.recs| ==> Newest(s, r))
    ensures Newest(Next(s, a), r)
  {
    if a.Enter? { EnterKeepsNewest(s, a.key, r); } else { OtherKeepsNewest(s, a, r); }
  }

  lemma {:induction false} RunKeepsNewest<K(!new), V, E>(s: State<K, V, E>, acts: seq<Action<K, V, E>>)
    requires Inv(s) && Legal(s, acts) && forall r :: 0 <= r < |s.recs| ==> Newest(s, r)
    ensures forall r :: 0 <= r < |Run(s, acts).recs| ==> Newest(Run(s, acts), r)
    decreases |acts|
  {
    if acts != [] {
      var t := Next(s, acts[0]);
      forall r | 0 <= r < |t.recs| ensures Newest(t, r) { StepKeepsNewest(s, acts[0], r); }
      StepKeepsInv(s, acts[0]);
      RunKeepsNewest(t, acts[1..]);
    }
  }

  /** A waiter that fails raises exactly its own owner's exception; a waiter that returns
      although its own owner failed got the value from the owner of a later record. */
  lemma WaiterOutcome<K(!new), V, E>(acts: seq<Action<K, V, E>>, i: nat)
    requires Legal(Init<K, V, E>(), acts) && i < |Run(Init(), acts).callers|
    requires Run(Init(), acts).callers[i].role.Waiter? && Done(Run(Init(), acts).callers[i].phase)
    ensures var s := Run(Init(), acts); var c := s.callers[i];
      && c.role.rec < |s.recs| && s.recs[c.role.rec].owner < |s.callers|
      && var own := s.recs[c.role.rec].owner; var o := s.callers[own];
         && Done(o.phase)
         && (c.phase.Raised? ==> o.phase == c.phase)
         && (o.phase.Returned? ==> c.phase == o.phase)
         && (c.phase.Returned? && o.phase.Raised? ==>
               && c.key in s.publisher && s.publisher[c.key] != own
               && s.publisher[c.key] < |s.callers|
               && s.callers[s.publisher[c.key]].role.Owner?
               && s.callers[s.publisher[c.key]].role.rec > c.role.rec)
  {
    ReachableInv(acts);
    RunKeepsNewest(Init<K, V, E>(), acts);
    var s := Run(Init(), acts);
    var c := s.callers[i];
    assert CallOk(s, i) && KeyOk(s, c.key);
    assert RecordOk(s, c.role.rec) && Newest(s, c.role.rec);
    assert CallOk(s, s.recs[c.role.rec].owner);
    if c.key in s.publisher { assert CallOk(s, s.publisher[c.key]); }
  }

  // ---------- what decides a call's outcome ----------

  /** A step of the others leaves a caller where it is; its key and role never change. */
  lemma OthersLeave<K, V, E>(s: State<K, V, E>, a: Action<K, V, E>, i: nat)
    requires Enabled(s, a) && i < |s.callers|
    ensures i < |Next(s, a).callers|
    ensures Next(s, a).callers[i].key == s.callers[i].key && Next(s, a).callers[i].role == s.callers[i].role
    ensures a.Enter? || a.who != i ==> Next(s, a).callers[i] == s.callers[i]
  {
  }

  /** A finished call stays as it is, however the run goes on. */
  lemma {:induction false} DoneStays<K, V, E>(s: State<K, V, E>, acts: seq<Action<K, V, E>>, i: nat)
    requires Legal(s, acts) && i < |s.callers| && Done(s.callers[i].phase)
    ensures i < |Run(s, acts).callers| && Run(s, acts).callers[i] == s.callers[i]
    decreases |acts|
  {
    if acts != [] {
      OthersLeave(s, acts[0], i);
      DoneStays(Next(s, acts[0]), acts[1..], i);
    }
  }

  /** A call whose key is cached when it enters has returned the stored value. */
  lemma HitReturns<K, V, E>(s: State<K, V, E>, k: K, acts: seq<Action<K, V, E>>)
    requires k in s.cache && Legal(s, [Enter(k)] + acts)
    ensures var t := Run(s, [Enter(k)] + acts); var i := |s.callers|;
      i < |t.callers| && t.callers[i].key == k && t.callers[i].phase == Returned(s.cache[k])
  {
    assert ([Enter(k)] + acts)[1..] == acts;
    DoneStays(Next(s, Enter(k)), acts, |s.callers|);
  }

  ghost predicate CachedBefore<K, V, E>(s: State<K, V, E>, i: nat) {
    i < |s.callers| && s.callers[i].key in s.cache && (s.callers[i].phase.Waiting? || s.callers[i].phase.Awake?)
  }

  lemma RecheckStep<K(!new), V, E>(s: State<K, V, E>, a: Action<K, V, E>, i: nat)
    requires Inv(s) && Enabled(s, a) && CachedBefore(s, i)
    ensures var t := Next(s, a); var k := s.callers[i].key;
      && i < |t.callers| && t.callers[i].key == k && k in t.cache && t.cache[k] == s.cache[k]
      && (CachedBefore(t, i) || t.callers[i].phase == Returned(s.cache[k]))
  {
    assert CallOk(s, i) && KeyOk(s, s.callers[i].key);
    if !a.Enter? { assert CallOk(s, a.who) && KeyOk(s, s.callers[a.who].key); }
    OthersLeave(s, a, i);
  }

  /** The cache is looked at before the owner's exception: a waiter whose key is cached by the
      time it re-checks returns that value, whatever became of its own owner. */
  lemma {:induction false} CachedWaiterReturns<K(!new), V, E>(s: State<K, V, E>, acts: seq<Action<K, V, E>>, i: nat)
    requires Inv(s) && CachedBefore(s, i) && Legal(s, acts)
    ensures i < |Run(s, acts).callers|
    ensures Done(Run(s, acts).callers[i].phase) ==> Run(s, acts).callers[i].phase == Returned(s.cache[s.callers[i].key])
    decreases |acts|
  {
    if acts != [] {
      var t := Next(s, acts[0]);
      RecheckStep(s, acts[0], i);
      if CachedBefore(t, i) {
        StepKeepsInv(s, acts[0]);
        CachedWaiterReturns(t, acts[1..], i);
      } else {
        DoneStays(t, acts[1..], i);
      }
    }
  }

  lemma MissedStep<K(!new), V, E>(s: State<K, V, E>, a: Action<K, V, E>, i: nat)
    requires Inv(s) && Enabled(s, a) && i < |s.callers| && s.callers[i].phase.Missed?
    ensures s.callers[i].role.Waiter? && s.callers[i].role.rec < |s.recs| && s.recs[s.callers[i].role.rec].exc.Some?
    ensures var t := Next(s, a); var r := s.callers[i].role.rec;
      && i < |t.callers| && t.callers[i].role == s.callers[i].role
      && r < |t.recs| && t.recs[r].exc == s.recs[r].exc
      && (t.callers[i].phase.Missed? || t.callers[i].phase == Raised(s.recs[r].exc.value))
  {
    assert CallOk(s, i);
    var r := s.callers[i].role.rec;
    assert RecordOk(s, r);
    assert CallOk(s, s.recs[r].owner);
    if !a.Enter? { assert CallOk(s, a.who); }
    OthersLeave(s, a, i);
  }

  /** A waiter that found nothing raises its own owner's exception, even if the key is stored
      in the meantime. */
  lemma {:induction false} MissedWaiterRaises<K(!new), V, E>(s: State<K, V, E>, acts: seq<Action<K, V, E>>, i: nat)
    requires Inv(s) && i < |s.callers| && s.callers[i].phase.Missed? && Legal(s, acts)
    ensures s.callers[i].role.Waiter? && s.callers[i].role.rec < |s.recs| && s.recs[s.callers[i].role.rec].exc.Some?
    ensures i < |Run(s, acts).callers|
    ensures Done(Run(s, acts).callers[i].phase) ==>
      Run(s, acts).callers[i].phase == Raised(s.recs[s.callers[i].role.rec].exc.value)
    decreases |acts|
  {
    assert CallOk(s, i);
    if acts != [] {
      var t := Next(s, acts[0]);
      MissedStep(s, acts[0], i);
      if t.callers[i].phase.Missed? {
        StepKeepsInv(s, acts[0]);
        MissedWaiterRaises(t, acts[1..], i);
      } else {
        DoneStays(t, acts[1..], i);
      }
    }
  }

  /** What an owner that carries `o` ends with. */
  ghost predicate Carries<V, E>(p: Phase<V, E>, o: Outcome<V, E>) {
    match o
    case Ok(v) => p == Computed(v) || p == Published(v) || p == Returned(v)
    case Err(e) => p == Failed(e) || p == Recorded(e) || p == Popped(e) || p == Raised(e)
  }

  lemma {:induction false} CarriedToTheEnd<K, V, E>(s: State<K, V, E>, acts: seq<Action<K, V, E>>, i: nat, o: Outcome<V, E>)
    requires Legal(s, acts) && i < |s.callers| && Carries(s.callers[i].phase, o)
    ensures i < |Run(s, acts).callers| && Carries(Run(s, acts).callers[i].phase, o)
    decreases |acts|
  {
    if acts != [] {
      OthersLeave(s, acts[0], i);
      CarriedToTheEnd(Next(s, acts[0]), acts[1..], i, o);
    }
  }

  /** An owner ends with exactly what its factory did. */
  lemma OwnerOutcome<K, V, E>(s: State<K, V, E>, acts: seq<Action<K, V, E>>, i: nat, o: Outcome<V, E>)
    requires Legal(s, [Finish(i, o)] + acts)
    ensures var t := Run(s, [Finish(i, o)] + acts);
      && i < |t.callers|
      && (Done(t.callers[i].phase) ==> t.callers[i].phase == match o case Ok(v) => Returned(v) case Err(e) => Raised(e))
  {
    assert ([Finish(i, o)] + acts)[1..] == acts;
    CarriedToTheEnd(Next(s, Finish(i, o)), acts, i, o);
  }

  // ---------- termination ----------

  ghost predicate CanMove<K, V, E>(s: State<K, V, E>, i: nat) {
    i < |s.callers| && (s.callers[i].phase.Compute? || Enabled(s, Advance(i)))
  }

  /** An unfinished call can move, or waits for an owner that can (factories are taken to
      return or raise, and not to call back into the cache). */
  lemma NeverStuck<K(!new), V, E>(s: State<K, V, E>, i: nat)
    requires Inv(s) && i < |s.callers| && !Done(s.callers[i].phase)
    ensures CanMove(s, i)
      || (s.callers[i].role.Waiter? && s.callers[i].role.rec < |s.recs|
          && CanMove(s, s.recs[s.callers[i].role.rec].owner))
  {
    assert CallOk(s, i);
    if s.callers[i].role.Waiter? {
      assert RecordOk(s, s.callers[i].role.rec);
      assert CallOk(s, s.recs[s.callers[i].role.rec].owner);
    }
  }

  ghost function Rank<V, E>(p: Phase<V, E>): nat {
    match p
    case Compute => 4
    case Failed(_) | Waiting => 3
    case Computed(_) | Recorded(_) | Awake => 2
    case Published(_) | Popped(_) | Missed => 1
    case _ => 0
  }

  ghost function Work<K, V, E>(cs: seq<Call<K, V, E>>): nat {
    if cs == [] then 0 else Rank(cs[0].phase) + Work(cs[1..])
  }

  lemma {:induction false} WorkUpdate<K, V, E>(cs: seq<Call<K, V, E>>, i: nat, c: Call<K, V, E>)
    requires i < |cs|
    ensures Work(cs[i := c]) == Work(cs) - Rank(cs[i].phase) + Rank(c.phase)
  {
    if i == 0 {
      assert cs[i := c][1..] == cs[1..];
    } else {
      assert cs[i := c][1..] == cs[1..][i - 1 := c];
      WorkUpdate(cs[1..], i - 1, c);
    }
  }

  lemma {:induction false} WorkBound<K, V, E>(cs: seq<Call<K, V, E>>)
    ensures Work(cs) <= 4 * |cs|
    ensures Work(cs) == 0 <==> forall i :: 0 <= i < |cs| ==> Rank(cs[i].phase) == 0
  {
    if cs != [] {
      WorkBound(cs[1..]);
      assert forall i :: 1 <= i < |cs| ==> cs[i] == cs[1..][i - 1];
    }
  }

  lemma StepWorks<K, V, E>(s: State<K, V, E>, a: Action<K, V, E>)
    requires Enabled(s, a) && !a.Enter?
    ensures Work(Next(s, a).callers) < Work(s.callers)
  {
    WorkUpdate(s.callers, a.who, s.callers[a.who].(phase := NextPhase(s, a)));
  }

  /** Without new entries a run from `s` has at most `4 * callers` actions, and one that can
      go no further has finished every call. */
  lemma {:induction false} EveryCallFinishes<K(!new), V, E>(s: State<K, V, E>, acts: seq<Action<K, V, E>>)
    requires Inv(s) && Legal(s, acts)
    requires forall a :: a in acts ==> !a.Enter?
    ensures |acts| + Work(Run(s, acts).callers) <= Work(s.callers) <= 4 * |s.callers|
    ensures (forall i :: !CanMove(Run(s, acts), i)) ==>
      forall i :: 0 <= i < |Run(s, acts).callers| ==> Done(Run(s, acts).callers[i].phase)
    decreases |acts|
  {
    WorkBound(s.callers);
    if acts == [] {
      forall i | 0 <= i < |s.callers| && !Done(s.callers[i].phase)
        ensures exists j :: CanMove(s, j)
      {
        NeverStuck(s, i);
      }
    } else {
      assert acts[0] in acts && forall a :: a in acts[1..] ==> a in acts;
      StepWorks(s, acts[0]);
      StepKeepsInv(s, acts[0]);
      EveryCallFinishes(Next(s, acts[0]), acts[1..]);
    }
  }

  // ---------- one call at a time ----------

  ghost predicate AllDone<K, V, E>(s: State<K, V, E>) { forall i :: 0 <= i < |s.callers| ==> Done(s.callers[i].phase) }

  lemma AtRest<K(!new), V, E>(s: State<K, V, E>, k: K)
    requires Inv(s) && AllDone(s)
    ensures k !in s.inflight
  {
    assert KeyOk(s, k);
  }

  lemma Prepend<K, V, E>(s: State<K, V, E>, a: Action<K, V, E>, rest: seq<Action<K, V, E>>)
    requires Enabled(s, a) && Legal(Next(s, a), rest)
    ensures Legal(s, [a] + rest) && Run(s, [a] + rest) == Run(Next(s, a), rest)
  {
    assert ([a] + rest)[1..] == rest;
  }

  /** The state with one more call, which owns a record of its own. */
  ghost function Owning<K, V, E>(s: State<K, V, E>, k: K, phase: Phase<V, E>, fired: bool): State<K, V, E> {
    s.(lookups := s.lookups + 1,
       recs := s.recs + [Record(k, |s.callers|, fired, None)],
       callers := s.callers + [Call(k, Owner(|s.recs|), phase)])
  }

  lemma SoloEnters<K, V, E>(s: State<K, V, E>, k: K, v: V)
    requires k !in s.cache && k !in s.inflight
    ensures var n := |s.callers|; var t := Next(s, Enter(k));
      && t == Owning(s, k, Compute, false).(inflight := s.inflight[k := |s.recs|])
      && Enabled(t, Finish(n, Ok(v)))
      && Next(t, Finish(n, Ok(v)))
         == Owning(s, k, Computed(v), false).(inflight := s.inflight[k := |s.recs|], successes := s.successes + multiset{k})
  {
    var n, t := |s.callers|, Next(s, Enter(k));
    var u := Next(t, Finish(n, Ok(v)));
    assert t.callers[n := Call(k, Owner(|s.recs|), Computed(v))] == Owning(s, k, Computed(v), false).callers;
  }

  lemma SoloPublishes<K, V, E>(s: State<K, V, E>, k: K, v: V)
    requires k !in s.cache && k !in s.inflight
    ensures var n := |s.callers|;
      var t := Owning(s, k, Computed(v), false).(inflight := s.inflight[k := |s.recs|], successes := s.successes + multiset{k});
      && Enabled(t, Advance(n)) && Enabled(Next(t, Advance(n)), Advance(n))
      && var u := Next(Next(t, Advance(n)), Advance(n));
         u.cache == s.cache[k := v] && u.lookups == s.lookups + 1 && u.callers == Owning(s, k, Returned(v), true).callers
  {
    var n := |s.callers|;
    var t := Owning(s, k, Computed(v), false).(inflight := s.inflight[k := |s.recs|], successes := s.successes + multiset{k});
    var u := Next(t, Advance(n));
    assert u.callers == Owning(s, k, Published(v), false).callers;
  }

  /** One call from its entry to its end, alone; `v` is what its factory would return. */
  function Solo<K(==), V, E>(s: State<K, V, E>, k: K, v: V): seq<Action<K, V, E>> {
    var n := |s.callers|;
    if k in s.cache then [Enter(k)] else [Enter(k), Finish(n, Ok(v)), Advance(n), Advance(n)]
  }

  lemma SoloMiss<K, V, E>(s: State<K, V, E>, k: K, v: V)
    requires k !in s.cache && k !in s.inflight
    ensures Legal(s, Solo(s, k, v))
    ensures var t := Run(s, Solo(s, k, v));
      t.cache == s.cache[k := v] && t.lookups == s.lookups + 1 && t.callers == Owning(s, k, Returned(v), true).callers
  {
    var n := |s.callers|;
    SoloEnters(s, k, v);
    SoloPublishes(s, k, v);
    var s1 := Next(s, Enter(k));
    var s2 := Next(s1, Finish(n, Ok(v)));
    Prepend(Next(s2, Advance(n)), Advance(n), []);
    Prepend(s2, Advance(n), [Advance(n)] + []);
    Prepend(s1, Finish(n, Ok(v)), [Advance(n)] + ([Advance(n)] + []));
    Prepend(s, Enter(k), [Finish(n, Ok(v))] + ([Advance(n)] + ([Advance(n)] + [])));
    assert Solo(s, k, v) == [Enter(k)] + ([Finish(n, Ok(v))] + ([Advance(n)] + ([Advance(n)] + [])));
  }

  /** A call on a cache at rest, alone until it ends, is a plain memo lookup: a stored value is
      returned, a missing one is computed once and stored. */
  lemma SoloCall<K(!new), V, E>(s: State<K, V, E>, k: K, v: V)
    requires Inv(s) && AllDone(s)
    ensures Legal(s, Solo(s, k, v))
    ensures var t := Run(s, Solo(s, k, v));
      && t.cache == (if k in s.cache then s.cache else s.cache[k := v])
      && t.calls == |t.cache| && t.lookups == s.lookups + 1
      && |t.callers| == |s.callers| + 1 && t.callers[|s.callers|].phase == Returned(t.cache[k]) && AllDone(t)
  {
    AtRest(s, k);
    if k in s.cache {
      Prepend(s, Enter(k), []);
      assert Solo(s, k, v) == [Enter(k)] + [];
    } else {
      SoloMiss(s, k, v);
    }
    RunKeepsInv(s, Solo(s, k, v));
  }

  // ---------- pure factories: concurrency is invisible ----------

  /** Every factory outcome in the run is the pure function `f` of its key. */
  ghost predicate PureRun<K, V, E>(s: State<K, V, E>, acts: seq<Action<K, V, E>>, f: K -> Outcome<V, E>)
    requires Legal(s, acts)
    decreases |acts|
  {
    acts != [] ==>
      && (acts[0].Finish? ==> acts[0].outcome == f(s.callers[acts[0].who].key))
      && PureRun(Next(s, acts[0]), acts[1..], f)
  }

  ghost predicate PurePhase<V, E>(p: Phase<V, E>, o: Outcome<V, E>) {
    match p
    case Computed(v) => o == Ok(v)
    case Published(v) => o == Ok(v)
    case Returned(v) => o == Ok(v)
    case Failed(e) => o == Err(e)
    case Recorded(e) => o == Err(e)
    case Popped(e) => o == Err(e)
    case Raised(e) => o == Err(e)
    case _ => true
  }

  ghost predicate PureCache<K(!new), V, E>(s: State<K, V, E>, f: K -> Outcome<V, E>) {
    forall k :: k in s.cache ==> f(k) == Ok(s.cache[k])
  }

  ghost predicate PureRecords<K, V, E>(s: State<K, V, E>, f: K -> Outcome<V, E>) {
    forall r :: 0 <= r < |s.recs| && s.recs[r].exc.Some? ==> f(s.recs[r].key) == Err(s.recs[r].exc.value)
  }

  ghost predicate PureCalls<K, V, E>(s: State<K, V, E>, f: K -> Outcome<V, E>) {
    forall i :: 0 <= i < |s.callers| ==> PurePhase(s.callers[i].phase, f(s.callers[i].key))
  }

  ghost predicate Pure<K(!new), V, E>(s: State<K, V, E>, f: K -> Outcome<V, E>) {
    PureCache(s, f) && PureRecords(s, f) && PureCalls(s, f)
  }

  ghost predicate PureStep<K(!new), V, E>(s: State<K, V, E>, a: Action<K, V, E>, f: K -> Outcome<V, E>) {
    && Inv(s) && Pure(s, f) && Enabled(s, a)
    && (a.Finish? ==> a.outcome == f(s.callers[a.who].key))
  }

  lemma StepKeepsPureStore<K(!new), V, E>(s: State<K, V, E>, a: Action<K, V, E>, f: K -> Outcome<V, E>)
    requires PureStep(s, a, f)
    ensures PureCache(Next(s, a), f) && PureRecords(Next(s, a), f)
  {
    if !a.Enter? {
      assert CallOk(s, a.who);
      assert PurePhase(s.callers[a.who].phase, f(s.callers[a.who].key));
    }
  }

  lemma StepKeepsPureCall<K(!new), V, E>(s: State<K, V, E>, a: Action<K, V, E>, f: K -> Outcome<V, E>)
    requires PureStep(s, a, f) && !a.Enter?
    ensures PurePhase(NextPhase(s, a), f(s.callers[a.who].key))
  {
    assert CallOk(s, a.who);
    assert PurePhase(s.callers[a.who].phase, f(s.callers[a.who].key));
  }

  lemma StepKeepsPure<K(!new), V, E>(s: State<K, V, E>, a: Action<K, V, E>, f: K -> Outcome<V, E>)
    requires PureStep(s, a, f)
    ensures Pure(Next(s, a), f)
  {
    StepKeepsPureStore(s, a, f);
    if !a.Enter? { StepKeepsPureCall(s, a, f); }
  }

  lemma {:induction false} RunKeepsPure<K(!new), V, E>(s: State<K, V, E>, acts: seq<Action<K, V, E>>, f: K -> Outcome<V, E>)
    requires Inv(s) && Pure(s, f) && Legal(s, acts) && PureRun(s, acts, f)
    ensures Pure(Run(s, acts), f)
    decreases |acts|
  {
    if acts != [] {
      StepKeepsInv(s, acts[0]);
      StepKeepsPure(s, acts[0], f);
      RunKeepsPure(Next(s, acts[0]), acts[1..], f);
    }
  }

  /** With a factory that is a pure function of the key, every finished call of every
      interleaving has exactly the outcome a private, uncached computation would have had. */
  lemma SameAsUncached<K(!new), V, E>(acts: seq<Action<K, V, E>>, f: K -> Outcome<V, E>, i: nat)
    requires Legal(Init<K, V, E>(), acts) && PureRun(Init(), acts, f)
    requires i < |Run(Init(), acts).callers| && Done(Run(Init(), acts).callers[i].phase)
    ensures var c := Run(Init(), acts).callers[i];
      c.phase == match f(c.key) case Ok(v) => Returned(v) case Err(e) => Raised(e)
  {
    ReachableInv(acts);
    RunKeepsPure(Init<K, V, E>(), acts, f);
    var s := Run(Init(), acts);
    assert CallOk(s, i);
  }
}
