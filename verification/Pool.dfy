/** Threads that share a single-flight cache.

    A worker is any sequential program: it takes quiet steps of its own, asks the cache for a key
    and goes on with the answer, or stops.  The pool interleaves the workers' steps with the
    cache's actions in any order.  Its factories are pure functions of the key that return. */
module Pool {
  import opened Basics
  import opened SingleFlight

  datatype Move<K, S> = Ask(key: K) | Quiet(next: S) | Stop

  datatype Program<!K, !V, !S> = Program(move: S -> Move<K, S>, resume: (S, V) -> S)

  /** A worker: its program's state, the call it waits for, and, as history, its steps so far. */
  datatype Worker<S> = Worker(s: S, call: Option<nat>, steps: nat)

  datatype Pool<K, V, E, S> = Pool(cache: State<K, V, E>, workers: seq<Worker<S>>)

  /** A worker starts its next step, the cache acts, or a worker takes its call's answer. */
  datatype Turn<K, V, E> = Go(w: nat) | Act(a: Action<K, V, E>) | Wake(w: nat)

  ghost function Always<K, V, E>(f: K -> V): K -> Outcome<V, E> { (k: K) => Ok(f(k)) }

  // ---------- a worker on its own ----------

  /** One step with the answer computed privately. */
  ghost function Private<K, V, S>(prog: Program<K, V, S>, f: K -> V, s: S): S {
    match prog.move(s)
    case Ask(k) => prog.resume(s, f(k))
    case Quiet(next) => next
    case Stop => s
  }

  ghost function After<K, V, S>(prog: Program<K, V, S>, f: K -> V, s: S, n: nat): S {
    if n == 0 then s else Private(prog, f, After(prog, f, s, n - 1))
  }

  ghost function KeysOf<K, S>(m: Move<K, S>): seq<K> { if m.Ask? then [m.key] else [] }

  /** The keys asked for in the first `n` steps. */
  ghost function Asked<K, V, S>(prog: Program<K, V, S>, f: K -> V, s: S, n: nat): seq<K> {
    if n == 0 then [] else Asked(prog, f, s, n - 1) + KeysOf(prog.move(After(prog, f, s, n - 1)))
  }

  lemma {:induction false} AfterMore<K, V, S>(prog: Program<K, V, S>, f: K -> V, s: S, m: nat, n: nat)
    ensures After(prog, f, s, m + n) == After(prog, f, After(prog, f, s, m), n)
    ensures Asked(prog, f, s, m + n) == Asked(prog, f, s, m) + Asked(prog, f, After(prog, f, s, m), n)
  {
    if n > 0 { AfterMore(prog, f, s, m, n - 1); }
  }

  // A run in legs: leg `m` takes `cost(m)` steps from `at(m)` to `at(m + 1)`.

  ghost function Spent(cost: nat -> nat, m: nat): nat { if m == 0 then 0 else Spent(cost, m - 1) + cost(m - 1) }

  ghost predicate Leg<K, V, S>(prog: Program<K, V, S>, f: K -> V, at: nat -> S, cost: nat -> nat, m: nat) {
    After(prog, f, at(m), cost(m)) == at(m + 1)
  }

  lemma {:induction false} Journey<K, V, S>(prog: Program<K, V, S>, f: K -> V, at: nat -> S, cost: nat -> nat, m: nat)
    requires forall i :: 0 <= i < m ==> Leg(prog, f, at, cost, i)
    ensures After(prog, f, at(0), Spent(cost, m)) == at(m)
  {
    if m > 0 {
      Journey(prog, f, at, cost, m - 1);
      AfterMore(prog, f, at(0), Spent(cost, m - 1), cost(m - 1));
      assert Leg(prog, f, at, cost, m - 1);
    }
  }

  ghost function LegKeys<K, V, S>(prog: Program<K, V, S>, f: K -> V, at: nat -> S, cost: nat -> nat, m: nat): seq<K> {
    if m == 0 then [] else LegKeys(prog, f, at, cost, m - 1) + Asked(prog, f, at(m - 1), cost(m - 1))
  }

  lemma {:induction false} JourneyKeys<K, V, S>(prog: Program<K, V, S>, f: K -> V, at: nat -> S, cost: nat -> nat, m: nat)
    requires forall i :: 0 <= i < m ==> Leg(prog, f, at, cost, i)
    ensures Asked(prog, f, at(0), Spent(cost, m)) == LegKeys(prog, f, at, cost, m)
  {
    if m > 0 {
      JourneyKeys(prog, f, at, cost, m - 1);
      Journey(prog, f, at, cost, m - 1);
      AfterMore(prog, f, at(0), Spent(cost, m - 1), cost(m - 1));
    }
  }

  /** A stopped program stays as it is. */
  lemma {:induction false} StopIsFinal<K, V, S>(prog: Program<K, V, S>, f: K -> V, s: S, m: nat, n: nat)
    requires m <= n && prog.move(After(prog, f, s, m)).Stop?
    ensures After(prog, f, s, n) == After(prog, f, s, m) && Asked(prog, f, s, n) == Asked(prog, f, s, m)
  {
    if m < n { StopIsFinal(prog, f, s, m, n - 1); }
  }

  // ---------- turns ----------

  ghost predicate CanTake<K, V, E, S>(prog: Program<K, V, S>, f: K -> V, p: Pool<K, V, E, S>, t: Turn<K, V, E>) {
    match t
    case Go(w) => w < |p.workers| && p.workers[w].call.None? && !prog.move(p.workers[w].s).Stop?
    case Act(a) => !a.Enter? && Enabled(p.cache, a) && (a.Finish? ==> a.outcome == Ok(f(p.cache.callers[a.who].key)))
    case Wake(w) =>
      && w < |p.workers| && p.workers[w].call.Some? && p.workers[w].call.value < |p.cache.callers|
      && p.cache.callers[p.workers[w].call.value].phase.Returned?
  }

  ghost function Take<K, V, E, S>(prog: Program<K, V, S>, f: K -> V, p: Pool<K, V, E, S>, t: Turn<K, V, E>): Pool<K, V, E, S>
    requires CanTake(prog, f, p, t)
  {
    match t
    case Go(w) =>
      var wk := p.workers[w];
      (match prog.move(wk.s)
       case Ask(k) => Pool(EnterStep(p.cache, k), p.workers[w := wk.(call := Some(|p.cache.callers|))])
       case Quiet(next) => p.(workers := p.workers[w := Worker(next, None, wk.steps + 1)]))
    case Act(a) => p.(cache := Next(p.cache, a))
    case Wake(w) =>
      var wk := p.workers[w];
      var v := p.cache.callers[wk.call.value].phase.v;
      p.(workers := p.workers[w := Worker(prog.resume(wk.s, v), None, wk.steps + 1)])
  }

  ghost predicate Playable<K, V, E, S>(prog: Program<K, V, S>, f: K -> V, p: Pool<K, V, E, S>, ts: seq<Turn<K, V, E>>)
    decreases |ts|
  {
    ts == [] || (CanTake(prog, f, p, ts[0]) && Playable(prog, f, Take(prog, f, p, ts[0]), ts[1..]))
  }

  ghost function Play<K, V, E, S>(prog: Program<K, V, S>, f: K -> V, p: Pool<K, V, E, S>, ts: seq<Turn<K, V, E>>): Pool<K, V, E, S>
    requires Playable(prog, f, p, ts)
    decreases |ts|
  {
    if ts == [] then p else Play(prog, f, Take(prog, f, p, ts[0]), ts[1..])
  }

  /** A pool before its first turn: the cache correct and at rest, the workers at their start. */
  ghost predicate Ready<K(!new), V, E, S>(f: K -> V, p: Pool<K, V, E, S>, inits: seq<S>) {
    && Inv(p.cache) && Pure(p.cache, Always(f))
    && AllDone(p.cache)
    && |p.workers| == |inits| && forall w :: 0 <= w < |inits| ==> p.workers[w] == Worker(inits[w], None, 0)
  }

  // ---------- the invariant ----------

  /** A worker is where its private run would be, and waits for a call of the key it asks for. */
  ghost predicate WorkerOk<K, V, E, S>(prog: Program<K, V, S>, f: K -> V, cache: State<K, V, E>, init: S, wk: Worker<S>) {
    && wk.s == After(prog, f, init, wk.steps)
    && (wk.call.Some? ==> wk.call.value < |cache.callers| && prog.move(wk.s) == Ask(cache.callers[wk.call.value].key))
  }

  /** Call `i` is over or some worker waits for it. */
  ghost predicate Held<K, V, E, S>(p: Pool<K, V, E, S>, i: nat)
    requires i < |p.cache.callers|
  {
    Done(p.cache.callers[i].phase) || exists w :: 0 <= w < |p.workers| && p.workers[w].call == Some(i)
  }

  ghost predicate PoolInv<K(!new), V, E, S>(prog: Program<K, V, S>, f: K -> V, inits: seq<S>, p: Pool<K, V, E, S>) {
    && Inv(p.cache) && Pure(p.cache, Always(f))
    && |p.workers| == |inits|
    && (forall w :: 0 <= w < |inits| ==> WorkerOk(prog, f, p.cache, inits[w], p.workers[w]))
    && (forall i :: 0 <= i < |p.cache.callers| ==> Held(p, i))
  }

  lemma ReadyIsInv<K(!new), V, E, S>(prog: Program<K, V, S>, f: K -> V, inits: seq<S>, p: Pool<K, V, E, S>)
    requires Ready(f, p, inits)
    ensures PoolInv(prog, f, inits, p)
  {
  }

  /** The cache keeps every call's key, adds calls only at the end, and ends none it has ended. */
  ghost predicate CallsKept<K, V, E>(s: State<K, V, E>, t: State<K, V, E>) {
    && |s.callers| <= |t.callers|
    && forall i :: 0 <= i < |s.callers| ==> t.callers[i].key == s.callers[i].key && (Done(s.callers[i].phase) ==> t.callers[i] == s.callers[i])
  }

  lemma NextKeepsCalls<K(!new), V, E>(s: State<K, V, E>, a: Action<K, V, E>)
    requires Inv(s) && Enabled(s, a)
    ensures CallsKept(s, Next(s, a)) && (!a.Enter? ==> |Next(s, a).callers| == |s.callers|)
  {
  }

  lemma CacheKeepsPure<K(!new), V, E>(f: K -> V, s: State<K, V, E>, a: Action<K, V, E>)
    requires Inv(s) && Pure(s, Always(f)) && Enabled(s, a)
    requires a.Finish? ==> a.outcome == Ok(f(s.callers[a.who].key))
    ensures Inv(Next(s, a)) && Pure(Next(s, a), Always(f))
  {
    StepKeepsInv(s, a);
    StepKeepsPure(s, a, Always(f));
  }

  lemma WorkersKept<K, V, E, S>(prog: Program<K, V, S>, f: K -> V, inits: seq<S>, p: Pool<K, V, E, S>, cache: State<K, V, E>, w: nat)
    requires w < |inits| == |p.workers| && CallsKept(p.cache, cache) && WorkerOk(prog, f, p.cache, inits[w], p.workers[w])
    ensures WorkerOk(prog, f, cache, inits[w], p.workers[w])
  {
  }

  /** An answered call carries the pure value of its key. */
  lemma AnswerIsPure<K(!new), V, E>(f: K -> V, s: State<K, V, E>, i: nat)
    requires Inv(s) && Pure(s, Always(f)) && i < |s.callers| && Done(s.callers[i].phase)
    ensures s.callers[i].phase == Returned(f(s.callers[i].key))
  {
    assert CallOk(s, i);
    assert PurePhase(s.callers[i].phase, Always<K, V, E>(f)(s.callers[i].key));
  }

  // ---------- every turn keeps it ----------

  /** Changing one worker: the others' claims stand, and so do the calls it does not give up. */
  lemma OneWorkerMoves<K(!new), V, E, S>(prog: Program<K, V, S>, f: K -> V, inits: seq<S>, p: Pool<K, V, E, S>, w: nat, wk: Worker<S>)
    requires PoolInv(prog, f, inits, p) && w < |inits| && WorkerOk(prog, f, p.cache, inits[w], wk)
    requires p.workers[w].call.Some? ==> p.workers[w].call == wk.call || Done(p.cache.callers[p.workers[w].call.value].phase)
    ensures PoolInv(prog, f, inits, p.(workers := p.workers[w := wk]))
  {
    var q := p.(workers := p.workers[w := wk]);
    forall i | 0 <= i < |q.cache.callers| ensures Held(q, i) {
      assert Held(p, i);
      if v :| 0 <= v < |p.workers| && p.workers[v].call == Some(i) {
        if v != w || wk.call == Some(i) { assert q.workers[v].call == Some(i); }
      }
    }
  }

  lemma EnterKeepsPool<K(!new), V, E, S>(prog: Program<K, V, S>, f: K -> V, inits: seq<S>, p: Pool<K, V, E, S>, w: nat)
    requires PoolInv(prog, f, inits, p) && CanTake(prog, f, p, Go(w)) && prog.move(p.workers[w].s).Ask?
    ensures PoolInv(prog, f, inits, Take(prog, f, p, Go(w)))
  {
    var k, n := prog.move(p.workers[w].s).key, |p.cache.callers|;
    var q := Take(prog, f, p, Go(w));
    assert q.cache == Next(p.cache, Enter(k));
    CacheKeepsPure(f, p.cache, Enter(k));
    NextKeepsCalls(p.cache, Enter(k));
    forall v | 0 <= v < |inits| ensures WorkerOk(prog, f, q.cache, inits[v], q.workers[v]) {
      WorkersKept(prog, f, inits, p, q.cache, v);
    }
    forall i | 0 <= i < |q.cache.callers| ensures Held(q, i) {
      if i == n {
        assert q.workers[w].call == Some(n);
      } else {
        assert Held(p, i);
        if v :| 0 <= v < |p.workers| && p.workers[v].call == Some(i) { assert q.workers[v].call == Some(i); }
      }
    }
  }

  lemma ActKeepsPool<K(!new), V, E, S>(prog: Program<K, V, S>, f: K -> V, inits: seq<S>, p: Pool<K, V, E, S>, a: Action<K, V, E>)
    requires PoolInv(prog, f, inits, p) && CanTake(prog, f, p, Act(a))
    ensures PoolInv(prog, f, inits, Take(prog, f, p, Act(a)))
  {
    var q := Take(prog, f, p, Act(a));
    CacheKeepsPure(f, p.cache, a);
    NextKeepsCalls(p.cache, a);
    forall v | 0 <= v < |inits| ensures WorkerOk(prog, f, q.cache, inits[v], q.workers[v]) {
      WorkersKept(prog, f, inits, p, q.cache, v);
    }
    forall i | 0 <= i < |q.cache.callers| ensures Held(q, i) {
      assert Held(p, i);
      if v :| 0 <= v < |p.workers| && p.workers[v].call == Some(i) { assert q.workers[v].call == Some(i); }
    }
  }

  /** The step a worker makes is the private one. */
  lemma MoveIsPrivate<K(!new), V, E, S>(prog: Program<K, V, S>, f: K -> V, inits: seq<S>, p: Pool<K, V, E, S>, t: Turn<K, V, E>, w: nat)
    requires PoolInv(prog, f, inits, p) && CanTake(prog, f, p, t) && w < |inits|
    requires t == Wake(w) || (t == Go(w) && prog.move(p.workers[w].s).Quiet?)
    ensures Take(prog, f, p, t).workers[w] == Worker(After(prog, f, inits[w], p.workers[w].steps + 1), None, p.workers[w].steps + 1)
    ensures Take(prog, f, p, t).cache == p.cache
  {
    assert WorkerOk(prog, f, p.cache, inits[w], p.workers[w]);
    if t.Wake? { AnswerIsPure(f, p.cache, p.workers[w].call.value); }
  }

  lemma TurnKeepsPool<K(!new), V, E, S>(prog: Program<K, V, S>, f: K -> V, inits: seq<S>, p: Pool<K, V, E, S>, t: Turn<K, V, E>)
    requires PoolInv(prog, f, inits, p) && CanTake(prog, f, p, t)
    ensures PoolInv(prog, f, inits, Take(prog, f, p, t))
  {
    if t.Act? {
      ActKeepsPool(prog, f, inits, p, t.a);
    } else if t.Go? && prog.move(p.workers[t.w].s).Ask? {
      EnterKeepsPool(prog, f, inits, p, t.w);
    } else {
      MoveIsPrivate(prog, f, inits, p, t, t.w);
      var wk := Take(prog, f, p, t).workers[t.w];
      OneWorkerMoves(prog, f, inits, p, t.w, wk);
      assert Take(prog, f, p, t) == p.(workers := p.workers[t.w := wk]);
    }
  }

  lemma {:induction false} PlayKeepsPool<K(!new), V, E, S>(prog: Program<K, V, S>, f: K -> V, inits: seq<S>, p: Pool<K, V, E, S>, ts: seq<Turn<K, V, E>>)
    requires PoolInv(prog, f, inits, p) && Playable(prog, f, p, ts)
    ensures PoolInv(prog, f, inits, Play(prog, f, p, ts))
    decreases |ts|
  {
    if ts != [] {
      TurnKeepsPool(prog, f, inits, p, ts[0]);
      PlayKeepsPool(prog, f, inits, Take(prog, f, p, ts[0]), ts[1..]);
    }
  }

  // ---------- the ledger of calls ----------

  ghost function CountKeys<K>(ks: seq<K>, which: K -> bool): nat {
    if ks == [] then 0 else CountKeys(ks[..|ks| - 1], which) + if which(ks[|ks| - 1]) then 1 else 0
  }

  ghost function CallKeys<K, V, E>(cs: seq<Call<K, V, E>>): seq<K> { seq(|cs|, i requires 0 <= i < |cs| => cs[i].key) }

  /** The keys worker `wk` has asked for, its open call included. */
  ghost function AskedSoFar<K, V, S>(prog: Program<K, V, S>, f: K -> V, init: S, wk: Worker<S>): seq<K> {
    Asked(prog, f, init, wk.steps) + if wk.call.Some? then KeysOf(prog.move(wk.s)) else []
  }

  ghost function CountAsked<K, V, S>(prog: Program<K, V, S>, f: K -> V, inits: seq<S>, workers: seq<Worker<S>>, which: K -> bool): nat
    requires |inits| == |workers|
  {
    if inits == [] then 0
    else
      var n := |inits| - 1;
      CountAsked(prog, f, inits[..n], workers[..n], which) + CountKeys(AskedSoFar(prog, f, inits[n], workers[n]), which)
  }

  /** The calls entered since `c0` are exactly the workers' asks, for every kind of key. */
  ghost predicate Ledger<K, V, E, S>(prog: Program<K, V, S>, f: K -> V, inits: seq<S>, c0: State<K, V, E>, p: Pool<K, V, E, S>, which: K -> bool)
    requires |inits| == |p.workers|
  {
    CountKeys(CallKeys(p.cache.callers), which)
    == CountKeys(CallKeys(c0.callers), which) + CountAsked(prog, f, inits, p.workers, which)
  }

  lemma CountLast<K>(ks: seq<K>, k: K, which: K -> bool)
    ensures CountKeys(ks + [k], which) == CountKeys(ks, which) + if which(k) then 1 else 0
  {
    assert (ks + [k])[..|ks|] == ks;
  }

  lemma {:induction false} CountUpdate<K, V, S>(prog: Program<K, V, S>, f: K -> V, inits: seq<S>, workers: seq<Worker<S>>, w: nat, wk: Worker<S>, which: K -> bool)
    requires w < |inits| == |workers|
    ensures CountAsked(prog, f, inits, workers[w := wk], which) + CountKeys(AskedSoFar(prog, f, inits[w], workers[w]), which)
         == CountAsked(prog, f, inits, workers, which) + CountKeys(AskedSoFar(prog, f, inits[w], wk), which)
  {
    var n := |inits| - 1;
    if w == n {
      assert workers[w := wk][..n] == workers[..n];
    } else {
      CountUpdate(prog, f, inits[..n], workers[..n], w, wk, which);
      assert workers[w := wk][..n] == workers[..n][w := wk] && workers[w := wk][n] == workers[n];
    }
  }

  lemma SameCallKeys<K, V, E>(s: State<K, V, E>, t: State<K, V, E>)
    requires CallsKept(s, t) && |t.callers| == |s.callers|
    ensures CallKeys(t.callers) == CallKeys(s.callers)
  {
  }

  lemma EnterAddsKey<K, V, E>(s: State<K, V, E>, k: K)
    ensures CallKeys(EnterStep(s, k).callers) == CallKeys(s.callers) + [k]
  {
  }

  /** A finished step moves its key from the open call to the steps taken. */
  lemma StepAskedSame<K(!new), V, E, S>(prog: Program<K, V, S>, f: K -> V, inits: seq<S>, p: Pool<K, V, E, S>, t: Turn<K, V, E>, w: nat)
    requires PoolInv(prog, f, inits, p) && CanTake(prog, f, p, t) && w < |inits|
    requires t == Wake(w) || (t == Go(w) && prog.move(p.workers[w].s).Quiet?)
    ensures AskedSoFar(prog, f, inits[w], Take(prog, f, p, t).workers[w]) == AskedSoFar(prog, f, inits[w], p.workers[w])
  {
    MoveIsPrivate(prog, f, inits, p, t, w);
    assert WorkerOk(prog, f, p.cache, inits[w], p.workers[w]);
  }

  lemma TurnKeepsLedger<K(!new), V, E, S>(prog: Program<K, V, S>, f: K -> V, inits: seq<S>, c0: State<K, V, E>, p: Pool<K, V, E, S>, t: Turn<K, V, E>, which: K -> bool)
    requires PoolInv(prog, f, inits, p) && CanTake(prog, f, p, t) && Ledger(prog, f, inits, c0, p, which)
    ensures |Take(prog, f, p, t).workers| == |inits| && Ledger(prog, f, inits, c0, Take(prog, f, p, t), which)
  {
    var q := Take(prog, f, p, t);
    if t.Act? {
      NextKeepsCalls(p.cache, t.a);
      SameCallKeys(p.cache, q.cache);
    } else {
      var w := t.w;
      CountUpdate(prog, f, inits, p.workers, w, q.workers[w], which);
      assert q.workers == p.workers[w := q.workers[w]];
      if t.Go? && prog.move(p.workers[w].s).Ask? {
        var k := prog.move(p.workers[w].s).key;
        EnterAddsKey(p.cache, k);
        CountLast(CallKeys(p.cache.callers), k, which);
        CountLast(Asked(prog, f, inits[w], p.workers[w].steps), k, which);
        assert AskedSoFar(prog, f, inits[w], p.workers[w]) == Asked(prog, f, inits[w], p.workers[w].steps);
        assert AskedSoFar(prog, f, inits[w], q.workers[w]) == Asked(prog, f, inits[w], p.workers[w].steps) + [k];
      } else {
        StepAskedSame(prog, f, inits, p, t, w);
      }
    }
  }

  lemma {:induction false} PlayKeepsLedger<K(!new), V, E, S>(prog: Program<K, V, S>, f: K -> V, inits: seq<S>, c0: State<K, V, E>, p: Pool<K, V, E, S>, ts: seq<Turn<K, V, E>>, which: K -> bool)
    requires PoolInv(prog, f, inits, p) && Ledger(prog, f, inits, c0, p, which) && Playable(prog, f, p, ts)
    ensures |Play(prog, f, p, ts).workers| == |inits| && Ledger(prog, f, inits, c0, Play(prog, f, p, ts), which)
    decreases |ts|
  {
    if ts != [] {
      TurnKeepsPool(prog, f, inits, p, ts[0]);
      TurnKeepsLedger(prog, f, inits, c0, p, ts[0], which);
      PlayKeepsLedger(prog, f, inits, c0, Take(prog, f, p, ts[0]), ts[1..], which);
    }
  }

  // ---------- a finished pool ----------

  ghost predicate Finished<K, V, E, S>(prog: Program<K, V, S>, p: Pool<K, V, E, S>) {
    forall w :: 0 <= w < |p.workers| ==> p.workers[w].call.None? && prog.move(p.workers[w].s).Stop?
  }

  /** On its own, worker `w` stops after `ns[w]` steps. */
  ghost predicate Stops<K, V, S>(prog: Program<K, V, S>, f: K -> V, inits: seq<S>, ns: seq<nat>) {
    |ns| == |inits| && forall w :: 0 <= w < |inits| ==> prog.move(After(prog, f, inits[w], ns[w])).Stop?
  }

  /** What the workers ask for on their own. */
  ghost function CountPrivate<K, V, S>(prog: Program<K, V, S>, f: K -> V, inits: seq<S>, ns: seq<nat>, which: K -> bool): nat
    requires |ns| == |inits|
  {
    if inits == [] then 0
    else
      var n := |inits| - 1;
      CountPrivate(prog, f, inits[..n], ns[..n], which) + CountKeys(Asked(prog, f, inits[n], ns[n]), which)
  }

  lemma OneMoreWorker<K, V, S>(prog: Program<K, V, S>, f: K -> V, inits: seq<S>, s: S, ns: seq<nat>, n: nat, which: K -> bool)
    requires |ns| == |inits|
    ensures CountPrivate(prog, f, inits + [s], ns + [n], which)
         == CountPrivate(prog, f, inits, ns, which) + CountKeys(Asked(prog, f, s, n), which)
  {
    assert (inits + [s])[..|inits|] == inits && (ns + [n])[..|ns|] == ns;
  }

  lemma FinishedWorker<K(!new), V, E, S>(prog: Program<K, V, S>, f: K -> V, inits: seq<S>, ns: seq<nat>, p: Pool<K, V, E, S>, w: nat)
    requires PoolInv(prog, f, inits, p) && Finished(prog, p) && Stops(prog, f, inits, ns) && w < |inits|
    ensures p.workers[w].s == After(prog, f, inits[w], ns[w])
    ensures AskedSoFar(prog, f, inits[w], p.workers[w]) == Asked(prog, f, inits[w], ns[w])
  {
    var steps := p.workers[w].steps;
    assert WorkerOk(prog, f, p.cache, inits[w], p.workers[w]);
    if steps <= ns[w] { StopIsFinal(prog, f, inits[w], steps, ns[w]); } else { StopIsFinal(prog, f, inits[w], ns[w], steps); }
  }

  lemma {:induction false} SameCounts<K, V, S>(prog: Program<K, V, S>, f: K -> V, inits: seq<S>, ns: seq<nat>, workers: seq<Worker<S>>, which: K -> bool)
    requires |ns| == |inits| == |workers|
    requires forall w :: 0 <= w < |inits| ==> AskedSoFar(prog, f, inits[w], workers[w]) == Asked(prog, f, inits[w], ns[w])
    ensures CountAsked(prog, f, inits, workers, which) == CountPrivate(prog, f, inits, ns, which)
  {
    if inits != [] { SameCounts(prog, f, inits[..|inits| - 1], ns[..|ns| - 1], workers[..|workers| - 1], which); }
  }

  lemma {:induction false} NothingAsked<K, V, S>(prog: Program<K, V, S>, f: K -> V, inits: seq<S>, workers: seq<Worker<S>>, which: K -> bool)
    requires |inits| == |workers| && forall w :: 0 <= w < |inits| ==> workers[w] == Worker(inits[w], None, 0)
    ensures CountAsked(prog, f, inits, workers, which) == 0
  {
    if inits != [] {
      var n := |inits| - 1;
      NothingAsked(prog, f, inits[..n], workers[..n], which);
      assert AskedSoFar(prog, f, inits[n], workers[n]) == [];
    }
  }

  /** In every finished interleaving each worker ends where it would have ended on its own, and
      the calls made, of every kind of key, are exactly those the workers make on their own. */
  lemma PoolOutcome<K(!new), V, E, S>(prog: Program<K, V, S>, f: K -> V, inits: seq<S>, ns: seq<nat>, p: Pool<K, V, E, S>, ts: seq<Turn<K, V, E>>, which: K -> bool)
    requires Ready(f, p, inits) && Playable(prog, f, p, ts) && Finished(prog, Play(prog, f, p, ts)) && Stops(prog, f, inits, ns)
    ensures var q := Play(prog, f, p, ts);
      && PoolInv(prog, f, inits, q)
      && (forall w :: 0 <= w < |inits| ==> q.workers[w].s == After(prog, f, inits[w], ns[w]))
      && CountKeys(CallKeys(q.cache.callers), which)
         == CountKeys(CallKeys(p.cache.callers), which) + CountPrivate(prog, f, inits, ns, which)
  {
    var q := Play(prog, f, p, ts);
    ReadyIsInv(prog, f, inits, p);
    PlayKeepsPool(prog, f, inits, p, ts);
    NothingAsked(prog, f, inits, p.workers, which);
    PlayKeepsLedger(prog, f, inits, p.cache, p, ts, which);
    forall w | 0 <= w < |inits|
      ensures q.workers[w].s == After(prog, f, inits[w], ns[w])
           && AskedSoFar(prog, f, inits[w], q.workers[w]) == Asked(prog, f, inits[w], ns[w])
    {
      FinishedWorker(prog, f, inits, ns, q, w);
    }
    SameCounts(prog, f, inits, ns, q.workers, which);
  }

  // ---------- what the cache then holds ----------

  lemma FinishedIsDone<K(!new), V, E, S>(prog: Program<K, V, S>, f: K -> V, inits: seq<S>, p: Pool<K, V, E, S>)
    requires PoolInv(prog, f, inits, p) && Finished(prog, p)
    ensures AllDone(p.cache)
  {
    forall i | 0 <= i < |p.cache.callers| ensures Done(p.cache.callers[i].phase) { assert Held(p, i); }
  }

  ghost predicate IsKey<K(!new)>(which: K -> bool, k: K) { forall x :: which(x) <==> x == k }

  lemma {:induction false} CountAny<K(!new)>(ks: seq<K>, k: K, which: K -> bool)
    requires IsKey(which, k)
    ensures CountKeys(ks, which) > 0 <==> k in ks
  {
    if ks != [] {
      var n := |ks| - 1;
      CountAny(ks[..n], k, which);
      assert ks == ks[..n] + [ks[n]];
    }
  }

  /** At rest the cache holds exactly the keys that were asked for, each with its pure value. */
  lemma RestingCache<K(!new), V, E>(f: K -> V, s: State<K, V, E>, k: K)
    requires Inv(s) && Pure(s, Always(f)) && AllDone(s)
    ensures k in s.cache <==> k in CallKeys(s.callers)
    ensures k in s.cache ==> s.cache[k] == f(k)
  {
    assert KeyOk(s, k);
    if k in s.cache {
      assert CallKeys(s.callers)[s.publisher[k]] == k;
      assert Always<K, V, E>(f)(k) == Ok(s.cache[k]);
    }
    if k in CallKeys(s.callers) {
      var i :| 0 <= i < |s.callers| && CallKeys(s.callers)[i] == k;
      AnswerIsPure(f, s, i);
      assert CallOk(s, i);
    }
  }

  /** The finished pool's cache: the keys it had and those the workers ask for on their own,
      each computed once. */
  lemma PoolCache<K(!new), V, E, S>(prog: Program<K, V, S>, f: K -> V, inits: seq<S>, ns: seq<nat>, p: Pool<K, V, E, S>, ts: seq<Turn<K, V, E>>, k: K, which: K -> bool)
    requires Ready(f, p, inits) && Playable(prog, f, p, ts) && Finished(prog, Play(prog, f, p, ts)) && Stops(prog, f, inits, ns)
    requires IsKey(which, k)
    ensures var c := Play(prog, f, p, ts).cache;
      && (k in c.cache <==> k in p.cache.cache || CountPrivate(prog, f, inits, ns, which) > 0)
      && (k in c.cache ==> c.cache[k] == f(k)) && c.successes[k] <= 1
      && c.calls == |c.cache| && c.lookups == |c.callers|
  {
    var q := Play(prog, f, p, ts);
    PoolOutcome(prog, f, inits, ns, p, ts, which);
    FinishedIsDone(prog, f, inits, q);
    RestingCache(f, q.cache, k);
    RestingCache(f, p.cache, k);
    CountAny(CallKeys(q.cache.callers), k, which);
    CountAny(CallKeys(p.cache.callers), k, which);
    assert KeyOk(q.cache, k);
  }

  ghost predicate Kept<K(!new), V, E>(s: State<K, V, E>, t: State<K, V, E>) {
    forall k :: k in s.cache ==> k in t.cache && t.cache[k] == s.cache[k]
  }

  lemma TurnKeepsEntries<K(!new), V, E, S>(prog: Program<K, V, S>, f: K -> V, inits: seq<S>, p: Pool<K, V, E, S>, t: Turn<K, V, E>)
    requires PoolInv(prog, f, inits, p) && CanTake(prog, f, p, t)
    ensures Kept(p.cache, Take(prog, f, p, t).cache)
  {
    if t.Act? {
      assert [t.a][1..] == [] && Legal(Next(p.cache, t.a), []);
      CacheOnlyGrows(p.cache, [t.a]);
    }
  }

  /** What a shared cache does while a worker waits: its entries stay, and every value in it is
      the pure one. */
  lemma {:induction false} PlayKeepsEntries<K(!new), V, E, S>(prog: Program<K, V, S>, f: K -> V, inits: seq<S>, p: Pool<K, V, E, S>, ts: seq<Turn<K, V, E>>)
    requires PoolInv(prog, f, inits, p) && Playable(prog, f, p, ts)
    ensures Kept(p.cache, Play(prog, f, p, ts).cache)
    ensures forall k :: k in Play(prog, f, p, ts).cache.cache ==> Play(prog, f, p, ts).cache.cache[k] == f(k)
    decreases |ts|
  {
    if ts == [] {
      forall k | k in p.cache.cache ensures p.cache.cache[k] == f(k) { assert Always<K, V, E>(f)(k) == Ok(p.cache.cache[k]); }
    } else {
      TurnKeepsPool(prog, f, inits, p, ts[0]);
      TurnKeepsEntries(prog, f, inits, p, ts[0]);
      PlayKeepsEntries(prog, f, inits, Take(prog, f, p, ts[0]), ts[1..]);
    }
  }

  // ---------- progress ----------

  /** A turn that a pool with the unfinished worker `w` can take: the worker's own, or the next
      action of the caller its call waits for. */
  ghost function Mover<K, V, E, S>(prog: Program<K, V, S>, f: K -> V, p: Pool<K, V, E, S>, w: nat): Turn<K, V, E>
    requires w < |p.workers| && (p.workers[w].call.Some? ==> p.workers[w].call.value < |p.cache.callers|)
  {
    if p.workers[w].call.None? then Go(w)
    else
      var c := p.workers[w].call.value;
      if Done(p.cache.callers[c].phase) then Wake(w)
      else
        var i := if CanMove(p.cache, c) then c else WaitsFor(p.cache, c);
        if i < |p.cache.callers| && p.cache.callers[i].phase.Compute? then Act(Finish(i, Ok(f(p.cache.callers[i].key))))
        else Act(Advance(i))
  }

  ghost function WaitsFor<K, V, E>(s: State<K, V, E>, c: nat): nat
    requires c < |s.callers|
  {
    if s.callers[c].role.Waiter? && s.callers[c].role.rec < |s.recs| then s.recs[s.callers[c].role.rec].owner else c
  }

  lemma MoverMoves<K(!new), V, E, S>(prog: Program<K, V, S>, f: K -> V, inits: seq<S>, p: Pool<K, V, E, S>, w: nat)
    requires PoolInv(prog, f, inits, p) && w < |p.workers|
    requires !(p.workers[w].call.None? && prog.move(p.workers[w].s).Stop?)
    ensures p.workers[w].call.Some? ==> p.workers[w].call.value < |p.cache.callers|
    ensures CanTake(prog, f, p, Mover(prog, f, p, w))
  {
    assert WorkerOk(prog, f, p.cache, inits[w], p.workers[w]);
    if p.workers[w].call.Some? {
      var c := p.workers[w].call.value;
      if Done(p.cache.callers[c].phase) { AnswerIsPure(f, p.cache, c); } else { NeverStuck(p.cache, c); }
    }
  }

  /** A pool that has not finished can take a turn. */
  lemma NeverDeadlocks<K(!new), V, E, S>(prog: Program<K, V, S>, f: K -> V, inits: seq<S>, p: Pool<K, V, E, S>)
    requires PoolInv(prog, f, inits, p) && !Finished(prog, p)
    ensures exists t :: CanTake(prog, f, p, t)
  {
    var w :| 0 <= w < |p.workers| && !(p.workers[w].call.None? && prog.move(p.workers[w].s).Stop?);
    MoverMoves(prog, f, inits, p, w);
  }

  /** What a worker may still cost, if it stops after `n` steps on its own. */
  ghost function Owed<S>(wk: Worker<S>, n: nat): int {
    6 * (if wk.steps < n then n - wk.steps else 0) - if wk.call.Some? then 5 else 0
  }

  ghost function OwedAll<S>(workers: seq<Worker<S>>, ns: seq<nat>): int
    requires |workers| == |ns|
  {
    if ns == [] then 0 else OwedAll(workers[..|ns| - 1], ns[..|ns| - 1]) + Owed(workers[|ns| - 1], ns[|ns| - 1])
  }

  ghost function Budget<K, V, E, S>(p: Pool<K, V, E, S>, ns: seq<nat>): int
    requires |p.workers| == |ns|
  {
    OwedAll(p.workers, ns) + Work(p.cache.callers)
  }

  lemma {:induction false} OwedUpdate<S>(workers: seq<Worker<S>>, ns: seq<nat>, w: nat, wk: Worker<S>)
    requires w < |ns| == |workers|
    ensures OwedAll(workers[w := wk], ns) == OwedAll(workers, ns) - Owed(workers[w], ns[w]) + Owed(wk, ns[w])
  {
    var n := |ns| - 1;
    if w == n {
      assert workers[w := wk][..n] == workers[..n];
    } else {
      assert workers[w := wk][..n] == workers[..n][w := wk];
      OwedUpdate(workers[..n], ns[..n], w, wk);
    }
  }

  lemma {:induction false} WorkAppend<K, V, E>(cs: seq<Call<K, V, E>>, c: Call<K, V, E>)
    ensures Work(cs + [c]) == Work(cs) + Rank(c.phase)
  {
    if cs == [] {
      assert cs + [c] == [c];
    } else {
      assert (cs + [c])[1..] == cs[1..] + [c];
      WorkAppend(cs[1..], c);
    }
  }

  lemma StepsLeft<K, V, E, S>(prog: Program<K, V, S>, f: K -> V, cache: State<K, V, E>, init: S, wk: Worker<S>, n: nat)
    requires WorkerOk(prog, f, cache, init, wk) && prog.move(After(prog, f, init, n)).Stop? && !prog.move(wk.s).Stop?
    ensures wk.steps < n
  {
    if n <= wk.steps { StopIsFinal(prog, f, init, n, wk.steps); }
  }

  lemma EnterWork<K, V, E>(s: State<K, V, E>, k: K)
    ensures Work(EnterStep(s, k).callers) <= Work(s.callers) + 4
  {
    var c := EnterStep(s, k).callers[|s.callers|];
    WorkAppend(s.callers, c);
    assert EnterStep(s, k).callers == s.callers + [c];
  }

  lemma TurnSpends<K(!new), V, E, S>(prog: Program<K, V, S>, f: K -> V, inits: seq<S>, ns: seq<nat>, p: Pool<K, V, E, S>, t: Turn<K, V, E>)
    requires PoolInv(prog, f, inits, p) && Stops(prog, f, inits, ns) && CanTake(prog, f, p, t)
    ensures |Take(prog, f, p, t).workers| == |ns| && Budget(Take(prog, f, p, t), ns) < Budget(p, ns)
  {
    var q := Take(prog, f, p, t);
    if t.Act? {
      StepWorks(p.cache, t.a);
    } else {
      var w := t.w;
      assert WorkerOk(prog, f, p.cache, inits[w], p.workers[w]);
      StepsLeft(prog, f, p.cache, inits[w], p.workers[w], ns[w]);
      OwedUpdate(p.workers, ns, w, q.workers[w]);
      assert q.workers == p.workers[w := q.workers[w]];
      if t.Go? && prog.move(p.workers[w].s).Ask? { EnterWork(p.cache, prog.move(p.workers[w].s).key); }
    }
  }

  lemma {:induction false} OwedPositive<K, V, E, S>(prog: Program<K, V, S>, f: K -> V, cache: State<K, V, E>, inits: seq<S>, ns: seq<nat>, workers: seq<Worker<S>>)
    requires |ns| == |inits| == |workers| && forall w :: 0 <= w < |inits| ==> WorkerOk(prog, f, cache, inits[w], workers[w])
    requires forall w :: 0 <= w < |inits| ==> prog.move(After(prog, f, inits[w], ns[w])).Stop?
    ensures OwedAll(workers, ns) >= 0
  {
    if ns != [] {
      var n := |ns| - 1;
      OwedPositive(prog, f, cache, inits[..n], ns[..n], workers[..n]);
      if workers[n].call.Some? { StepsLeft(prog, f, cache, inits[n], workers[n], ns[n]); }
    }
  }

  /** Every interleaving is finite: its turns are paid from a budget fixed by the workers' own
      runs. */
  lemma {:induction false} PoolEnds<K(!new), V, E, S>(prog: Program<K, V, S>, f: K -> V, inits: seq<S>, ns: seq<nat>, p: Pool<K, V, E, S>, ts: seq<Turn<K, V, E>>)
    requires PoolInv(prog, f, inits, p) && Stops(prog, f, inits, ns) && Playable(prog, f, p, ts)
    ensures |ts| <= Budget(p, ns)
    decreases |ts|
  {
    OwedPositive(prog, f, p.cache, inits, ns, p.workers);
    if ts != [] {
      TurnKeepsPool(prog, f, inits, p, ts[0]);
      TurnSpends(prog, f, inits, ns, p, ts[0]);
      PoolEnds(prog, f, inits, ns, Take(prog, f, p, ts[0]), ts[1..]);
    }
  }

  /** And it can always be played to the end. */
  lemma {:induction false} PlaysToTheEnd<K(!new), V, E, S>(prog: Program<K, V, S>, f: K -> V, inits: seq<S>, ns: seq<nat>, p: Pool<K, V, E, S>)
    requires PoolInv(prog, f, inits, p) && Stops(prog, f, inits, ns)
    ensures exists ts :: Playable(prog, f, p, ts) && Finished(prog, Play(prog, f, p, ts))
    decreases Budget(p, ns)
  {
    OwedPositive(prog, f, p.cache, inits, ns, p.workers);
    if Finished(prog, p) {
      assert Playable(prog, f, p, []);
    } else {
      NeverDeadlocks(prog, f, inits, p);
      var t :| CanTake(prog, f, p, t);
      TurnKeepsPool(prog, f, inits, p, t);
      TurnSpends(prog, f, inits, ns, p, t);
      PlaysToTheEnd(prog, f, inits, ns, Take(prog, f, p, t));
      var rest :| Playable(prog, f, Take(prog, f, p, t), rest) && Finished(prog, Play(prog, f, Take(prog, f, p, t), rest));
      assert ([t] + rest)[1..] == rest;
      assert Playable(prog, f, p, [t] + rest);
    }
  }
}
