/** `run_trajectories`: the grid run serially, by a thread pool or by a process pool, and the assembly of
    the return matrix. */
module ReturnMatrix {
  import opened Basics
  import opened Policies
  import opened Trajectory
  import opened Sweep
  import opened Executors
  import opened Threads
  import Pool

  /** How the grid is run.  A thread pool hands over what its threads have ended with. */
  datatype Executor = Serial | ThreadPool(ended: seq<Thread>) | ProcessPool

  /** What the threads hand over comes from a finished interleaving of the grid's trajectories. */
  ghost predicate FromPool(j: Job, grid: seq<GridPoint>, ended: seq<Thread>, p: Threads.ThreadPool, ts: seq<Pool.Turn<Key, Value, string>>) {
    && FinishedPool(j, grid, p, ts)
    && var q := Pool.Play(Trajectories(j), Own(j), p, ts);
       |ended| == |grid| == |q.workers| && forall i :: 0 <= i < |grid| ==> ended[i] == q.workers[i].s
  }

  /** What the serial loop without caches would give, column by column. */
  ghost function SerialMatrix(e: World, p: Params, ss: seq<Row>, cutoffs: seq<int>, grid: seq<GridPoint>): seq<seq<real>>
    requires ValidWorld(e)
  {
    seq(|grid|, i requires 0 <= i < |grid| => Run(e, p, grid[i], ss, cutoffs).earned)
  }

  // ---------- the futures of the thread pool ----------

  lemma EndedIsMeaning(j: Job, grid: seq<GridPoint>, ended: seq<Thread>, p: Threads.ThreadPool, ts: seq<Pool.Turn<Key, Value, string>>, i: nat)
    requires ValidWorld(j.e) && FromPool(j, grid, ended, p, ts) && i < |grid|
    ensures Report(ended[i].c) == Report(Meaning(j.e, j.p, j.ss, j.cutoffs)(grid[i]))
  {
    ThreadsEnd(j, grid, p, ts, i);
  }

  /** The results by key, in the order the futures were submitted. */
  method Collect(keyOf: GridPoint -> string, grid: seq<GridPoint>, ended: seq<Thread>, ghost meaning: GridPoint -> Carry)
    returns (results: map<string, Result>)
    requires KeysDetermine(grid, keyOf) && |ended| == |grid|
    requires forall i :: 0 <= i < |grid| ==> Report(ended[i].c) == Report(meaning(grid[i]))
    ensures Holds(results, keyOf, meaning, grid)
  {
    results := map[];
    for i := 0 to |grid|
      invariant Holds(results, keyOf, meaning, grid[..i])
    {
      HoldsOneMore(results, keyOf, meaning, grid, i);
      results := results[keyOf(grid[i]) := Report(ended[i].c)];
    }
    assert grid[..|grid|] == grid;
  }

  method RunThreads(ghost j: Job, keyOf: GridPoint -> string, grid: seq<GridPoint>, ended: seq<Thread>,
                    ghost p: Threads.ThreadPool, ghost ts: seq<Pool.Turn<Key, Value, string>>)
    returns (results: map<string, Result>)
    requires ValidWorld(j.e) && KeysDetermine(grid, keyOf) && FromPool(j, grid, ended, p, ts)
    ensures Holds(results, keyOf, Meaning(j.e, j.p, j.ss, j.cutoffs), grid)
  {
    ghost var meaning := Meaning(j.e, j.p, j.ss, j.cutoffs);
    forall i | 0 <= i < |grid| ensures Report(ended[i].c) == Report(meaning(grid[i])) {
      EndedIsMeaning(j, grid, ended, p, ts, i);
    }
    results := Collect(keyOf, grid, ended, meaning);
  }

  // ---------- the matrix ----------

  /** The results the matrix needs are there. */
  ghost predicate Available(results: map<string, Result>, keyOf: GridPoint -> string, grid: seq<GridPoint>, target: seq<seq<real>>) {
    |target| == |grid| && forall i :: 0 <= i < |grid| ==> keyOf(grid[i]) in results && results[keyOf(grid[i])].earned == target[i]
  }

  lemma HoldsIsAvailable(results: map<string, Result>, keyOf: GridPoint -> string, e: World, p: Params, ss: seq<Row>,
                     cutoffs: seq<int>, grid: seq<GridPoint>)
    requires ValidWorld(e) && Holds(results, keyOf, Meaning(e, p, ss, cutoffs), grid)
    ensures Available(results, keyOf, grid, SerialMatrix(e, p, ss, cutoffs, grid))
  {
    forall i | 0 <= i < |grid| ensures keyOf(grid[i]) in results
                                    && results[keyOf(grid[i])].earned == Run(e, p, grid[i], ss, cutoffs).earned
    {
      assert grid[i] in grid;
    }
  }

  /** One column per grid point, in grid order. */
  method Assemble(keyOf: GridPoint -> string, grid: seq<GridPoint>, results: map<string, Result>, ghost target: seq<seq<real>>)
    returns (matrix: seq<seq<real>>)
    requires Available(results, keyOf, grid, target)
    ensures matrix == target
  {
    matrix := [];
    for i := 0 to |grid|
      invariant matrix == target[..i]
    {
      matrix := matrix + [results[keyOf(grid[i])].earned];
    }
  }

  /** Serial, threads or processes: the matrix is the one of the uncached serial loop, and the
      backtests asked for are that loop's.  The caches serve the serial run; `pool` and `turns`
      are the thread pool's machine and its interleaving. */
  method RunTrajectories(e: World, p: Params, ss: seq<Row>, cutoffs: seq<int>, keyOf: GridPoint -> string, grid: seq<GridPoint>,
                         executor: Executor, caches: Caches,
                         ghost pool: Threads.ThreadPool, ghost turns: seq<Pool.Turn<Key, Value, string>>)
    returns (matrix: seq<seq<real>>, results: map<string, Result>)
    requires ValidWorld(e) && OrderFree(e) && KeysDetermine(grid, keyOf) && caches.Valid(e, p, ss)
    requires executor.ThreadPool? ==> FromPool(Job(e, p, ss, cutoffs), grid, executor.ended, pool, turns)
    modifies caches.uniqueness, caches.score, caches.deflation, caches.runner
    ensures matrix == SerialMatrix(e, p, ss, cutoffs, grid)
    ensures Holds(results, keyOf, Meaning(e, p, ss, cutoffs), grid)
    ensures executor.Serial? ==>
      Counted(Meaning(e, p, ss, cutoffs), grid, old(caches.runner.table).Keys, old(caches.runner.lookups),
              caches.runner.table.Keys, caches.runner.lookups)
    ensures executor.ThreadPool? ==>
      var j := Job(e, p, ss, cutoffs);
      var after := Pool.Play(Trajectories(j), Own(j), pool, turns).cache;
      Counted(Meaning(e, p, ss, cutoffs), grid, Stored(pool.cache), Lookups(pool.cache), Stored(after), Lookups(after))
    ensures executor.ProcessPool? ==>
      && caches.runner.lookups == TotalRequests(Meaning(e, p, ss, cutoffs), grid)
      && caches.runner.calls >= |AllRequests(Meaning(e, p, ss, cutoffs), grid)|
  {
    match executor {
      case Serial =>
        results := RunAll(e, p, ss, cutoffs, keyOf, grid, caches);
      case ThreadPool(ended) =>
        results := RunThreads(Job(e, p, ss, cutoffs), keyOf, grid, ended, pool, turns);
        ThreadsCount(Job(e, p, ss, cutoffs), grid, pool, turns);
      case ProcessPool =>
        var calls, lookups;
        results, calls, lookups := RunProcess(e, p, ss, cutoffs, keyOf, grid);
        caches.runner.calls, caches.runner.lookups := calls, lookups;
    }
    HoldsIsAvailable(results, keyOf, e, p, ss, cutoffs, grid);
    matrix := Assemble(keyOf, grid, results, SerialMatrix(e, p, ss, cutoffs, grid));
  }
}
