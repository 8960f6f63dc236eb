/** Lists of grid points against one set of caches, and the process pool: chunks by criteria, each with
    private caches, merged by key. */
module Executors {
  import opened Basics
  import opened Policies
  import opened Trajectory
  import opened Sweep

  /** The uncached, serial meaning of every grid point. */
  ghost function Meaning(e: World, p: Params, ss: seq<Row>, cutoffs: seq<int>): GridPoint -> Carry
    requires ValidWorld(e)
  {
    (g: GridPoint) => Run(e, p, g, ss, cutoffs)
  }

  /** Equal keys name equal grid points, as pre-registration enforces. */
  ghost predicate KeysDetermine(grid: seq<GridPoint>, keyOf: GridPoint -> string) {
    forall g, h :: g in grid && h in grid && keyOf(g) == keyOf(h) ==> g == h
  }

  /** `results` holds the meaning of the points of `gps`, and nothing else. */
  ghost predicate Holds(results: map<string, Result>, keyOf: GridPoint -> string, meaning: GridPoint -> Carry, gps: seq<GridPoint>) {
    && (forall g :: g in gps ==> keyOf(g) in results && results[keyOf(g)] == Report(meaning(g)))
    && (forall k :: k in results ==> exists g :: g in gps && k == keyOf(g))
  }

  lemma HoldsOneMore(results: map<string, Result>, keyOf: GridPoint -> string, meaning: GridPoint -> Carry, gps: seq<GridPoint>, i: nat)
    requires i < |gps| && KeysDetermine(gps, keyOf) && Holds(results, keyOf, meaning, gps[..i])
    ensures Holds(results[keyOf(gps[i]) := Report(meaning(gps[i]))], keyOf, meaning, gps[..i + 1])
  {
    assert gps[..i + 1] == gps[..i] + [gps[i]];
  }

  // ---------- dedup accounting ----------

  ghost function TotalRequests(meaning: GridPoint -> Carry, gps: seq<GridPoint>): nat {
    if gps == [] then 0 else TotalRequests(meaning, gps[..|gps| - 1]) + |meaning(gps[|gps| - 1]).requests|
  }

  ghost function AllRequests(meaning: GridPoint -> Carry, gps: seq<GridPoint>): set<Request> {
    if gps == [] then {} else AllRequests(meaning, gps[..|gps| - 1]) + Asked(meaning(gps[|gps| - 1]))
  }

  lemma {:induction false} InAllRequests(meaning: GridPoint -> Carry, gps: seq<GridPoint>, q: Request)
    ensures q in AllRequests(meaning, gps) <==> exists g :: g in gps && q in Asked(meaning(g))
  {
    if gps != [] {
      var n := |gps| - 1;
      InAllRequests(meaning, gps[..n], q);
      assert gps == gps[..n] + [gps[n]];
    }
  }

  /** The runner's keys and lookups after answering for `gps`. */
  ghost predicate Counted(meaning: GridPoint -> Carry, gps: seq<GridPoint>, keys: set<Request>, lookups: nat, keys': set<Request>, lookups': nat) {
    keys' == keys + AllRequests(meaning, gps) && lookups' == lookups + TotalRequests(meaning, gps)
  }

  lemma CountedOneMore(meaning: GridPoint -> Carry, gps: seq<GridPoint>, i: nat, keys: set<Request>, lookups: nat,
                       keys1: set<Request>, lookups1: nat, keys2: set<Request>, lookups2: nat)
    requires i < |gps| && Counted(meaning, gps[..i], keys, lookups, keys1, lookups1)
    requires Answered(keys1, lookups1, keys2, lookups2, meaning(gps[i]))
    ensures Counted(meaning, gps[..i + 1], keys, lookups, keys2, lookups2)
  {
    assert gps[..i + 1][..i] == gps[..i];
  }

  // ---------- a list of grid points against one set of caches ----------

  /** The results of `gps`, and what answering for them did to the runner. */
  ghost predicate Served(results: map<string, Result>, keyOf: GridPoint -> string, meaning: GridPoint -> Carry, gps: seq<GridPoint>,
                         keys: set<Request>, lookups: nat, keys': set<Request>, lookups': nat)
  {
    Holds(results, keyOf, meaning, gps) && Counted(meaning, gps, keys, lookups, keys', lookups')
  }

  lemma ServedOneMore(results: map<string, Result>, keyOf: GridPoint -> string, meaning: GridPoint -> Carry, gps: seq<GridPoint>, i: nat,
                      r: Result, keys: set<Request>, lookups: nat, keys1: set<Request>, lookups1: nat, keys2: set<Request>, lookups2: nat)
    requires i < |gps| && KeysDetermine(gps, keyOf)
    requires Served(results, keyOf, meaning, gps[..i], keys, lookups, keys1, lookups1)
    requires r == Report(meaning(gps[i])) && Answered(keys1, lookups1, keys2, lookups2, meaning(gps[i]))
    ensures Served(results[keyOf(gps[i]) := r], keyOf, meaning, gps[..i + 1], keys, lookups, keys2, lookups2)
  {
    HoldsOneMore(results, keyOf, meaning, gps, i);
    CountedOneMore(meaning, gps, i, keys, lookups, keys1, lookups1, keys2, lookups2);
  }

  /** One more point: its trajectory through the caches, filed under its key. */
  method RunNext(e: World, p: Params, ss: seq<Row>, cutoffs: seq<int>, keyOf: GridPoint -> string, gps: seq<GridPoint>, i: nat, caches: Caches,
                 results: map<string, Result>, ghost meaning: GridPoint -> Carry, ghost keys: set<Request>, ghost lookups: nat)
    returns (results': map<string, Result>)
    requires ValidWorld(e) && OrderFree(e) && KeysDetermine(gps, keyOf) && caches.Valid(e, p, ss)
    requires i < |gps| && meaning == Meaning(e, p, ss, cutoffs)
    requires Served(results, keyOf, meaning, gps[..i], keys, lookups, caches.runner.table.Keys, caches.runner.lookups)
    modifies caches.uniqueness, caches.score, caches.deflation, caches.runner
    ensures caches.Valid(e, p, ss)
    ensures Served(results', keyOf, meaning, gps[..i + 1], keys, lookups, caches.runner.table.Keys, caches.runner.lookups)
  {
    ghost var keys1, lookups1 := caches.runner.table.Keys, caches.runner.lookups;
    var r := RunTrajectory(e, p, gps[i], ss, cutoffs, caches);
    ServedOneMore(results, keyOf, meaning, gps, i, r, keys, lookups, keys1, lookups1,
                  caches.runner.table.Keys, caches.runner.lookups);
    results' := results[keyOf(gps[i]) := r];
  }

  method RunAll(e: World, p: Params, ss: seq<Row>, cutoffs: seq<int>, keyOf: GridPoint -> string, gps: seq<GridPoint>, caches: Caches)
    returns (results: map<string, Result>)
    requires ValidWorld(e) && OrderFree(e) && KeysDetermine(gps, keyOf) && caches.Valid(e, p, ss)
    modifies caches.uniqueness, caches.score, caches.deflation, caches.runner
    ensures caches.Valid(e, p, ss)
    ensures Holds(results, keyOf, Meaning(e, p, ss, cutoffs), gps)
    ensures Counted(Meaning(e, p, ss, cutoffs), gps, old(caches.runner.table).Keys, old(caches.runner.lookups),
                    caches.runner.table.Keys, caches.runner.lookups)
  {
    results := map[];
    ghost var meaning := Meaning(e, p, ss, cutoffs);
    ghost var keys, lookups := caches.runner.table.Keys, caches.runner.lookups;
    for i := 0 to |gps|
      invariant caches.Valid(e, p, ss)
      invariant Served(results, keyOf, meaning, gps[..i], keys, lookups, caches.runner.table.Keys, caches.runner.lookups)
    {
      results := RunNext(e, p, ss, cutoffs, keyOf, gps, i, caches, results, meaning, keys, lookups);
    }
    assert gps[..|gps|] == gps;
  }

  // ---------- partition by criteria ----------

  function OfCriteria(grid: seq<GridPoint>, c: Criteria): seq<GridPoint> {
    if grid == [] then []
    else
      var g := grid[|grid| - 1];
      OfCriteria(grid[..|grid| - 1], c) + if g.criteria == c then [g] else []
  }

  lemma {:induction false} InOfCriteria(grid: seq<GridPoint>, c: Criteria)
    ensures forall g :: g in OfCriteria(grid, c) <==> g in grid && g.criteria == c
  {
    if grid != [] {
      var n := |grid| - 1;
      InOfCriteria(grid[..n], c);
      assert grid == grid[..n] + [grid[n]];
    }
  }

  /** Chunk `i` is the list of the points of criteria `crits[i]`, in grid order; the criteria
      are distinct and all there are. */
  ghost predicate Chunked(chunks: seq<seq<GridPoint>>, crits: seq<Criteria>, grid: seq<GridPoint>) {
    && |chunks| == |crits| && Distinct(crits)
    && (forall i :: 0 <= i < |chunks| ==> chunks[i] == OfCriteria(grid, crits[i]))
    && (forall g :: g in grid ==> g.criteria in crits)
  }

  ghost function ChunkRequests(meaning: GridPoint -> Carry, chunks: seq<seq<GridPoint>>): nat {
    if chunks == [] then 0
    else ChunkRequests(meaning, chunks[..|chunks| - 1]) + TotalRequests(meaning, chunks[|chunks| - 1])
  }

  lemma {:induction false} ChunkGrows(meaning: GridPoint -> Carry, chunks: seq<seq<GridPoint>>, j: nat, g: GridPoint)
    requires j < |chunks|
    ensures ChunkRequests(meaning, chunks[j := chunks[j] + [g]]) == ChunkRequests(meaning, chunks) + |meaning(g).requests|
  {
    var n := |chunks| - 1;
    var after := chunks[j := chunks[j] + [g]];
    if j == n {
      assert after[..n] == chunks[..n];
      assert (chunks[j] + [g])[..|chunks[j]|] == chunks[j];
    } else {
      assert after[..n] == chunks[..n][j := chunks[j] + [g]];
      ChunkGrows(meaning, chunks[..n], j, g);
    }
  }

  lemma {:induction false} NoneOfCriteria(grid: seq<GridPoint>, c: Criteria)
    requires forall g :: g in grid ==> g.criteria != c
    ensures OfCriteria(grid, c) == []
  {
    if grid != [] {
      assert grid[|grid| - 1] in grid;
      NoneOfCriteria(grid[..|grid| - 1], c);
    }
  }

  function Index(crits: seq<Criteria>, c: Criteria): (j: nat)
    ensures j <= |crits| && (j < |crits| ==> crits[j] == c) && (j == |crits| ==> c !in crits)
  {
    if crits == [] then 0
    else if crits[0] == c then 0
    else 1 + Index(crits[1..], c)
  }

  lemma OfCriteriaStep(grid: seq<GridPoint>, i: nat, c: Criteria)
    requires i < |grid|
    ensures OfCriteria(grid[..i + 1], c) == OfCriteria(grid[..i], c) + if grid[i].criteria == c then [grid[i]] else []
  {
    assert grid[..i + 1][..i] == grid[..i];
  }

  /** The criteria has a chunk: the point goes to its end. */
  lemma ChunkedExisting(chunks: seq<seq<GridPoint>>, crits: seq<Criteria>, grid: seq<GridPoint>, i: nat, j: nat)
    requires i < |grid| && Chunked(chunks, crits, grid[..i]) && j < |crits| && crits[j] == grid[i].criteria
    ensures Chunked(chunks[j := chunks[j] + [grid[i]]], crits, grid[..i + 1])
  {
    var after := chunks[j := chunks[j] + [grid[i]]];
    assert grid[..i + 1] == grid[..i] + [grid[i]];
    forall k | 0 <= k < |crits| ensures after[k] == OfCriteria(grid[..i + 1], crits[k]) {
      OfCriteriaStep(grid, i, crits[k]);
    }
  }

  /** A new criteria opens a new chunk. */
  lemma ChunkedNew(chunks: seq<seq<GridPoint>>, crits: seq<Criteria>, grid: seq<GridPoint>, i: nat)
    requires i < |grid| && Chunked(chunks, crits, grid[..i]) && grid[i].criteria !in crits
    ensures Chunked(chunks + [[grid[i]]], crits + [grid[i].criteria], grid[..i + 1])
  {
    var after, crits' := chunks + [[grid[i]]], crits + [grid[i].criteria];
    assert grid[..i + 1] == grid[..i] + [grid[i]];
    NoneOfCriteria(grid[..i], grid[i].criteria);
    forall k | 0 <= k < |crits'| ensures after[k] == OfCriteria(grid[..i + 1], crits'[k]) {
      OfCriteriaStep(grid, i, crits'[k]);
    }
  }

  lemma NewChunkRequests(meaning: GridPoint -> Carry, chunks: seq<seq<GridPoint>>, g: GridPoint)
    ensures ChunkRequests(meaning, chunks + [[g]]) == ChunkRequests(meaning, chunks) + |meaning(g).requests|
  {
    assert (chunks + [[g]])[..|chunks|] == chunks;
    assert TotalRequests(meaning, [g]) == |meaning(g).requests|;
  }

  lemma TotalStep(meaning: GridPoint -> Carry, grid: seq<GridPoint>, i: nat)
    requires i < |grid|
    ensures TotalRequests(meaning, grid[..i + 1]) == TotalRequests(meaning, grid[..i]) + |meaning(grid[i]).requests|
  {
    assert grid[..i + 1][..i] == grid[..i];
  }

  method PartitionByCriteria(grid: seq<GridPoint>, ghost meaning: GridPoint -> Carry)
    returns (chunks: seq<seq<GridPoint>>, crits: seq<Criteria>)
    ensures Chunked(chunks, crits, grid)
    ensures ChunkRequests(meaning, chunks) == TotalRequests(meaning, grid)
  {
    chunks, crits := [], [];
    for i := 0 to |grid|
      invariant Chunked(chunks, crits, grid[..i])
      invariant ChunkRequests(meaning, chunks) == TotalRequests(meaning, grid[..i])
    {
      var g := grid[i];
      var j := Index(crits, g.criteria);
      TotalStep(meaning, grid, i);
      if j < |crits| {
        ChunkedExisting(chunks, crits, grid, i, j);
        ChunkGrows(meaning, chunks, j, g);
        chunks := chunks[j := chunks[j] + [g]];
      } else {
        ChunkedNew(chunks, crits, grid, i);
        NewChunkRequests(meaning, chunks, g);
        chunks, crits := chunks + [[g]], crits + [g.criteria];
      }
    }
    assert grid[..|grid|] == grid;
  }

  // ---------- process pool: private caches per chunk ----------

  lemma SubsetKeys(grid: seq<GridPoint>, gps: seq<GridPoint>, keyOf: GridPoint -> string)
    requires KeysDetermine(grid, keyOf) && forall g :: g in gps ==> g in grid
    ensures KeysDetermine(gps, keyOf)
  {
  }

  lemma HoldsMerge(a: map<string, Result>, b: map<string, Result>, keyOf: GridPoint -> string, meaning: GridPoint -> Carry, xs: seq<GridPoint>, ys: seq<GridPoint>)
    requires Holds(a, keyOf, meaning, xs) && Holds(b, keyOf, meaning, ys) && KeysDetermine(xs + ys, keyOf)
    ensures Holds(a + b, keyOf, meaning, xs + ys)
  {
    forall g | g in xs + ys ensures keyOf(g) in a + b && (a + b)[keyOf(g)] == Report(meaning(g)) {
      if keyOf(g) in b {
        var h :| h in ys && keyOf(g) == keyOf(h);
        assert h in xs + ys;
      }
    }
  }

  /** One worker: fresh private caches for one chunk. */
  method RunChunk(e: World, p: Params, ss: seq<Row>, cutoffs: seq<int>, keyOf: GridPoint -> string, chunk: seq<GridPoint>)
    returns (results: map<string, Result>, calls: nat, lookups: nat)
    requires ValidWorld(e) && OrderFree(e) && KeysDetermine(chunk, keyOf)
    ensures Holds(results, keyOf, Meaning(e, p, ss, cutoffs), chunk)
    ensures calls == |AllRequests(Meaning(e, p, ss, cutoffs), chunk)|
    ensures lookups == TotalRequests(Meaning(e, p, ss, cutoffs), chunk)
  {
    var uniqueness := new Memo<UniquenessKey, seq<real>>();
    var score := new Memo<ScoreKey, WalletScores>();
    var deflation := new Memo<DeflationKey, WalletScores>();
    var runner := new Memo<Request, seq<PnlRow>>();
    results := RunAll(e, p, ss, cutoffs, keyOf, chunk, Caches(uniqueness, score, deflation, runner));
    calls, lookups := runner.calls, runner.lookups;
    assert runner.table.Keys == AllRequests(Meaning(e, p, ss, cutoffs), chunk);
  }

  ghost function Concat(chunks: seq<seq<GridPoint>>): seq<GridPoint> {
    if chunks == [] then [] else Concat(chunks[..|chunks| - 1]) + chunks[|chunks| - 1]
  }

  lemma {:induction false} InConcat(chunks: seq<seq<GridPoint>>)
    ensures forall g :: g in Concat(chunks) <==> exists i :: 0 <= i < |chunks| && g in chunks[i]
  {
    if chunks != [] {
      var n := |chunks| - 1;
      InConcat(chunks[..n]);
      forall g ensures g in Concat(chunks) <==> exists i :: 0 <= i < |chunks| && g in chunks[i] {
        if g in Concat(chunks[..n]) {
          var i :| 0 <= i < n && g in chunks[..n][i];
          assert g in chunks[i];
        }
        if i :| 0 <= i < |chunks| && g in chunks[i] {
          if i < n { assert g in chunks[..n][i]; }
        }
      }
    }
  }

  lemma ConcatMembers(chunks: seq<seq<GridPoint>>, crits: seq<Criteria>, grid: seq<GridPoint>)
    requires Chunked(chunks, crits, grid)
    ensures forall g :: g in Concat(chunks) <==> g in grid
    ensures forall i, g :: 0 <= i < |chunks| && g in chunks[i] ==> g in grid
  {
    InConcat(chunks);
    forall i | 0 <= i < |chunks| ensures forall g :: g in chunks[i] <==> g in grid && g.criteria == crits[i] {
      InOfCriteria(grid, crits[i]);
    }
    forall g | g in grid ensures g in Concat(chunks) {
      var i :| 0 <= i < |crits| && crits[i] == g.criteria;
      assert g in chunks[i];
    }
  }

  lemma {:induction false} ConcatRequests(meaning: GridPoint -> Carry, xs: seq<GridPoint>, ys: seq<GridPoint>)
    ensures AllRequests(meaning, xs + ys) == AllRequests(meaning, xs) + AllRequests(meaning, ys)
  {
    if ys == [] {
      assert xs + ys == xs;
    } else {
      assert (xs + ys)[..|xs + ys| - 1] == xs + ys[..|ys| - 1];
      ConcatRequests(meaning, xs, ys[..|ys| - 1]);
    }
  }

  lemma CardUnion(a: set<Request>, b: set<Request>)
    ensures |a + b| <= |a| + |b|
  {
    assert a + b == a + (b - a);
    assert |b - a| <= |b| by { assert b == (b - a) + (b * a); }
  }

  /** What the merged results and summed statistics of some chunks hold. */
  ghost predicate Merged(results: map<string, Result>, calls: nat, lookups: nat, keyOf: GridPoint -> string,
                         meaning: GridPoint -> Carry, chunks: seq<seq<GridPoint>>)
  {
    && Holds(results, keyOf, meaning, Concat(chunks))
    && lookups == ChunkRequests(meaning, chunks)
    && calls >= |AllRequests(meaning, Concat(chunks))|
  }

  lemma MergeStep(results: map<string, Result>, calls: nat, lookups: nat, keyOf: GridPoint -> string,
                  meaning: GridPoint -> Carry, chunks: seq<seq<GridPoint>>, chunk: seq<GridPoint>,
                  res: map<string, Result>, c: nat, l: nat)
    requires Merged(results, calls, lookups, keyOf, meaning, chunks) && KeysDetermine(Concat(chunks) + chunk, keyOf)
    requires Holds(res, keyOf, meaning, chunk)
    requires c == |AllRequests(meaning, chunk)| && l == TotalRequests(meaning, chunk)
    ensures Merged(results + res, calls + c, lookups + l, keyOf, meaning, chunks + [chunk])
  {
    assert (chunks + [chunk])[..|chunks|] == chunks;
    HoldsMerge(results, res, keyOf, meaning, Concat(chunks), chunk);
    ConcatRequests(meaning, Concat(chunks), chunk);
    CardUnion(AllRequests(meaning, Concat(chunks)), AllRequests(meaning, chunk));
  }

  lemma SameRequests(meaning: GridPoint -> Carry, xs: seq<GridPoint>, ys: seq<GridPoint>)
    requires forall g :: g in xs <==> g in ys
    ensures AllRequests(meaning, xs) == AllRequests(meaning, ys)
  {
    forall q ensures q in AllRequests(meaning, xs) <==> q in AllRequests(meaning, ys) {
      InAllRequests(meaning, xs, q);
      InAllRequests(meaning, ys, q);
    }
  }

  lemma HoldsSame(results: map<string, Result>, keyOf: GridPoint -> string, meaning: GridPoint -> Carry,
                  xs: seq<GridPoint>, ys: seq<GridPoint>)
    requires Holds(results, keyOf, meaning, xs) && forall g :: g in xs <==> g in ys
    ensures Holds(results, keyOf, meaning, ys)
  {
  }

  lemma AllMerged(results: map<string, Result>, calls: nat, lookups: nat, keyOf: GridPoint -> string,
                  meaning: GridPoint -> Carry, chunks: seq<seq<GridPoint>>, grid: seq<GridPoint>)
    requires Merged(results, calls, lookups, keyOf, meaning, chunks) && forall g :: g in Concat(chunks) <==> g in grid
    ensures Holds(results, keyOf, meaning, grid) && calls >= |AllRequests(meaning, grid)|
  {
    HoldsSame(results, keyOf, meaning, Concat(chunks), grid);
    SameRequests(meaning, Concat(chunks), grid);
  }

  /** The keys of the points run so far, and of one more chunk, determine the points. */
  lemma PrefixKeys(chunks: seq<seq<GridPoint>>, i: nat, grid: seq<GridPoint>, keyOf: GridPoint -> string)
    requires i < |chunks| && KeysDetermine(grid, keyOf)
    requires forall k, g :: 0 <= k < |chunks| && g in chunks[k] ==> g in grid
    ensures KeysDetermine(chunks[i], keyOf) && KeysDetermine(Concat(chunks[..i]) + chunks[i], keyOf)
  {
    InConcat(chunks[..i]);
    SubsetKeys(grid, chunks[i], keyOf);
    SubsetKeys(grid, Concat(chunks[..i]) + chunks[i], keyOf);
  }

  /** All chunks, each with its own caches; the memo statistics are summed. */
  method RunProcess(e: World, p: Params, ss: seq<Row>, cutoffs: seq<int>, keyOf: GridPoint -> string, grid: seq<GridPoint>)
    returns (results: map<string, Result>, calls: nat, lookups: nat)
    requires ValidWorld(e) && OrderFree(e) && KeysDetermine(grid, keyOf)
    ensures Holds(results, keyOf, Meaning(e, p, ss, cutoffs), grid)
    ensures lookups == TotalRequests(Meaning(e, p, ss, cutoffs), grid)
    ensures calls >= |AllRequests(Meaning(e, p, ss, cutoffs), grid)|
  {
    ghost var meaning := Meaning(e, p, ss, cutoffs);
    var chunks, crits := PartitionByCriteria(grid, meaning);
    ConcatMembers(chunks, crits, grid);
    results, calls, lookups := map[], 0, 0;
    for i := 0 to |chunks|
      invariant Merged(results, calls, lookups, keyOf, meaning, chunks[..i])
    {
      PrefixKeys(chunks, i, grid, keyOf);
      var res, c, l := RunChunk(e, p, ss, cutoffs, keyOf, chunks[i]);
      MergeStep(results, calls, lookups, keyOf, meaning, chunks[..i], chunks[i], res, c, l);
      assert chunks[..i + 1] == chunks[..i] + [chunks[i]];
      results, calls, lookups := results + res, calls + c, lookups + l;
    }
    assert chunks[..|chunks|] == chunks;
    AllMerged(results, calls, lookups, keyOf, meaning, chunks, grid);
  }
}
