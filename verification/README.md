# Verified model of the wallet-ranking harness

A Dafny model of the exact, discrete core of the ranking scripts: the bake-off that chooses which
wallets to follow, the statistics it rests on, the two extraction engines, the staging of a rank
cycle, and a few small codecs. Numbers are exact reals; whatever the source takes from elsewhere
(estimator scores, the deflation gate, the backtest, the demotion bound, the online selector,
price parsing, regular expressions) is a parameter, and the theorems hold for every choice of it.

`dafny verify dfyconfig.toml` checks the whole project.

| files | what they model |
|---|---|
| `SingleFlight` | the single-flight cache as a state machine: every caller is a program counter, one action is one region under the lock or one access outside it |
| `Pool`, `Threads` | workers over that cache in every interleaving; the trajectories of a grid as such workers over the four shared caches |
| `Policies`, `Displacement` | the set-transition policies: knockout with backfill, greedy displacement |
| `Trajectory`, `WalkForward` | one walk-forward run as a function of its cutoffs, and what whole runs guarantee |
| `PeriodLaws`, `PolicyLaws` | what each period of a run counts and earns, and whom each policy follows, in rows, ranks and weights |
| `Sweep`, `Executors`, `ReturnMatrix` | the same run with mutable caches and policy objects, lists of runs and process workers, and the matrix under the serial, thread and process executors |
| `Uniqueness`, `UniquenessFrame`, `UniquenessKernel`, `UniquenessReference`, `UniquenessPaths`, `AverageUniqueness` | label-uniqueness weights: the per-wallet arithmetic, the frame, the array kernel, the reference arithmetic, the two paths, and what a weight is |
| `Concurrency`, `Sorting`, `TieRanks` | entry concurrency by two binary searches, tie-averaged ranks |
| `FirstBuy`, `EngineParity`, `Qualification`, `Text` | the first buy per wallet and market in the row scan and in the hash aggregate, and which become positions |
| `CycleTargets`, `CycleLaws` | the choice of a cycle's activity generation, the refresh loop around it, and the condition of every answer and error |
| `SqlMask`, `SqlTokens`, `SqlCheck` | the masking lexer, the grammar behind it, and the unfiltered-statement check |
| `Framing`, `FrameReader` | the WebSocket framing of sections 5.2 to 5.5 of RFC 6455 |
| `DecayStats`, `DecayLaws` | reliability-weighted statistics and the day-clustered t, and the same as sums over pairs |
| `RoundTrips`, `HoldoutPnl`, `HoldoutLaws`, `HoldoutSeries` | pairing of fills, P&L decomposition, what its parts mean, daily series and drawdown |
| `Basics`, `Sums` | optional values, distinctness; sums of sequences |

The form follows the source. Loops over mutable state are methods with invariants, objects with
fields (`Sweep.Memo`, `Sweep.FollowPolicy`) are classes, in-place kernels keep their arrays, and each of
them is proved against a function about which the laws are proved; expressions are functions. The
cache's concurrency is a state machine over all interleavings (`SingleFlight`), run by the threads
themselves in `Pool` and `Threads`; `Sweep.Memo` is the cache as a single thread meets it, which
`SingleFlight.SoloCall` justifies.

## Where the code and its documentation differ

The model follows the code.

- `scripts/ranker/policies.py:92-94` says that live P&L holds rows past the cutoff. For cutoffs that
  ascend and pass the spacing guard it never does (`WalkForward.LiveIsClosed`).
- `scripts/ranker/bakeoff.py:1661-1664` describes a guard on consecutive cutoffs. It sorts them first,
  so it accepts any order; `WalkForward.ClosedExactlyWhen` gives what it does and does not ensure.
- The docstring at `scripts/ranker/bakeoff.py:855-857` calls the final set the last non-empty one. It alone
  is out of date: the comment at lines 863-867 has it empty when the last cutoff had no signal, and so
  does the code (`WalkForward.Restart`).
- `scripts/ranker/policies.py:47-49` says that proven losers are evicted. One that still ranks can be
  taken back at once (`Policies.KnockoutMember`, `Policies.DemotedReadmitted`).
- `scripts/ranker/suff_stats.py:283-284` defines the column as a live count of at least 1. That holds
  exactly where no label is inverted around the instant (`Concurrency.StartedCounts`).
- `scripts/holdout_baseline.py:323` promises the largest drop. Below two days it is exact only if the
  single day did not lose (`HoldoutSeries.ShortSeries`).

## Model

| member | source | states |
|---|---|---|
| `SingleFlight.StepKeepsInv` | scripts/ranker/bakeoff.py:497-532 | every atomic action of any caller, in any reachable or invariant state, keeps the protocol invariant: one live owner per in-flight record, events set exactly when their owner is done, cached keys stored by exactly one owner, counters exact |
| `SingleFlight.ReachableInv` | scripts/ranker/bakeoff.py:497-532 | the invariant holds after every interleaving of any number of callers and any factory outcomes |
| `SingleFlight.SafeInEveryRun` | scripts/ranker/bakeoff.py:497-532 | in every interleaving at most one caller is computing a key, each key's factory succeeds at most once, `calls` is the number of cached keys, `lookups` the number of calls entered, and every normal return is the stored value of its key |
| `SingleFlight.CacheOnlyGrows` | scripts/ranker/bakeoff.py:527-532 | a stored value is never replaced or dropped, however a run goes on |
| `SingleFlight.NoLostWakeup` | scripts/ranker/bakeoff.py:507-531 | a waiter on an unset event has a live, unblocked owner of that very record; the generic "owner failed" error is unreachable |
| `SingleFlight.RunKeepsNewest` | scripts/ranker/bakeoff.py:504-530 | in every run the registered record of a key, or the one whose owner stored it, is the newest record of that key |
| `SingleFlight.WaiterOutcome` | scripts/ranker/bakeoff.py:507-526 | a failed waiter raises its own owner's exception; a waiter that returns although its owner failed got the value of the owner of a later record |
| `SingleFlight.HitReturns` | scripts/ranker/bakeoff.py:498-501 | a call whose key is cached when it enters has the stored value, however the run goes on |
| `SingleFlight.CachedWaiterReturns` | scripts/ranker/bakeoff.py:507-511 | the cache is looked at before the owner's exception: a waiter whose key is cached by the time it re-checks can only end with that value, whatever became of its own owner |
| `SingleFlight.MissedWaiterRaises` | scripts/ranker/bakeoff.py:512-518 | a waiter that found nothing can only raise its own owner's exception, even if the key is stored in the meantime |
| `SingleFlight.OwnerOutcome` | scripts/ranker/bakeoff.py:519-532 | an owner ends with exactly what its factory did, value or exception |
| `SingleFlight.NeverStuck` | scripts/ranker/bakeoff.py:507-532 | an unfinished call can move or waits for an owner that can |
| `SingleFlight.EveryCallFinishes` | scripts/ranker/bakeoff.py:497-532 | without new entries a run takes at most four actions per caller, by a decreasing measure, and a run that can go no further has finished every call |
| `SingleFlight.RunKeepsPure` | scripts/ranker/bakeoff.py:479-488 | with a factory that is a pure function of the key, cache, records and all call outcomes stay values of that function in every run |
| `SingleFlight.SameAsUncached` | scripts/ranker/bakeoff.py:479-488 | with a pure factory every finished call, in every interleaving, has the outcome of a private uncached computation, exceptions included |
| `SingleFlight.RunCounts` | scripts/ranker/bakeoff.py:498-500 | `lookups` and the number of calls grow by exactly the entries of the run |
| `SingleFlight.SoloCall` | scripts/ranker/bakeoff.py:497-532 | when every earlier call is done, one caller run alone through the protocol is a plain memo lookup: the stored value, or the factory's value now stored, with one more lookup and an exact `calls` |
| `Pool.PlayKeepsPool` | scripts/ranker/bakeoff.py:497-532 | any number of workers that run over one single-flight cache, in every interleaving: each worker is always where it would be alone with the pure values, and the protocol invariant holds |
| `Pool.PlayKeepsEntries` | scripts/ranker/bakeoff.py:527-532 | between any two moments of a run no cached entry is lost or replaced, and every entry is the pure value of its key |
| `Pool.PoolOutcome` | scripts/ranker/bakeoff.py:479-532 | when the workers have stopped, each is in the end state of its private run, and the calls entered on any kind of key are exactly those of the private runs |
| `Pool.PoolCache` | scripts/ranker/bakeoff.py:479-532 | then the cache holds a key if and only if it was there before or some private run asks for it; no factory succeeded twice on a key; `calls` and `lookups` are exact |
| `Pool.NeverDeadlocks` | scripts/ranker/bakeoff.py:507-532 | while some worker has not stopped, some worker can move |
| `Pool.PoolEnds` | scripts/ranker/bakeoff.py:507-532 | if each worker stops on its own, every interleaving is bounded in length |
| `Pool.PlaysToTheEnd` | scripts/ranker/bakeoff.py:507-532 | and from every reachable state some interleaving ends with all workers stopped |
| `Policies.KnockoutStep` | scripts/ranker/policies.py:57-66 | the backfill loop with its early exit returns the incumbents outside the demoted set followed by the best-ranked others, cut to k |
| `Policies.KnockoutMember` | scripts/ranker/policies.py:59-66 | a non-survivor, demoted or not, is admitted if and only if the survivors and the better-ranked non-survivors leave a slot |
| `Policies.KnockoutShape` | scripts/ranker/policies.py:59-66 | no duplicates, at most k, survivors first in their order, nobody from outside, and no slot left empty while a wallet is available |
| `Policies.KnockoutBestFirst` | scripts/ranker/policies.py:61-65 | no admitted outsider ranks behind one left out |
| `Policies.KnockoutOrder` | scripts/ranker/policies.py:61-66 | the admitted outsiders follow the survivors, best rank first |
| `Policies.DemotedReadmitted` | scripts/ranker/policies.py:59-65 | a demoted wallet that still ranks is taken back by the backfill: the concrete case |
| `Displacement.FindTarget` | scripts/ranker/policies.py:107-114 | the inner loop finds the first worst-ranked unproven member, with its rank |
| `Displacement.TargetIsWorst` | scripts/ranker/policies.py:107-114 | that member is unproven and no unproven member ranks behind it; there is none exactly when every member is proven |
| `Displacement.TargetIsFirst` | scripts/ranker/policies.py:107-114 | of several equally bad members the first is displaced |
| `Displacement.DisplaceLoop` | scripts/ranker/policies.py:103-116 | the loop over the challengers computes the fold of single displacements |
| `Displacement.HybridStep` | scripts/ranker/policies.py:86-117 | the whole step: knockout and backfill, displacement, cut to k; with a settling margin nobody left out beats an unproven member of the result |
| `Displacement.KeepsSizeAndProven` | scripts/ranker/policies.py:103-117 | the pass keeps the set's size, its distinctness and every proven member |
| `Displacement.HybridStable` | scripts/ranker/policies.py:103-116 | the result is stable: no fresh wallet left out beats any unproven member by more than the margin, so a second pass changes nothing |
| `Displacement.StepIsStable` | scripts/ranker/policies.py:86-117 | for the whole step the final cut removes nobody, the result is stable, as large as after the backfill, and keeps every proven member of the backfilled set |
| `Displacement.PassShape` | scripts/ranker/policies.py:103-116 | the result in full: survivors in their old order, then newcomers, best rank first; nobody displaced ranks ahead of an unproven member that stays |
| `Displacement.FixedExactlyWhen` | scripts/ranker/policies.py:90-116 | in the fresh ranks alone, an unranked member standing one behind the last: the pass leaves a set unchanged if and only if no fresh wallet outside beats an unproven member |
| `Displacement.UnrankedMember` | scripts/ranker/policies.py:90-116 | an unproven member that no longer ranks survives the step only if every fresh wallet left out stands within the margin of the place behind the last; never at margin 0 |
| `Displacement.UnstableBelowMinusOne` | scripts/ranker/policies.py:115 | for every margin below minus one the end state of a two-wallet instance is not stable |
| `Displacement.StableExactlyWhen` | scripts/ranker/policies.py:103-116 | with distinct ranks, every run ends stable if and only if the margin is at least minus one |
| `Displacement.SwapLowersRank` | scripts/ranker/policies.py:115-116 | one swap lowers the set's total rank by more than the margin |
| `Displacement.SwapsLowerRank` | scripts/ranker/policies.py:103-116 | a pass with n swaps lowers the total rank by at least n times (margin + 1) |
| `Trajectory.SharedEntry` | scripts/ranker/bakeoff.py:571-572 | two backtest requests have the same memo key if and only if they follow the same wallets in any order, at the same cutoff, with the same filter band if the filter is on |
| `Trajectory.ChurnAxisShares` | scripts/ranker/bakeoff.py:541-545 | configs that differ only in the churn cost follow the same sets and make the same requests in every run; only the returns differ |
| `Trajectory.CostLowersReturns` | scripts/ranker/bakeoff.py:1000-1003 | in every run a higher churn cost raises no period's return |
| `WalkForward.SpacedIffClosed` | scripts/ranker/bakeoff.py:1661-1667 | for every horizon: every window is closed by every later cutoff if and only if the horizon is not positive or consecutive cutoffs, in run order, are a horizon apart |
| `WalkForward.AcceptedIsPairwise` | scripts/ranker/bakeoff.py:1665-1671 | for every horizon, the guard at construction accepts exactly the cutoffs that are pairwise a horizon apart |
| `WalkForward.ClosedExactlyWhen` | scripts/ranker/bakeoff.py:1660-1671 | for every horizon: the windows close in time if and only if the horizon is not positive, or the guard passes and the cutoffs ascend |
| `WalkForward.AcceptedDescending` | scripts/ranker/bakeoff.py:1665-1667 | the guard alone is not enough: descending cutoffs pass it and leave a window open |
| `WalkForward.RunAccounts` | scripts/ranker/bakeoff.py:956-1023 | in every run each period's counted rows lie in its window, and live evidence consists of counted rows that are not horizon marks |
| `WalkForward.LiveIsClosed` | scripts/ranker/policies.py:92-98 | at every cutoff of a spaced run all live evidence is closed, so the as-of filters of the demoter and of the proven count drop nothing |
| `WalkForward.CountedOnce` | scripts/ranker/bakeoff.py:1000-1003 | in a spaced run there is one list of counted rows per cutoff, and rows counted in different periods have strictly ordered period ends: no P&L row counts twice |
| `WalkForward.NoLookAhead` | scripts/ranker/bakeoff.py:956-1023 | over ascending spaced cutoffs, two histories that agree on the labels known and the P&L closed at a cutoff give the same run before it and the same choice at it |
| `WalkForward.Restart` | scripts/ranker/bakeoff.py:938-954 | a period without a signal earns 0 and the later returns are those of a run begun at the next cutoff holding nothing: from scratch for the policies that ignore live P&L; if it is the last period, the final set is empty |
| `WalkForward.DemoteSetIsTest` | scripts/ranker/demotion.py:65-82 | the one-pass demoted set is the per-wallet test, for every test that spares wallets without evidence |
| `WalkForward.HardChurn` | scripts/ranker/bakeoff.py:840-850 | between hard sets the churn is the number of newly admitted wallets |
| `WalkForward.ChurnIsNetInflow` | scripts/ranker/bakeoff.py:833-850 | for any weights, the churn of a move less the churn of its reversal is the change of the total weight |
| `WalkForward.WindowPnlByRow` | scripts/ranker/bakeoff.py:1045-1061 | the window's P&L counts every row once, at its wallet's weight |
| `PeriodLaws.StepIsPeriod` | scripts/ranker/bakeoff.py:956-1023 | every step of every run: one backtest of exactly the followed wallets over the period, its rows inside the window counted with their multiplicities, the settled ones collected as live evidence, and the P&L at the followed weights earned net of the charge; or nothing at all |
| `PeriodLaws.PeriodReturn` | scripts/ranker/bakeoff.py:1000-1003 | the return of every period of every run, plus the churn cost times the churn from the set held before, is the P&L of the rows counted in it at the weights followed in it |
| `PeriodLaws.HardPeriodReturn` | scripts/ranker/bakeoff.py:1000-1003 | for the hard-set policies, in every period: what the counted rows of the followed wallets made, less the cost of each wallet newly admitted |
| `PeriodLaws.FollowedOnce` | scripts/ranker/policies.py:57-117 | no run ever follows a wallet twice |
| `PolicyLaws.EligibleExactly` | scripts/ranker/bakeoff.py:224-245 | a wallet is eligible if and only if it has a label in the criteria band, entered in the training window and resolved, at least the minimum number of them, and a recent one if the gate is on |
| `PolicyLaws.RanksReadOnly` | scripts/ranker/bakeoff.py:956-977 | the ranks of a cutoff depend on the estimator and the gate only through what is asked of them: these in-sample rows, eligible wallets and weights, and as many trials as wallets scored; there are none if and only if nobody is eligible |
| `PolicyLaws.ProvenByRows` | scripts/ranker/policies.py:92-101 | a member is proven if and only if it has the minimum number of live rows closed by the cutoff |
| `PolicyLaws.DemotedByRows` | scripts/ranker/demotion.py:65-82 | a wallet is demoted if and only if the bound condemns its own closed rows, in order |
| `PolicyLaws.RerankFollowsBest` | scripts/ranker/policies.py:40-43 | at every cutoff of every run the full re-rank follows the k best survivors of the gates, best first |
| `PolicyLaws.KnockoutFollows` | scripts/ranker/policies.py:55-66 | at every cutoff knockout and backfill keeps every member the bound spares, fills the free slots with the best-ranked others, and leaves none empty while somebody is available |
| `PolicyLaws.HybridFollows` | scripts/ranker/policies.py:86-117 | at every cutoff displacement keeps every proven spared member, leaves no slot empty while somebody is available, and leaves nobody out who beats a member that is not proven |
| `PolicyLaws.OnlineFollows` | scripts/ranker/policies.py:132-135 | the online policy follows its selector, whose state is carried from signal to signal and reset by a period without one |
| `PolicyLaws.ReportsLast` | scripts/ranker/bakeoff.py:1021-1023 | the reported final set and scores are those of the last cutoff, or nothing |
| `PolicyLaws.ChurnByWallet` | scripts/ranker/bakeoff.py:833-850 | the churn is the sum, over the wallets on either side and in any order, of the increases of their weights |
| `Sweep.Memo.GetOrCompute` | scripts/ranker/bakeoff.py:497-532 | one thread's lookup returns the pure value of its key, stores exactly that key and counts one lookup: the effect `SingleFlight.SoloCall` proves of the protocol |
| `Sweep.UniquenessCached` | scripts/ranker/bakeoff.py:612-633 | with no cache or any correct one, the weights are those of the in-sample frame, and the cache stays correct |
| `Sweep.ScoreCached` | scripts/ranker/bakeoff.py:636-659 | the same for the estimator scores, although the weights are not in the key |
| `Sweep.DeflationCached` | scripts/ranker/bakeoff.py:662-681 | the same for the deflation gate, bypassed for no deflation |
| `Sweep.ScoresAt` | scripts/ranker/bakeoff.py:956-977 | the memoised scoring of a cutoff equals the uncached one |
| `Sweep.FollowPolicy.Choose` | scripts/ranker/policies.py:40-135 | the stateful policy object computes the policy step and carries exactly the online state |
| `Sweep.RunBacktest` | scripts/ranker/bakeoff.py:562-577 | the memo keyed by sorted wallets answers with the backtest of the list as given, when the backtest ignores the order |
| `Sweep.RunTrajectory` | scripts/ranker/bakeoff.py:892-1043 | the loop over mutable locals, caches and policy objects returns the pure run's returns and final set, and the runner answers exactly that run's requests; what that run earns and follows is stated by the period and policy laws |
| `Executors.RunAll` | scripts/ranker/bakeoff.py:1098-1108 | a list of points against one set of caches: every result is its pure run, and the runner's keys and lookups grow by exactly the requests made |
| `Executors.PartitionByCriteria` | scripts/ranker/bakeoff.py:1112-1121 | chunks are the points of one criteria each, in grid order, all points covered, request totals conserved |
| `Executors.RunChunk` | scripts/ranker/bakeoff.py:1089-1109 | one worker with private caches: its calls are the distinct requests of its chunk and its lookups all of them |
| `Executors.RunProcess` | scripts/ranker/bakeoff.py:1124-1153 | the merged chunk results are the pure runs; total lookups equal the serial ones and calls are at least the distinct requests |
| `Threads.OwnRun` | scripts/ranker/bakeoff.py:892-1043 | a trajectory as a program over the four shared caches, run alone, ends in the pure run and asks for exactly its backtests, in order |
| `Threads.FactoriesArePure` | scripts/ranker/bakeoff.py:612-681 | in every interleaving the factory a thread would compute, from its own state and with its own wallet order, is the pure value of the key it is looking up: the keys leave out nothing that matters |
| `Threads.ThreadsEnd` | scripts/ranker/bakeoff.py:1316-1322 | in every complete interleaving of any grid's threads, from any correct caches, every trajectory ends as its pure run |
| `Threads.ThreadsCount` | scripts/ranker/bakeoff.py:479-532 | and the runner counts all requests as lookups and stores exactly the distinct ones, each backtest run at most once |
| `ReturnMatrix.RunThreads` | scripts/ranker/bakeoff.py:1316-1322 | the results collected from a complete interleaving are the pure results of every grid point |
| `ReturnMatrix.RunTrajectories` | scripts/ranker/bakeoff.py:1278-1331 | for the serial, thread and process executors the return matrix is the serial matrix in grid order; serial and thread runs make the same number of lookups and store exactly the distinct requests, a process run makes the same lookups |
| `Uniqueness.Unique` | scripts/ranker/oos_validation.py:91 | the boundary grid is strictly increasing and holds exactly the starts and ends |
| `Uniqueness.MidpointCount` | scripts/ranker/oos_validation.py:97-106 | the number of labels live at a segment's midpoint is the number of labels covering the segment |
| `Uniqueness.BusyLength` | scripts/ranker/oos_validation.py:91-107 | the segments some label covers add up to the length of the union of the spans |
| `Uniqueness.SpanLength` | scripts/ranker/oos_validation.py:112-118 | the segments a label covers add up to its span |
| `Uniqueness.SegmentShared` | scripts/ranker/oos_validation.py:100-119 | the labels covering a segment share it out completely |
| `Uniqueness.Exchange` | scripts/ranker/oos_validation.py:111-119 | adding the shares label by label or segment by segment is the same |
| `Uniqueness.Conservation` | scripts/ranker/oos_validation.py:79-121 | for every wallet, span times un-normalised weight summed over its labels is the length of the union of the spans less the total inverted length; it is the union's length if and only if no label is inverted |
| `Uniqueness.InvertedFallsShort` | scripts/ranker/oos_validation.py:120-121 | an inverted label does make the sum fall short: the concrete case |
| `Uniqueness.WeightBounds` | scripts/ranker/oos_validation.py:111-121 | each positive-span weight lies between 1/n and 1, any other is 1 |
| `UniquenessFrame.MeanOne` | scripts/ranker/oos_validation.py:159-163 | the final weights are positive and have mean 1 |
| `AverageUniqueness.WeightIsAverage` | scripts/ranker/oos_validation.py:79-121 | a label's un-normalised weight is the average, over the instants of its span, of one over the number of the wallet's labels live at the instant: no grid, no midpoints |
| `AverageUniqueness.Proportional` | scripts/ranker/oos_validation.py:163 | the final weights are proportional to the un-normalised ones, which with their mean of 1 determines them |
| `AverageUniqueness.FinalConservation` | scripts/ranker/oos_validation.py:79-163 | conservation carried to the final weights: whatever row serves as the unit, the labels of a wallet carry together the length of the union of their spans less the inversions |
| `UniquenessFrame.PairwiseSum` | scripts/ranker/oos_validation.py:47-73 | the reduction tree (loop below 8, eight accumulators up to 128, recursive halves) is the plain sum for every length |
| `UniquenessFrame.BlockSum` | scripts/ranker/oos_validation.py:57-70 | the eight-accumulator block is the plain sum |
| `UniquenessKernel.FillConcurrency` | scripts/ranker/oos_validation.py:100-106 | the kernel fills the concurrency of every segment, at least 1 |
| `UniquenessKernel.WeighLabel` | scripts/ranker/oos_validation.py:111-121 | the buffered covered shares, summed pairwise, give the label's weight |
| `UniquenessKernel.OneInstant` | scripts/ranker/oos_validation.py:92-95 | with fewer than two boundaries every weight is 1, so the short cut is exact |
| `UniquenessKernel.GroupWeights` | scripts/ranker/oos_validation.py:85-121 | one group's iteration writes exactly that group's weights and nothing else |
| `UniquenessKernel.AllGroups` | scripts/ranker/oos_validation.py:79-121 | the flat kernel writes every group's weights |
| `UniquenessPaths.ArgsortStable` | scripts/ranker/oos_validation.py:152 | the stable argsort of the codes is an ascending permutation that keeps row order within a code |
| `UniquenessPaths.GroupBounds` | scripts/ranker/oos_validation.py:156-158 | the bounds cut the sorted codes into maximal runs |
| `UniquenessPaths.GroupIsWallet` | scripts/ranker/oos_validation.py:151-158 | each run is one wallet's rows, in row order |
| `UniquenessPaths.UniquenessWeights` | scripts/ranker/oos_validation.py:146-163 | factorise, stable sort, kernel, scatter and normalise return the weights of every frame, which mean one, proportionality and the average-uniqueness law determine |
| `UniquenessReference.WeightIsRaw` | scripts/ranker/oos_validation.py:178-189 | the reference arithmetic (segment ends, midpoints, live columns floored at 1, mask, masked sum over the span) gives every label its un-normalised weight |
| `UniquenessPaths.ReferenceWeights` | scripts/ranker/oos_validation.py:178-189 | the loop over one wallet's labels, on those vectors, computes their un-normalised weights |
| `UniquenessPaths.UniquenessWeightsReference` | scripts/ranker/oos_validation.py:166-190 | the per-wallet reference loop with its own arithmetic returns the same sequence as the fast path, for every frame |
| `Sorting.SearchIn` | scripts/ranker/suff_stats.py:297-298 | the binary search returns the split point: everything before is below, everything from it on is not |
| `Sorting.SortKeepsCounts` | scripts/ranker/suff_stats.py:293-294 | sorting keeps the number of values below every bound |
| `Concurrency.StartedCounts` | scripts/ranker/suff_stats.py:290-299 | the difference of the two searches is the number of labels live at t less the labels inverted around t; it is the live count if and only if there are none of those |
| `Concurrency.InvertedMiscounts` | scripts/ranker/suff_stats.py:290-299 | an inverted label does make the count miss a live label: the concrete case |
| `Concurrency.RowConcurrency` | scripts/ranker/suff_stats.py:280-300 | when every label ends no earlier than it starts, each row gets its wallet's live count, at least 1 |
| `Concurrency.ConcurrencyColumn` | scripts/ranker/suff_stats.py:290-300 | the in-place fill gives every row its own wallet's value |
| `FirstBuy.ValueOrder` | scripts/ranker_duck.py:623-629 | equally long lower-case hex texts compare as numbers as they compare as text |
| `FirstBuy.SliceValue` | scripts/ranker_duck.py:636-639 | a 16-digit slice fits an unsigned 64-bit integer |
| `FirstBuy.SliceOrderIsTextOrder` | scripts/ranker_duck.py:550-570 | for ids of the asserted shape, comparing the four slices as numbers is comparing the ids as text |
| `FirstBuy.FirstIsUnique` | scripts/rank_72hr_buyandhold.py:428-431 | the first buy of a wallet and market is unique |
| `EngineParity.Scan` | scripts/rank_72hr_buyandhold.py:432-442 | over rows in ascending time with ties in any order, the scan with its in-loop tie-break holds the first buy of every market seen |
| `EngineParity.ArgMinIsFirst` | scripts/ranker_duck.py:630-645 | the hash arg_min over rows in any order picks the first buy, or none if there is no buy |
| `EngineParity.SameFirstBuys` | scripts/ranker_duck.py:613-652 | both engines pick the same row for every market, and the same markets |
| `EngineParity.SameVerdict` | scripts/ranker_duck.py:653-673 | the query's joins and WHERE clause keep a first buy with the same position as the scan's filter chain |
| `EngineParity.MarketsInOrder` | scripts/rank_72hr_buyandhold.py:438-447 | the markets come in the order of their first rows |
| `Qualification.QualifiedIff` | scripts/rank_72hr_buyandhold.py:448-488 | a first buy qualifies as a position if and only if, in the parameters and tables alone, it was entered in the window, is timed by the schedule or where allowed the resolution, neither closer than the minimum nor than one second nor as far as the maximum, has a known winner and a price inside (0,1) and the band; payoff 1 if and only if its outcome won |
| `Qualification.VerdictIff` | scripts/rank_72hr_buyandhold.py:448-488 | each rejection is given if and only if its own condition holds, in the same terms |
| `Qualification.ScanAndFilter` | scripts/rank_72hr_buyandhold.py:432-489 | the scan and filter loops report exactly the qualifying first buys, in first-seen order, and every diagnostic grows by the number of markets whose first buy falls under it |
| `Qualification.ExtractReports` | scripts/ranker_duck.py:606-673 | the extract reports exactly the same positions, unless it halts; it halts if and only if an id is malformed, with the number of those |
| `EngineParity.CountedSomewhere` | scripts/rank_72hr_buyandhold.py:443-488 | each first buy is counted in exactly one diagnostic, the qualified ones being the positions |
| `EngineParity.SamePositions` | scripts/ranker_duck.py:606-673 | for every tape with unique ids the extract halts on a malformed id, and otherwise reports a position if and only if the scan does |
| `CycleTargets.Obligations` | scripts/rank_cycle_manifest.py:730-797 | holds and owed successors are found exactly: an error if and only if something is on hold, otherwise true if and only if a successor is owed |
| `CycleTargets.DutyIff` | scripts/rank_cycle_manifest.py:764-787 | the receipt rules in order: a receipt is open unless not excluded or infra-marked, excused if unrepresentable up to version 3, mendable if deferred or a sealed version 3 or 4 failure, and on hold if and only if open and neither |
| `CycleTargets.WalkChain` | scripts/rank_cycle_manifest.py:871-880 | the while loop down the archived predecessors is the recursive walk, and ends by the generation's distance to the initial one |
| `CycleTargets.CandidateTargets` | scripts/rank_cycle_manifest.py:860-911 | every answer and every error of the call, in the order of the checks |
| `CycleTargets.AcceptedHeadIsChained` | scripts/rank_cycle_manifest.py:867-882 | an accepted head tops an unbroken chain of completed, digest-matching predecessors down to the initial generation on the cycle's own base |
| `CycleTargets.MembershipIffChain` | scripts/rank_cycle_manifest.py:867-882 | membership holds if and only if such a chain exists |
| `CycleLaws.WalkFailsIff` | scripts/rank_cycle_manifest.py:871-880 | the walk fails with an error if and only if the links are sound down to one with that very fault |
| `CycleLaws.SelectsIff` | scripts/rank_cycle_manifest.py:860-911 | the call answers with a generation if and only if that generation's condition holds, case by case |
| `CycleLaws.FailsIff` | scripts/rank_cycle_manifest.py:860-911 | and fails with an error if and only if that error's condition holds |
| `CycleLaws.PayoutDoneIff` | scripts/rank_cycle_manifest.py:842-849 | the payout flag of every answer |
| `CycleTargets.RefreshClimbs` | scripts/rank_and_push.sh:1089-1103 | along every collect-then-ask run the target never falls and climbs by one per collection |
| `CycleTargets.RefreshStops` | scripts/rank_and_push.sh:1097-1103 | when the loop stops, the head is complete, chained, owes nothing, is not version 4 and is within the staleness bound |
| `SqlMask.Overwrite` | scripts/check_sql_unfiltered_dml.py:55-103 | one step overwrites exactly the characters it consumes |
| `SqlMask.MaskInPlace` | scripts/check_sql_unfiltered_dml.py:49-104 | the loop over the character buffer leaves the masked text in it |
| `SqlMask.MaskCommentsAndLiterals` | scripts/check_sql_unfiltered_dml.py:49-104 | the in-place loop computes the masked text |
| `SqlMask.MaskPointwise` | scripts/check_sql_unfiltered_dml.py:49-104 | masking keeps the length, every newline and every code character, and blanks everything else |
| `SqlMask.MaskIsClean` | scripts/check_sql_unfiltered_dml.py:49-104 | no quote and no comment opener is left, from any starting state |
| `SqlMask.MaskIdempotent` | scripts/check_sql_unfiltered_dml.py:49-104 | masking twice is masking once |
| `SqlMask.Resume` | scripts/check_sql_unfiltered_dml.py:55-103 | from any state, masking resumes at any cut that does not split a two-character token |
| `SqlMask.OnlyStarsStraddle` | scripts/check_sql_unfiltered_dml.py:79-103 | inside a comment or literal the only token a cut can split is a block comment's closing mark: never one in a literal, a quoted identifier or a line comment |
| `SqlMask.EditInside` | scripts/check_sql_unfiltered_dml.py:79-103 | any two texts that stay inside the comment or literal, doubled delimiters included, and have their newlines at the same places give the same masked text |
| `SqlMask.StaysIsInside` | scripts/check_sql_unfiltered_dml.py:79-103 | in a literal, an identifier or a line comment it is enough that the text itself does not end it, whatever stands around |
| `SqlMask.DoubledDelimiter` | scripts/check_sql_unfiltered_dml.py:93-97 | replacing a doubled delimiter by two other characters does not change the masked text |
| `SqlMask.BlockText` | scripts/check_sql_unfiltered_dml.py:84-91 | a text stays inside a block comment if and only if it holds no closing mark |
| `SqlMask.LineText` | scripts/check_sql_unfiltered_dml.py:79-83 | a text stays inside a line comment if and only if it holds no newline |
| `SqlTokens.MaskOfTokens` | scripts/check_sql_unfiltered_dml.py:49-104 | for every sequence of code characters, comments and quoted stretches, their quotes doubled, the mask keeps the code characters and blanks the rest |
| `SqlTokens.EveryTextIsTokens` | scripts/check_sql_unfiltered_dml.py:49-104 | and every text is such a sequence, with at most its last token left open |
| `SqlCheck.ClampedIsNet` | scripts/check_sql_unfiltered_dml.py:124-130 | the clamped depth is the true nesting above the lowest point reached |
| `SqlCheck.HasTargetPredicate` | scripts/check_sql_unfiltered_dml.py:121-133 | true if and only if some WHERE stands at clamped depth 0 |
| `SqlCheck.PredicateIsTopLevel` | scripts/check_sql_unfiltered_dml.py:121-133 | depth 0 means the outermost level reached so far; where no prefix closes more than it opened, nesting depth 0 |
| `SqlCheck.Violations` | scripts/check_sql_unfiltered_dml.py:107-118 | the loop reports exactly the unfiltered matches, in order, with their lines |
| `SqlCheck.LineIsSourceLine` | scripts/check_sql_unfiltered_dml.py:116 | a reported line is the true line of the source text |
| `SqlCheck.ReportIff` | scripts/check_sql_unfiltered_dml.py:107-118 | a finding is reported if and only if a match's statement, up to its first semicolon, has no WHERE at its outermost level; its line is one more than the newlines before it in the source |
| `SqlCheck.FindingsIgnoreComments` | scripts/check_sql_unfiltered_dml.py:107-118 | edits inside comments and literals that keep extent and newlines, doubled delimiters included, leave the findings as they were |
| `Framing.MaskTwice` | scripts/feed-bakeoff/feed_bakeoff_v2.py:49-50 | masking twice with one key is the identity |
| `Framing.BigEndianRoundTrip` | scripts/feed-bakeoff/feed_bakeoff_v2.py:53-55 | k big-endian bytes give back every number below 256^k |
| `Framing.LengthRoundTrip` | scripts/feed-bakeoff/feed_bakeoff_v2.py:52-55 | the length field reads back in all three classes, whatever follows, and keeps the mask bit |
| `Framing.FieldLayout` | scripts/feed-bakeoff/feed_bakeoff_v2.py:53-55 | the length field byte by byte, as section 5.2 of RFC 6455 lays it out |
| `Framing.SendLayout` | scripts/feed-bakeoff/feed_bakeoff_v2.py:49-56 | the whole frame byte by byte: every payload byte stands under the key byte at its place modulo four |
| `Framing.SendRoundTrip` | scripts/feed-bakeoff/feed_bakeoff_v2.py:51-56 | a strict decoder gets back opcode and payload of every sent frame, and the bytes after it |
| `FrameReader.ReadLoop` | scripts/feed-bakeoff/feed_bakeoff_v2.py:70-91 | the loop over the stream computes the recursive consumer's deliveries, pongs and ending |
| `FrameReader.ReadEncoded` | scripts/feed-bakeoff/feed_bakeoff_v2.py:73-77 | one frame reads back from its unmasked encoding, whatever follows |
| `FrameReader.CutShort` | scripts/feed-bakeoff/feed_bakeoff_v2.py:72-77 | no proper prefix of a frame is taken for a frame |
| `FrameReader.OthersIgnored` | scripts/feed-bakeoff/feed_bakeoff_v2.py:79-91 | in every stream, conforming or not, a frame with any other opcode changes nothing |
| `FrameReader.FinalFrame` | scripts/feed-bakeoff/feed_bakeoff_v2.py:81-91 | a final frame completes the message of the fragments before it |
| `FrameReader.ReadLoopConforms` | scripts/feed-bakeoff/feed_bakeoff_v2.py:70-91 | for every well-formed unmasked server stream (sections 5.4 and 5.5 of RFC 6455) the loop delivers exactly the joined messages in order, unaffected by control frames, and the i-th frame it sends decodes to a final pong with the i-th ping's payload; it ends at the close, whatever follows, or where the stream breaks off |
| `DecayStats.CauchySchwarz` | scripts/ranker_decay.py:117-120 | the squared sum of n weights is at most n times the sum of squares |
| `DecayStats.EffectiveSizeBounds` | scripts/ranker_decay.py:117-120 | the effective size lies between 1 and n for non-negative weights with positive sum |
| `DecayStats.ScaleInvariant` | scripts/ranker_decay.py:88-129 | mean, variance, effective size and t are unchanged when all weights are scaled, on every path |
| `DecayStats.EqualWeightsReduce` | scripts/ranker_decay.py:117-124 | at equal weights the general mean, effective size and variance are the plain mean, n and the ddof=1 variance |
| `DecayStats.VarianceIsSpread` | scripts/ranker_decay.py:107-124 | the plain variance is positive if and only if two of the values differ |
| `DecayStats.ShortCircuitAgrees` | scripts/ranker_decay.py:107-129 | the equal-weight short cut gives the general path's answer if and only if two of the values differ |
| `DecayStats.ConstantValues` | scripts/ranker_decay.py:74-79 | for values all equal the short cut reports variance 0 where the general path reports none |
| `DecayStats.TwoEqualValues` | scripts/ranker_decay.py:74-79 | the two paths do differ: the concrete case |
| `DecayLaws.VarianceIsPairwise` | scripts/ranker_decay.py:117-124 | the weighted variance is the average, over all pairs and weighted by the products of the weights, of half the squared difference |
| `DecayLaws.EffectiveShortfall` | scripts/ranker_decay.py:117-120 | the effective size falls short of n by the squared weight differences over all pairs, over the sum of squares |
| `DecayLaws.StatsMeaning` | scripts/ranker_decay.py:88-129 | the reported statistics of every sample: when each is defined, and that the mean balances the weighted values, the variance averages over pairs and t follows from the three |
| `DecayStats.OnePerDayError` | scripts/ranker_decay.py:141-148 | with one position per day at equal weights the clustered squared error is the ddof=1 variance over n |
| `DecayStats.OnePerDay` | scripts/ranker_decay.py:132-149 | then the clustered t is the ordinary one if and only if it is not the case that the deviation passes the floor and the error does not |
| `DecayLaws.ClustersAreSameDay` | scripts/ranker_decay.py:141-148 | the squared day residuals are the products of the residuals over all pairs of rows of the same day |
| `DecayLaws.ClusteredMeaning` | scripts/ranker_decay.py:132-149 | the clustered t for any number of positions a day: the number of distinct days, and the mean over the error those products give; undefined without a mean or with fewer than two days |
| `RoundTrips.PairKey` | scripts/holdout_baseline.py:153-174 | one key's fills are accepted if and only if they alternate buy and close, and pair up neighbour by neighbour |
| `RoundTrips.FlatPairs` | scripts/holdout_baseline.py:153-174 | the round trips of a key give back its fills in order |
| `RoundTrips.PairRoundTrips` | scripts/holdout_baseline.py:146-175 | fills are accepted if and only if every key alternates, and then every fill lands in exactly one round trip, of its own key, that opens with a buy and closes, if at all, with a sale or a resolution |
| `HoldoutPnl.DecompositionIsExact` | scripts/holdout_baseline.py:250-275 | total is selection plus sizing plus exit timing for every set of records |
| `HoldoutPnl.SizingIsCovariation` | scripts/holdout_baseline.py:257-263 | sizing is the centred product sum of size and edge, for any centring of the edge |
| `HoldoutPnl.ExitTimingFromSales` | scripts/holdout_baseline.py:218-231 | exit timing is zero unless something was sold |
| `HoldoutPnl.OpenPastHorizon` | scripts/holdout_baseline.py:357-379 | the reported difference is exactly the P&L of the positions left open, and the two parts make up the total |
| `HoldoutLaws.TotalIsCash` | scripts/holdout_baseline.py:177-263 | from the round trips to the total: contracts times what one brought back, the sale price or 1 or 0, less what it cost, over the trips of known outcome |
| `HoldoutLaws.DecompositionMeans` | scripts/holdout_baseline.py:236-275 | the parts as what-ifs: exit timing is what the sales changed, sizing what the sizes changed against the average size, selection what even sizes held to resolution made |
| `HoldoutLaws.ReconcileMeans` | scripts/holdout_baseline.py:342-379 | the reconciliation in the same terms: all cash, the cash of the trips the simulation closed, and the cash of those it left open |
| `HoldoutSeries.DailyPnlSeries` | scripts/holdout_baseline.py:299-304 | the series lists each close day once, ascending, with that day's P&L |
| `HoldoutSeries.DailySumIsTotal` | scripts/holdout_baseline.py:291-304 | the daily P&L adds up to the decomposition's total |
| `HoldoutSeries.MaxDrawdown` | scripts/holdout_baseline.py:329-339 | from two days on the one-pass result is the largest drop over all ordered pairs of points of the curve |
| `HoldoutSeries.DropIsStretchLoss` | scripts/holdout_baseline.py:329-339 | that drop is the largest loss over any stretch of consecutive days |
| `HoldoutSeries.ShortSeries` | scripts/holdout_baseline.py:329-331 | below two days the reported 0 is the largest drop if and only if the only day, if any, did not lose |
| `HoldoutSeries.LosingDay` | scripts/holdout_baseline.py:329-331 | a single losing day is reported as 0 although the curve drops: the concrete case |
| `TieRanks.Sweep` | scripts/edge_persistence_walkforward.py:101-110 | for any ascending order, ties in any order, the sweep gives every position its counting midrank |
| `TieRanks.Ranks` | scripts/edge_persistence_walkforward.py:99-111 | sort and sweep give the counting midrank |
| `TieRanks.RanksFollowValues` | scripts/edge_persistence_walkforward.py:99-111 | a value is larger if and only if its rank is |
| `TieRanks.BlockRank` | scripts/ranker/oos_validation.py:276-278 | a tie block's position and length are the worse and equal counts |
| `TieRanks.RanksSum` | scripts/edge_persistence_walkforward.py:99-111 | the ranks of n values sum to n(n+1)/2, with any ties |

## Left out

- Floating-point rounding, NaN propagation and bit identity: the model computes in exact reals.
- Square roots: a deviation is represented by its square and a t by its signed square, which determine them.
- The empirical-Bernstein bound, the estimators, the deflation statistics and the online selector: parameters. Where it matters, the selector is taken to list each wallet once and the bound to spare a wallet without closed rows, as theirs do.
- Coverage, resolution-lag and closing-line diagnostics of a trajectory, progress logging, and the out-of-core process executor with its pre-sliced frames.
- Key formatting of a grid point: pre-registration's rejection of duplicate keys enters as the condition that keys determine points.
- In the thread run all trajectories are in flight at once, on any schedule: the pool's limit on their number only removes schedules. A factory that raises is modelled in `SingleFlight`, not in a whole trajectory, and missing caches only in the serial and process runs.
- The index guard of `uniqueness_weights`, which rejects frames without a plain row index.
- Price parsing in the two extraction engines: one parser stands for Python's `float` and for the query engine's cast.
- SQL execution: the first-buy query is modelled by its relational meaning.
- JSON decoding and digest checks of collection identities: identities enter decoded, an archived one possibly undecodable.
- Bulk-root routing, argument validation and the reading of the staging baseline in `candidate_targets`.
- The statement and token patterns of the SQL check, and the whitespace clean-up of a reported text: parameters over the masked text.
- The WebSocket handshake, timestamps and JSON parsing of delivered messages; a stream that ends inside a frame is reported as truncated.
- Sharpe ratio, per-operator breakdown and the tolerance test of the reconciliation.
- Bootstrap validators, screening and winner selection of the bake-off: they rest on library statistics.
- The Rust crates, the site and the publishing scripts.
