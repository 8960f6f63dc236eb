/** Hybrid displacement (`HybridDisplacement.step`): after knockout and backfill, each fresh
    wallet left out may displace the worst-ranked unproven member, if it beats it by more
    than the margin. */
module Displacement {
  import opened Basics
  import opened Policies

  /** What the displacement loop reads: the fresh scores, the closed live periods per wallet
      with the number that makes a member proven, and the margin. */
  datatype Rules = Rules(scores: Scores, periods: map<Wallet, nat>, provenMin: int, margin: int)

  predicate Proven(r: Rules, w: Wallet) {
    (if w in r.periods then r.periods[w] else 0) >= r.provenMin
  }

  function WorstRank(s: Scores): int
    requires ValidScores(s)
  {
    if s.order == [] then 1 else s.rank[s.order[|s.order| - 1]] + 1
  }

  function RankOf(r: Rules, w: Wallet): (n: int)
    requires ValidScores(r.scores)
    ensures 1 <= n
  {
    if w in r.scores.rank then r.scores.rank[w] else WorstRank(r.scores)
  }

  // ---------- specification ----------

  /** The first worst-ranked unproven member. */
  function Target(r: Rules, kept: seq<Wallet>): Option<Wallet>
    requires ValidScores(r.scores)
  {
    if kept == [] then None
    else
      var t := Target(r, kept[..|kept| - 1]);
      var x := kept[|kept| - 1];
      if Proven(r, x) then t
      else if t.None? || RankOf(r, x) > RankOf(r, t.value) then Some(x)
      else t
  }

  predicate Displaces(r: Rules, kept: seq<Wallet>, c: Wallet)
    requires ValidScores(r.scores)
  {
    c !in kept && var t := Target(r, kept); t.Some? && RankOf(r, c) + r.margin < RankOf(r, t.value)
  }

  function Displace(r: Rules, kept: seq<Wallet>, c: Wallet): seq<Wallet>
    requires ValidScores(r.scores)
  {
    if Displaces(r, kept, c) then Outside(kept, {Target(r, kept).value}) + [c] else kept
  }

  /** The loop over the challengers from number `i` on, best first. */
  function DisplaceFrom(r: Rules, kept: seq<Wallet>, i: nat): seq<Wallet>
    requires ValidScores(r.scores) && i <= |r.scores.order|
    decreases |r.scores.order| - i
  {
    if i == |r.scores.order| then kept else DisplaceFrom(r, Displace(r, kept, r.scores.order[i]), i + 1)
  }

  function Hybrid(r: Rules, kept: seq<Wallet>): seq<Wallet>
    requires ValidScores(r.scores)
  {
    DisplaceFrom(r, kept, 0)
  }

  // ---------- the loops ----------

  method FindTarget(r: Rules, kept: seq<Wallet>) returns (target: Option<Wallet>, targetRank: int)
    requires ValidScores(r.scores)
    ensures target == Target(r, kept)
    ensures targetRank == if target.Some? then RankOf(r, target.value) else -1
  {
    target, targetRank := None, -1;
    for i := 0 to |kept|
      invariant target == Target(r, kept[..i])
      invariant targetRank == if target.Some? then RankOf(r, target.value) else -1
    {
      assert kept[..i + 1][..i] == kept[..i];
      if !Proven(r, kept[i]) {
        var incRank := RankOf(r, kept[i]);
        if incRank > targetRank { target, targetRank := Some(kept[i]), incRank; }
      }
    }
    assert kept[..|kept|] == kept;
  }

  method DisplaceLoop(r: Rules, base: seq<Wallet>) returns (kept: seq<Wallet>)
    requires ValidScores(r.scores)
    ensures kept == Hybrid(r, base)
  {
    kept := base;
    for i := 0 to |r.scores.order|
      invariant DisplaceFrom(r, kept, i) == Hybrid(r, base)
    {
      var challenger := r.scores.order[i];
      if challenger !in kept {
        var target, targetRank := FindTarget(r, kept);
        if target.Some? && RankOf(r, challenger) + r.margin < targetRank {
          kept := Outside(kept, {target.value}) + [challenger];
        }
      }
    }
  }

  // ---------- one displacement ----------

  lemma {:induction false} TargetIsWorst(r: Rules, kept: seq<Wallet>)
    requires ValidScores(r.scores)
    ensures var t := Target(r, kept);
      && (t.Some? ==> t.value in kept && !Proven(r, t.value))
      && (forall w :: w in kept && !Proven(r, w) ==> t.Some? && RankOf(r, w) <= RankOf(r, t.value))
  {
    if kept != [] {
      var n := |kept| - 1;
      TargetIsWorst(r, kept[..n]);
      assert kept == kept[..n] + [kept[n]];
    }
  }

  /** `t` stands at place `i`, and every unproven member before it ranks better. */
  ghost predicate FirstWorst(r: Rules, kept: seq<Wallet>, i: nat, t: Wallet)
    requires ValidScores(r.scores) && i < |kept|
  {
    kept[i] == t && forall j :: 0 <= j < i && !Proven(r, kept[j]) ==> RankOf(r, kept[j]) < RankOf(r, t)
  }

  /** Of several equally bad members the first is displaced. */
  lemma {:induction false} TargetIsFirst(r: Rules, kept: seq<Wallet>)
    requires ValidScores(r.scores) && Target(r, kept).Some?
    ensures exists i :: 0 <= i < |kept| && FirstWorst(r, kept, i, Target(r, kept).value)
  {
    var n := |kept| - 1;
    var t, x := Target(r, kept[..n]), kept[n];
    if Target(r, kept) == t {
      TargetIsFirst(r, kept[..n]);
      var i :| 0 <= i < n && FirstWorst(r, kept[..n], i, t.value);
      assert forall j :: 0 <= j <= i ==> kept[..n][j] == kept[j];
      assert FirstWorst(r, kept, i, t.value);
    } else {
      TargetIsWorst(r, kept[..n]);
      assert forall j :: 0 <= j < n ==> kept[j] in kept[..n];
      assert FirstWorst(r, kept, n, x);
    }
  }

  lemma {:induction false} RemoveOne(ws: seq<Wallet>, t: Wallet)
    requires Distinct(ws) && t in ws
    ensures |Outside(ws, {t})| == |ws| - 1
  {
    var n := |ws| - 1;
    assert ws == ws[..n] + [ws[n]];
    if ws[n] == t {
      RemoveNone(ws[..n], t);
    } else {
      RemoveOne(ws[..n], t);
    }
  }

  lemma {:induction false} RemoveNone(ws: seq<Wallet>, t: Wallet)
    requires t !in ws
    ensures Outside(ws, {t}) == ws
  {
    if ws != [] {
      RemoveNone(ws[..|ws| - 1], t);
      assert ws == ws[..|ws| - 1] + [ws[|ws| - 1]];
    }
  }

  lemma DisplaceMembers(r: Rules, kept: seq<Wallet>, c: Wallet)
    requires ValidScores(r.scores) && Displaces(r, kept, c)
    ensures forall w :: w in Displace(r, kept, c) <==> w == c || (w in kept && w != Target(r, kept).value)
  {
    OutsideMembers(kept, {Target(r, kept).value});
  }

  lemma DisplaceKeeps(r: Rules, kept: seq<Wallet>, c: Wallet)
    requires ValidScores(r.scores) && Distinct(kept)
    ensures var after := Displace(r, kept, c);
      && Distinct(after) && |after| == |kept|
      && (forall w :: w in kept && Proven(r, w) ==> w in after)
  {
    if Displaces(r, kept, c) {
      var t := Target(r, kept).value;
      TargetIsWorst(r, kept);
      OutsideMembers(kept, {t});
      RemoveOne(kept, t);
      var rest := Outside(kept, {t});
      assert forall i :: 0 <= i < |rest| ==> rest[i] in rest;
    }
  }

  /** The whole pass keeps the set's size and every proven member. */
  lemma {:induction false} KeepsSizeAndProven(r: Rules, kept: seq<Wallet>, i: nat)
    requires ValidScores(r.scores) && Distinct(kept) && i <= |r.scores.order|
    ensures var after := DisplaceFrom(r, kept, i);
      && Distinct(after) && |after| == |kept|
      && (forall w :: w in kept && Proven(r, w) ==> w in after)
    decreases |r.scores.order| - i
  {
    if i < |r.scores.order| {
      DisplaceKeeps(r, kept, r.scores.order[i]);
      KeepsSizeAndProven(r, Displace(r, kept, r.scores.order[i]), i + 1);
    }
  }

  // ---------- stability ----------

  /** No two fresh ranks are equal. */
  ghost predicate StrictRanks(s: Scores)
    requires ValidScores(s)
  {
    forall i, j :: 0 <= i < j < |s.order| ==> s.rank[s.order[i]] < s.rank[s.order[j]]
  }

  /** A margin under which greedy displacement settles: non-negative, or minus one when no
      two fresh ranks are equal (which integer ranks turn into zero). */
  ghost predicate Settling(r: Rules)
    requires ValidScores(r.scores)
  {
    r.margin >= 0 || (r.margin == -1 && StrictRanks(r.scores))
  }

  /** Challenger `c` is in `kept` or beats no unproven member of it. */
  ghost predicate Settled(r: Rules, kept: seq<Wallet>, c: Wallet)
    requires ValidScores(r.scores)
  {
    c in kept || forall m :: m in kept && !Proven(r, m) ==> RankOf(r, m) <= RankOf(r, c) + r.margin
  }

  /** The first `n` challengers are settled. */
  ghost predicate Stable(r: Rules, kept: seq<Wallet>, n: nat)
    requires ValidScores(r.scores) && n <= |r.scores.order|
  {
    forall i :: 0 <= i < n ==> Settled(r, kept, r.scores.order[i])
  }

  /** The member displaced by challenger `n` is none of the earlier challengers. */
  lemma TargetIsLater(r: Rules, i: nat, n: nat, t: Wallet)
    requires ValidScores(r.scores) && Settling(r) && i < n < |r.scores.order|
    requires RankOf(r, r.scores.order[n]) + r.margin < RankOf(r, t)
    ensures r.scores.order[i] != t
  {
    assert r.scores.order[i] in r.scores.rank && r.scores.order[n] in r.scores.rank;
  }

  lemma StaysSettled(r: Rules, kept: seq<Wallet>, i: nat, n: nat)
    requires ValidScores(r.scores) && Settling(r) && i < n < |r.scores.order|
    requires Displaces(r, kept, r.scores.order[n]) && Settled(r, kept, r.scores.order[i])
    ensures Settled(r, Displace(r, kept, r.scores.order[n]), r.scores.order[i])
  {
    var c, d := r.scores.order[i], r.scores.order[n];
    var t := Target(r, kept).value;
    TargetIsWorst(r, kept);
    DisplaceMembers(r, kept, d);
    TargetIsLater(r, i, n, t);
    assert c in r.scores.rank && d in r.scores.rank;
  }

  lemma DisplaceKeepsStable(r: Rules, kept: seq<Wallet>, n: nat)
    requires ValidScores(r.scores) && Settling(r) && n < |r.scores.order|
    requires Stable(r, kept, n)
    ensures Stable(r, Displace(r, kept, r.scores.order[n]), n + 1)
  {
    var d := r.scores.order[n];
    if Displaces(r, kept, d) {
      forall i | 0 <= i < n ensures Settled(r, Displace(r, kept, d), r.scores.order[i]) { StaysSettled(r, kept, i, n); }
      DisplaceMembers(r, kept, d);
    } else {
      TargetIsWorst(r, kept);
    }
  }

  lemma {:induction false} StableAfter(r: Rules, kept: seq<Wallet>, i: nat)
    requires ValidScores(r.scores) && Settling(r) && i <= |r.scores.order| && Stable(r, kept, i)
    ensures Stable(r, DisplaceFrom(r, kept, i), |r.scores.order|)
    decreases |r.scores.order| - i
  {
    if i < |r.scores.order| {
      DisplaceKeepsStable(r, kept, i);
      StableAfter(r, Displace(r, kept, r.scores.order[i]), i + 1);
    }
  }

  lemma SettledStays(r: Rules, kept: seq<Wallet>, c: Wallet)
    requires ValidScores(r.scores) && Settled(r, kept, c)
    ensures Displace(r, kept, c) == kept
  {
    TargetIsWorst(r, kept);
  }

  lemma {:induction false} StableIsFixed(r: Rules, kept: seq<Wallet>, i: nat)
    requires ValidScores(r.scores) && Stable(r, kept, |r.scores.order|) && i <= |r.scores.order|
    ensures DisplaceFrom(r, kept, i) == kept
    decreases |r.scores.order| - i
  {
    if i < |r.scores.order| {
      SettledStays(r, kept, r.scores.order[i]);
      StableIsFixed(r, kept, i + 1);
    }
  }

  /** The result of the loop is stable: no fresh wallet left out beats any unproven member
      by more than the margin, so a second pass would change nothing. */
  lemma HybridStable(r: Rules, kept: seq<Wallet>)
    requires ValidScores(r.scores) && Settling(r)
    ensures Stable(r, Hybrid(r, kept), |r.scores.order|)
    ensures Hybrid(r, Hybrid(r, kept)) == Hybrid(r, kept)
  {
    StableAfter(r, kept, 0);
    StableIsFixed(r, Hybrid(r, kept), 0);
  }

  /** For the step as a whole: its final cut removes nobody, its result is stable, as large as
      after the backfill, and holds every proven member of the backfilled set. */
  lemma StepIsStable(k: nat, prev: seq<Wallet>, demoted: set<Wallet>, r: Rules)
    requires ValidScores(r.scores) && Settling(r) && Distinct(prev)
    ensures var base := Knockout(k, prev, r.scores, demoted); var after := Take(Hybrid(r, base), k);
      && after == Hybrid(r, base) && |after| == |base| && Stable(r, after, |r.scores.order|)
      && (forall w :: w in base && Proven(r, w) ==> w in after)
  {
    var base := Knockout(k, prev, r.scores, demoted);
    KnockoutShape(k, prev, r.scores, demoted);
    KeepsSizeAndProven(r, base, 0);
    HybridStable(r, base);
  }

  // ---------- who stands where ----------

  lemma {:induction false} OutsideSame(ws: seq<Wallet>, s: set<Wallet>, t: set<Wallet>)
    requires forall w :: w in ws ==> (w in s <==> w in t)
    ensures Outside(ws, s) == Outside(ws, t)
  {
    if ws != [] {
      var n := |ws| - 1;
      assert ws == ws[..n] + [ws[n]];
      OutsideSame(ws[..n], s, t);
    }
  }

  lemma {:induction false} OutsideTwice(ws: seq<Wallet>, s: set<Wallet>, t: Wallet)
    ensures Outside(Outside(ws, s), {t}) == Outside(ws, s + {t})
  {
    if ws != [] {
      var n := |ws| - 1;
      OutsideTwice(ws[..n], s, t);
      OutsideAppend(Outside(ws[..n], s), if ws[n] in s then [] else [ws[n]], {t});
    }
  }

  /** The members of `base` that `kept` still holds, in their old order. */
  ghost function Survivors(base: seq<Wallet>, kept: seq<Wallet>): seq<Wallet> {
    Outside(base, Elems(base) - Elems(kept))
  }

  /** The challengers that `kept` has taken in, best first. */
  ghost function Newcomers(challengers: seq<Wallet>, base: seq<Wallet>, kept: seq<Wallet>): seq<Wallet> {
    Outside(challengers, Elems(challengers) - (Elems(kept) - Elems(base)))
  }

  lemma NewcomersAre(cs: seq<Wallet>, base: seq<Wallet>, kept: seq<Wallet>)
    ensures forall w :: w in Newcomers(cs, base, kept) <==> w in cs && w in kept && w !in base
  {
    OutsideMembers(cs, Elems(cs) - (Elems(kept) - Elems(base)));
  }

  lemma NewcomersSame(cs: seq<Wallet>, base: seq<Wallet>, kept: seq<Wallet>, kept': seq<Wallet>)
    requires forall w :: w in cs && w !in base ==> (w in kept <==> w in kept')
    ensures Newcomers(cs, base, kept) == Newcomers(cs, base, kept')
  {
    OutsideSame(cs, Elems(cs) - (Elems(kept) - Elems(base)), Elems(cs) - (Elems(kept') - Elems(base)));
  }

  lemma NewcomersNext(cs: seq<Wallet>, n: nat, base: seq<Wallet>, kept: seq<Wallet>)
    requires n < |cs|
    ensures Newcomers(cs[..n + 1], base, kept)
         == Newcomers(cs[..n], base, kept) + if cs[n] in kept && cs[n] !in base then [cs[n]] else []
  {
    var s, s' := Elems(cs[..n + 1]) - (Elems(kept) - Elems(base)), Elems(cs[..n]) - (Elems(kept) - Elems(base));
    assert cs[..n + 1][..n] == cs[..n] && cs[n] in cs[..n + 1];
    assert forall w :: w in cs[..n] ==> w in cs[..n + 1];
    OutsideSame(cs[..n], s, s');
  }

  /** After the first `n` challengers: survivors in their order, then newcomers, best first. */
  ghost predicate InShape(r: Rules, base: seq<Wallet>, kept: seq<Wallet>, n: nat)
    requires n <= |r.scores.order|
  {
    kept == Survivors(base, kept) + Newcomers(r.scores.order[..n], base, kept)
  }

  lemma ShapeNoSwap(r: Rules, base: seq<Wallet>, kept: seq<Wallet>, n: nat)
    requires ValidScores(r.scores) && n < |r.scores.order| && InShape(r, base, kept, n)
    ensures InShape(r, base, kept, n + 1)
  {
    var c := r.scores.order[n];
    NewcomersNext(r.scores.order, n, base, kept);
    NewcomersAre(r.scores.order[..n], base, kept);
    OutsideMembers(base, Elems(base) - Elems(kept));
    assert c !in r.scores.order[..n];
  }

  /** `after` holds `kept` without `t`, and `c`. */
  ghost predicate Swapped(kept: seq<Wallet>, t: Wallet, c: Wallet, after: seq<Wallet>) {
    forall w :: w in after <==> w == c || (w in kept && w != t)
  }

  lemma SwapSurvivors(base: seq<Wallet>, kept: seq<Wallet>, t: Wallet, c: Wallet, after: seq<Wallet>)
    requires Swapped(kept, t, c, after) && c !in base
    ensures Outside(Survivors(base, kept), {t}) == Survivors(base, after)
  {
    OutsideTwice(base, Elems(base) - Elems(kept), t);
    OutsideSame(base, (Elems(base) - Elems(kept)) + {t}, Elems(base) - Elems(after));
  }

  lemma SwapNewcomers(cs: seq<Wallet>, n: nat, base: seq<Wallet>, kept: seq<Wallet>, t: Wallet, after: seq<Wallet>)
    requires n < |cs| && cs[n] !in base && cs[n] !in cs[..n] && t !in cs[..n] && Swapped(kept, t, cs[n], after)
    ensures Outside(Newcomers(cs[..n], base, kept), {t}) + [cs[n]] == Newcomers(cs[..n + 1], base, after)
  {
    NewcomersAre(cs[..n], base, kept);
    RemoveNone(Newcomers(cs[..n], base, kept), t);
    NewcomersSame(cs[..n], base, kept, after);
    NewcomersNext(cs, n, base, after);
  }

  lemma ShapeSwap(r: Rules, base: seq<Wallet>, kept: seq<Wallet>, n: nat)
    requires ValidScores(r.scores) && Settling(r) && n < |r.scores.order| && InShape(r, base, kept, n)
    requires r.scores.order[n] !in base && Displaces(r, kept, r.scores.order[n])
    ensures InShape(r, base, Displace(r, kept, r.scores.order[n]), n + 1)
  {
    var order, c, t := r.scores.order, r.scores.order[n], Target(r, kept).value;
    DisplaceMembers(r, kept, c);
    forall i | 0 <= i < n ensures order[i] != t { TargetIsLater(r, i, n, t); }
    var after := Displace(r, kept, c);
    assert Swapped(kept, t, c, after);
    SwapSurvivors(base, kept, t, c, after);
    SwapNewcomers(order, n, base, kept, t, after);
    OutsideAppend(Survivors(base, kept), Newcomers(order[..n], base, kept), {t});
  }

  /** No unproven member of `kept` ranks behind a member of `base` that was displaced. */
  ghost predicate NoRegret(r: Rules, base: seq<Wallet>, kept: seq<Wallet>)
    requires ValidScores(r.scores)
  {
    forall x, m :: x in base && x !in kept && m in kept && !Proven(r, m) ==> RankOf(r, m) <= RankOf(r, x)
  }

  lemma DifferentRanks(s: Scores, n: nat, t: Wallet)
    requires ValidScores(s) && n < |s.order| && t in s.rank && s.order[n] != t
    ensures StrictRanks(s) ==> s.rank[s.order[n]] != s.rank[t]
  {
    assert t in s.order;
    var i :| 0 <= i < |s.order| && s.order[i] == t;
    assert i != n;
  }

  /** A displaced member does not come back. */
  lemma GoneForGood(r: Rules, base: seq<Wallet>, kept: seq<Wallet>, n: nat)
    requires ValidScores(r.scores) && Settling(r) && n < |r.scores.order| && NoRegret(r, base, kept)
    requires Displaces(r, kept, r.scores.order[n])
    ensures r.scores.order[n] !in base
  {
    var c, t := r.scores.order[n], Target(r, kept).value;
    TargetIsWorst(r, kept);
    assert c in r.scores.order && c != t;
    LastRanksWorst(r.scores);
    if t in r.scores.rank { DifferentRanks(r.scores, n, t); }
  }

  lemma SwapNoRegret(r: Rules, base: seq<Wallet>, kept: seq<Wallet>, c: Wallet)
    requires ValidScores(r.scores) && r.margin >= -1 && NoRegret(r, base, kept)
    ensures NoRegret(r, base, Displace(r, kept, c))
  {
    if Displaces(r, kept, c) {
      TargetIsWorst(r, kept);
      DisplaceMembers(r, kept, c);
    }
  }

  lemma {:induction false} ShapeAfter(r: Rules, base: seq<Wallet>, kept: seq<Wallet>, n: nat)
    requires ValidScores(r.scores) && Settling(r) && n <= |r.scores.order|
    requires InShape(r, base, kept, n) && NoRegret(r, base, kept)
    ensures InShape(r, base, DisplaceFrom(r, kept, n), |r.scores.order|) && NoRegret(r, base, DisplaceFrom(r, kept, n))
    decreases |r.scores.order| - n
  {
    if n < |r.scores.order| {
      var c := r.scores.order[n];
      SwapNoRegret(r, base, kept, c);
      if Displaces(r, kept, c) {
        GoneForGood(r, base, kept, n);
        ShapeSwap(r, base, kept, n);
      } else {
        ShapeNoSwap(r, base, kept, n);
      }
      ShapeAfter(r, base, Displace(r, kept, c), n + 1);
    }
  }

  /** The result of the pass in full: the survivors in their old order, then the newcomers, best
      rank first; nobody displaced ranks ahead of an unproven member that stays. */
  lemma PassShape(r: Rules, base: seq<Wallet>)
    requires ValidScores(r.scores) && Settling(r)
    ensures var after := Hybrid(r, base);
      && after == Survivors(base, after) + Newcomers(r.scores.order, base, after)
      && NoRegret(r, base, after)
  {
    OutsideSame(base, Elems(base) - Elems(base), {});
    NoneOutside(base);
    assert r.scores.order[..0] == [];
    ShapeAfter(r, base, base, 0);
    assert r.scores.order[..|r.scores.order|] == r.scores.order;
  }

  lemma {:induction false} NoneOutside(ws: seq<Wallet>)
    ensures Outside(ws, {}) == ws
  {
    if ws != [] {
      NoneOutside(ws[..|ws| - 1]);
      assert ws == ws[..|ws| - 1] + [ws[|ws| - 1]];
    }
  }

  // ---------- the same, in the fresh ranks alone ----------

  /** Challenger `c` beats member `m` by more than the margin; a member that no longer ranks
      stands one place behind the last that does. */
  ghost predicate Beats(s: Scores, margin: int, c: Wallet, m: Wallet)
    requires c in s.rank
  {
    if m in s.rank then s.rank[c] + margin < s.rank[m]
    else exists w :: w in s.rank && s.rank[c] + margin < s.rank[w] + 1
  }

  lemma LastRanksWorst(s: Scores)
    requires ValidScores(s) && s.order != []
    ensures var last := s.order[|s.order| - 1]; last in s.rank && forall w :: w in s.rank ==> s.rank[w] <= s.rank[last]
  {
    var last := s.order[|s.order| - 1];
    assert last in s.order;
    forall w | w in s.rank ensures s.rank[w] <= s.rank[last] {
      var i :| 0 <= i < |s.order| && s.order[i] == w;
    }
  }

  lemma BeatsIsRank(r: Rules, c: Wallet, m: Wallet)
    requires ValidScores(r.scores) && c in r.scores.rank
    ensures Beats(r.scores, r.margin, c, m) <==> RankOf(r, c) + r.margin < RankOf(r, m)
  {
    assert c in r.scores.order;
    LastRanksWorst(r.scores);
  }

  /** No fresh wallet outside `kept` beats an unproven member. */
  ghost predicate Unbeaten(r: Rules, kept: seq<Wallet>) {
    forall c, m :: c in r.scores.rank && c !in kept && m in kept && !Proven(r, m) ==> !Beats(r.scores, r.margin, c, m)
  }

  lemma StableIsUnbeaten(r: Rules, kept: seq<Wallet>)
    requires ValidScores(r.scores)
    ensures Stable(r, kept, |r.scores.order|) <==> Unbeaten(r, kept)
  {
    if Stable(r, kept, |r.scores.order|) {
      forall c, m | c in r.scores.rank && c !in kept && m in kept && !Proven(r, m) ensures !Beats(r.scores, r.margin, c, m) {
        var i :| 0 <= i < |r.scores.order| && r.scores.order[i] == c;
        assert Settled(r, kept, r.scores.order[i]);
        BeatsIsRank(r, c, m);
      }
    }
    if Unbeaten(r, kept) {
      forall i | 0 <= i < |r.scores.order| ensures Settled(r, kept, r.scores.order[i]) {
        var c := r.scores.order[i];
        assert c in r.scores.order;
        forall m | m in kept && !Proven(r, m) && c !in kept ensures RankOf(r, m) <= RankOf(r, c) + r.margin {
          BeatsIsRank(r, c, m);
        }
      }
    }
  }

  /** The pass leaves a set alone exactly when nobody outside beats an unproven member. */
  lemma FixedExactlyWhen(r: Rules, kept: seq<Wallet>)
    requires ValidScores(r.scores) && Settling(r)
    ensures Hybrid(r, kept) == kept <==> Unbeaten(r, kept)
    ensures Unbeaten(r, Hybrid(r, kept))
  {
    HybridStable(r, kept);
    StableIsUnbeaten(r, kept);
    StableIsUnbeaten(r, Hybrid(r, kept));
    if Unbeaten(r, kept) { StableIsFixed(r, kept, 0); }
  }

  /** An unproven member that no longer ranks survives the step only if every fresh wallet left
      out stands within the margin of the place behind the last: never at margin 0 or below. */
  lemma UnrankedMember(k: nat, prev: seq<Wallet>, demoted: set<Wallet>, r: Rules, c: Wallet, m: Wallet)
    requires ValidScores(r.scores) && Settling(r) && Distinct(prev)
    requires var after := Take(Hybrid(r, Knockout(k, prev, r.scores, demoted)), k); m in after && c !in after
    requires !Proven(r, m) && m !in r.scores.rank && c in r.scores.rank
    ensures r.margin > 0 && forall w :: w in r.scores.rank ==> r.scores.rank[w] + 1 <= r.scores.rank[c] + r.margin
  {
    var base := Knockout(k, prev, r.scores, demoted);
    StepIsStable(k, prev, demoted, r);
    FixedExactlyWhen(r, base);
    assert !Beats(r.scores, r.margin, c, m);
    assert r.scores.rank[c] + 1 <= r.scores.rank[c] + r.margin;
  }

  /** The whole step.  With a settling margin nobody left out beats an unproven member of its
      result. */
  method HybridStep(k: nat, prev: seq<Wallet>, demoted: set<Wallet>, r: Rules) returns (kept: seq<Wallet>)
    requires ValidScores(r.scores)
    ensures kept == Take(Hybrid(r, Knockout(k, prev, r.scores, demoted)), k)
    ensures Settling(r) && Distinct(prev) ==> Unbeaten(r, kept)
  {
    kept := KnockoutStep(k, prev, r.scores, demoted);
    ghost var base := kept;
    kept := DisplaceLoop(r, kept);
    kept := Take(kept, k);
    if Settling(r) && Distinct(prev) {
      StepIsStable(k, prev, demoted, r);
      FixedExactlyWhen(r, base);
    }
  }

  /** Below minus one the guarantee fails already for two wallets with distinct ranks. */
  lemma UnstableBelowMinusOne(margin: int)
    requires margin < -1
    ensures var r := Rules(Scores(["a", "b"], map["a" := 1, "b" := 2]), map[], 5, margin);
      ValidScores(r.scores) && !Stable(r, Hybrid(r, ["a"]), 2)
  {
    var r := Rules(Scores(["a", "b"], map["a" := 1, "b" := 2]), map[], 5, margin);
    var kept := ["a"];
    assert kept[..0] == [];
    assert Target(r, kept) == Some("a");
    assert Displace(r, kept, "a") == kept;
    assert Displaces(r, kept, "b");
    DisplaceMembers(r, kept, "b");
    var after := Displace(r, kept, "b");
    assert DisplaceFrom(r, kept, 0) == DisplaceFrom(r, kept, 1);
    assert DisplaceFrom(r, kept, 1) == DisplaceFrom(r, after, 2);
    assert !Settled(r, after, r.scores.order[0]);
  }

  /** With distinct ranks, a margin of at least minus one is exactly what stability needs. */
  lemma StableExactlyWhen(margin: int)
    ensures margin >= -1 <==>
      forall r: Rules, kept: seq<Wallet> :: r.margin == margin && ValidScores(r.scores) && StrictRanks(r.scores) ==>
        Stable(r, Hybrid(r, kept), |r.scores.order|)
  {
    if margin >= -1 {
      forall r: Rules, kept: seq<Wallet> | r.margin == margin && ValidScores(r.scores) && StrictRanks(r.scores)
        ensures Stable(r, Hybrid(r, kept), |r.scores.order|)
      {
        HybridStable(r, kept);
      }
    } else {
      UnstableBelowMinusOne(margin);
      var r := Rules(Scores(["a", "b"], map["a" := 1, "b" := 2]), map[], 5, margin);
      assert StrictRanks(r.scores) && !Stable(r, Hybrid(r, ["a"]), |r.scores.order|);
    }
  }

  // ---------- every swap lowers the total rank by more than the margin ----------

  function TotalRank(r: Rules, ws: seq<Wallet>): int
    requires ValidScores(r.scores)
  {
    if ws == [] then 0 else TotalRank(r, ws[..|ws| - 1]) + RankOf(r, ws[|ws| - 1])
  }

  lemma {:induction false} TotalWithout(r: Rules, ws: seq<Wallet>, t: Wallet)
    requires ValidScores(r.scores) && Distinct(ws) && t in ws
    ensures TotalRank(r, Outside(ws, {t})) == TotalRank(r, ws) - RankOf(r, t)
  {
    var n := |ws| - 1;
    assert ws == ws[..n] + [ws[n]];
    if ws[n] == t {
      RemoveNone(ws[..n], t);
      assert Outside(ws, {t}) == ws[..n];
    } else {
      TotalWithout(r, ws[..n], t);
      var rest := Outside(ws[..n], {t});
      assert (rest + [ws[n]])[..|rest|] == rest;
    }
  }

  function Swap(r: Rules, kept: seq<Wallet>, c: Wallet): nat
    requires ValidScores(r.scores)
  {
    if Displaces(r, kept, c) then 1 else 0
  }

  function Swaps(r: Rules, kept: seq<Wallet>, i: nat): nat
    requires ValidScores(r.scores) && i <= |r.scores.order|
    decreases |r.scores.order| - i
  {
    if i == |r.scores.order| then 0
    else
      Swap(r, kept, r.scores.order[i]) + Swaps(r, Displace(r, kept, r.scores.order[i]), i + 1)
  }

  lemma SwapLowersRank(r: Rules, kept: seq<Wallet>, c: Wallet)
    requires ValidScores(r.scores) && Distinct(kept) && Displaces(r, kept, c)
    ensures TotalRank(r, Displace(r, kept, c)) + r.margin < TotalRank(r, kept)
  {
    var t := Target(r, kept).value;
    TargetIsWorst(r, kept);
    TotalWithout(r, kept, t);
    var rest := Outside(kept, {t});
    assert (rest + [c])[..|rest|] == rest;
  }

  /** What `n` swaps must save. */
  function Saving(r: Rules, n: nat): int { n * (r.margin + 1) }

  lemma SavingAdd(r: Rules, m: nat, n: nat)
    ensures Saving(r, m + n) == Saving(r, m) + Saving(r, n)
  {
  }

  lemma SwapSaves(r: Rules, kept: seq<Wallet>, c: Wallet)
    requires ValidScores(r.scores) && Distinct(kept)
    ensures TotalRank(r, Displace(r, kept, c)) + Saving(r, Swap(r, kept, c)) <= TotalRank(r, kept)
  {
    if Displaces(r, kept, c) { SwapLowersRank(r, kept, c); }
  }

  lemma {:induction false} SwapsLowerRank(r: Rules, kept: seq<Wallet>, i: nat)
    requires ValidScores(r.scores) && Distinct(kept) && i <= |r.scores.order|
    ensures TotalRank(r, DisplaceFrom(r, kept, i)) + Saving(r, Swaps(r, kept, i)) <= TotalRank(r, kept)
    decreases |r.scores.order| - i
  {
    if i < |r.scores.order| {
      var c := r.scores.order[i];
      var after := Displace(r, kept, c);
      DisplaceKeeps(r, kept, c);
      SwapsLowerRank(r, after, i + 1);
      SwapSaves(r, kept, c);
      SavingAdd(r, Swap(r, kept, c), Swaps(r, after, i + 1));
    }
  }
}
