/** The knockout-and-backfill policy (`KnockoutBackfill.step`, `scripts/ranker/policies.py`), and the
    ranked scores all policies read. */
module Policies {
  import opened Basics

  type Wallet = string

  /** The fresh scores: the wallets in ascending rank order, and their ranks (1 = best). */
  datatype Scores = Scores(order: seq<Wallet>, rank: map<Wallet, int>)

  ghost predicate ValidScores(f: Scores) {
    && Distinct(f.order)
    && (forall w :: w in f.order <==> w in f.rank)
    && (forall i, j :: 0 <= i < j < |f.order| ==> f.rank[f.order[i]] <= f.rank[f.order[j]])
    && forall w :: w in f.rank ==> f.rank[w] >= 1
  }

  function Take<T>(s: seq<T>, k: nat): seq<T> { if |s| <= k then s else s[..k] }

  // ---------- knockout and backfill ----------

  /** The members of `ws` outside `s`, in order. */
  function Outside(ws: seq<Wallet>, s: set<Wallet>): seq<Wallet> {
    if ws == [] then []
    else Outside(ws[..|ws| - 1], s) + if ws[|ws| - 1] in s then [] else [ws[|ws| - 1]]
  }

  lemma {:induction false} OutsideMembers(ws: seq<Wallet>, s: set<Wallet>)
    ensures forall w :: w in Outside(ws, s) <==> w in ws && w !in s
    ensures Distinct(ws) ==> Distinct(Outside(ws, s))
  {
    if ws != [] {
      var n := |ws| - 1;
      OutsideMembers(ws[..n], s);
      assert ws == ws[..n] + [ws[n]];
      var r := Outside(ws[..n], s);
      assert forall i :: 0 <= i < |r| ==> r[i] in r;
    }
  }

  lemma {:induction false} OutsideAppend(a: seq<Wallet>, b: seq<Wallet>, s: set<Wallet>)
    ensures Outside(a + b, s) == Outside(a, s) + Outside(b, s)
  {
    if b == [] {
      assert a + b == a;
    } else {
      assert (a + b)[..|a + b| - 1] == a + b[..|b| - 1];
      OutsideAppend(a, b[..|b| - 1], s);
    }
  }

  lemma OutsidePrefix(order: seq<Wallet>, s: set<Wallet>, i: nat)
    requires i <= |order|
    ensures Outside(order[..i], s) <= Outside(order, s)
  {
    assert order == order[..i] + order[i..];
    OutsideAppend(order[..i], order[i..], s);
  }

  function Elems(ws: seq<Wallet>): set<Wallet> { set w | w in ws }

  /** The specification of the backfill: the incumbents, then the best-ranked others. */
  function Backfilled(kept: seq<Wallet>, order: seq<Wallet>, k: nat): seq<Wallet> {
    if |kept| >= k then kept
    else kept + Take(Outside(order, Elems(kept)), k - |kept|)
  }

  function Knockout(k: nat, prev: seq<Wallet>, scores: Scores, demoted: set<Wallet>): seq<Wallet> {
    Take(Backfilled(Outside(prev, demoted), scores.order, k), k)
  }

  lemma OutsideStep(order: seq<Wallet>, s: set<Wallet>, i: nat)
    requires i < |order|
    ensures Outside(order[..i + 1], s) == Outside(order[..i], s) + if order[i] in s then [] else [order[i]]
  {
    assert order[..i + 1][..i] == order[..i];
  }

  /** The loop may stop after `i` challengers: the rest cannot change the backfill. */
  lemma BackfillDone(base: seq<Wallet>, order: seq<Wallet>, k: nat, i: nat)
    requires i <= |order|
    requires var n := |base| + |Outside(order[..i], Elems(base))|;
      (n >= k || i == |order|) && (n <= k || i == 0)
    ensures base + Outside(order[..i], Elems(base)) == Backfilled(base, order, k)
  {
    OutsidePrefix(order, Elems(base), i);
    if i == |order| { assert order[..i] == order; }
  }

  lemma OutsideMono(order: seq<Wallet>, s: set<Wallet>, q: nat, p: nat)
    requires q <= p <= |order|
    ensures |Outside(order[..q], s)| <= |Outside(order[..p], s)|
  {
    assert order[..p][..q] == order[..q];
    OutsidePrefix(order[..p], s, q);
  }

  lemma AlreadyKept(base: seq<Wallet>, order: seq<Wallet>, i: nat)
    requires Distinct(order) && i < |order|
    ensures order[i] in base + Outside(order[..i], Elems(base)) <==> order[i] in Elems(base)
  {
    OutsideMembers(order[..i], Elems(base));
  }

  method KnockoutStep(k: nat, prev: seq<Wallet>, scores: Scores, demoted: set<Wallet>)
    returns (kept: seq<Wallet>)
    requires ValidScores(scores)
    ensures kept == Knockout(k, prev, scores, demoted)
  {
    var base := Outside(prev, demoted);
    kept := base;
    var order := scores.order;
    var i := 0;
    while i < |order| && |kept| < k
      invariant 0 <= i <= |order|
      invariant kept == base + Outside(order[..i], Elems(base))
      invariant i == 0 || |kept| <= k
    {
      OutsideStep(order, Elems(base), i);
      AlreadyKept(base, order, i);
      if order[i] !in kept { kept := kept + [order[i]]; }
      i := i + 1;
    }
    BackfillDone(base, order, k, i);
    kept := Take(kept, k);
  }

  /** Membership: a survivor stays while it fits; anyone else, demoted or not, is admitted
      exactly when the survivors and the better-ranked non-survivors leave a slot. */
  lemma KnockoutMember(k: nat, prev: seq<Wallet>, scores: Scores, demoted: set<Wallet>, p: nat)
    requires ValidScores(scores) && p < |scores.order|
    requires scores.order[p] !in Outside(prev, demoted)
    ensures var base := Outside(prev, demoted);
      scores.order[p] in Knockout(k, prev, scores, demoted)
      <==> |base| + |Outside(scores.order[..p], Elems(base))| < k
  {
    var base, order := Outside(prev, demoted), scores.order;
    var w, outs := order[p], Outside(order, Elems(base));
    var before := Outside(order[..p], Elems(base));
    OutsideStep(order, Elems(base), p);
    OutsidePrefix(order, Elems(base), p + 1);
    OutsideMembers(order, Elems(base));
    assert outs[|before|] == w;
    if |base| < k {
      var room := k - |base|;
      if |before| < room { assert Take(outs, room)[|before|] == w; }
    }
  }

  /** The demotion does not bar a wallet that still ranks: it is backfilled again. */
  lemma DemotedReadmitted()
    ensures var scores := Scores(["a"], map["a" := 1]);
      ValidScores(scores) && "a" in Knockout(1, ["a"], scores, {"a"})
  {
    var scores := Scores(["a"], map["a" := 1]);
    assert scores.order[0] == "a";
    assert Outside(["a"], {"a"}) == [] by { assert ["a"][..0] == []; }
    KnockoutMember(1, ["a"], scores, {"a"}, 0);
  }

  /** Survivors keep their order at the front, nobody appears twice, and no slot stays empty
      while a wallet is available. */
  lemma KnockoutShape(k: nat, prev: seq<Wallet>, scores: Scores, demoted: set<Wallet>)
    requires ValidScores(scores) && Distinct(prev)
    ensures var base := Outside(prev, demoted); var r := Knockout(k, prev, scores, demoted);
      && Distinct(r) && |r| <= k
      && Take(base, k) <= r
      && (forall w :: w in r ==> w in base || w in scores.order)
      && (|r| < k ==> forall w :: w in base || w in scores.order ==> w in r)
  {
    var base, order := Outside(prev, demoted), scores.order;
    OutsideMembers(prev, demoted);
    OutsideMembers(order, Elems(base));
    var outs := Outside(order, Elems(base));
    assert forall i :: 0 <= i < |outs| ==> outs[i] in outs;
    assert forall i :: 0 <= i < |base| ==> base[i] in base;
  }

  ghost predicate Ascends(ws: seq<Wallet>, rank: map<Wallet, int>) {
    && (forall i :: 0 <= i < |ws| ==> ws[i] in rank)
    && (forall i, j :: 0 <= i < j < |ws| ==> rank[ws[i]] <= rank[ws[j]])
  }

  lemma {:induction false} OutsideAscends(ws: seq<Wallet>, s: set<Wallet>, rank: map<Wallet, int>)
    requires Ascends(ws, rank)
    ensures Ascends(Outside(ws, s), rank)
  {
    if ws != [] {
      var n := |ws| - 1;
      var r := Outside(ws[..n], s);
      OutsideAscends(ws[..n], s, rank);
      OutsideMembers(ws[..n], s);
      forall i | 0 <= i < |r| ensures rank[r[i]] <= rank[ws[n]] {
        assert r[i] in ws[..n];
        var k :| 0 <= k < n && ws[k] == r[i];
      }
    }
  }

  /** The admitted outsiders follow the survivors, best rank first. */
  lemma KnockoutOrder(k: nat, prev: seq<Wallet>, scores: Scores, demoted: set<Wallet>)
    requires ValidScores(scores) && |Outside(prev, demoted)| <= |Knockout(k, prev, scores, demoted)|
    ensures Ascends(Knockout(k, prev, scores, demoted)[|Outside(prev, demoted)|..], scores.rank)
  {
    var base, r := Outside(prev, demoted), Knockout(k, prev, scores, demoted);
    forall i | 0 <= i < |scores.order| ensures scores.order[i] in scores.rank { assert scores.order[i] in scores.order; }
    OutsideAscends(scores.order, Elems(base), scores.rank);
    assert r[|base|..] <= Outside(scores.order, Elems(base));
  }

  /** No admitted outsider is ranked behind one left out. */
  lemma KnockoutBestFirst(k: nat, prev: seq<Wallet>, scores: Scores, demoted: set<Wallet>, p: nat, q: nat)
    requires ValidScores(scores) && p < |scores.order| && q < |scores.order|
    requires scores.order[p] !in Outside(prev, demoted) && scores.order[p] in Knockout(k, prev, scores, demoted)
    requires scores.order[q] !in Outside(prev, demoted) && scores.order[q] !in Knockout(k, prev, scores, demoted)
    ensures p < q && scores.rank[scores.order[p]] <= scores.rank[scores.order[q]]
  {
    var s := Elems(Outside(prev, demoted));
    KnockoutMember(k, prev, scores, demoted, p);
    KnockoutMember(k, prev, scores, demoted, q);
    if q <= p { OutsideMono(scores.order, s, q, p); }
  }
}
