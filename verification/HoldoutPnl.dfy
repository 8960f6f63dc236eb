/** P&L of classified round trips (`classify_round_trip`, `decompose` and `reconcile` of
    `scripts/holdout_baseline.py`). */
module HoldoutPnl {
  import opened Basics
  import opened RoundTrips

  datatype Exit = Sold | Held | HeldOpen

  datatype Record =
    | Unresolved(within: bool)
    | Resolved(c: real, e: real, r: real, x: real, exit: Exit, day: int, within: bool)

  /** A market's cached resolution: winning outcome, if any, and day. */
  datatype Cached = Cached(winner: Option<int>, day: int)

  function Classify(t: RoundTrip, resolutions: map<string, Cached>): Record {
    var m := t.key.market;
    if m !in resolutions || resolutions[m].winner.None? then Unresolved(t.close.Some?)
    else
      var r := if resolutions[m].winner.value == t.key.outcome then 1.0 else 0.0;
      if t.close.Some? && t.close.value.side.Sell? then
        Resolved(t.buy.contracts, t.buy.price, r, t.close.value.price, Sold, t.close.value.day, true)
      else if t.close.Some? && t.close.value.side.Resolution? then
        Resolved(t.buy.contracts, t.buy.price, r, r, Held, t.close.value.day, true)
      else Resolved(t.buy.contracts, t.buy.price, r, r, HeldOpen, resolutions[m].day, false)
  }

  function OnlyResolved(rs: seq<Record>): (out: seq<Record>)
    ensures forall i :: 0 <= i < |out| ==> out[i].Resolved?
  {
    if rs == [] then []
    else OnlyResolved(rs[..|rs| - 1]) + if rs[|rs| - 1].Resolved? then [rs[|rs| - 1]] else []
  }

  ghost predicate AllResolved(rs: seq<Record>) { forall i :: 0 <= i < |rs| ==> rs[i].Resolved? }

  // ---------- decomposition ----------

  function Contracts(rs: seq<Record>): real
    requires AllResolved(rs)
  {
    if rs == [] then 0.0 else Contracts(rs[..|rs| - 1]) + rs[|rs| - 1].c
  }

  function Pnl(t: Record): real
    requires t.Resolved?
  {
    t.c * (t.x - t.e)
  }

  function TotalPnl(rs: seq<Record>): real
    requires AllResolved(rs)
  {
    if rs == [] then 0.0 else TotalPnl(rs[..|rs| - 1]) + Pnl(rs[|rs| - 1])
  }

  function Edge(rs: seq<Record>): real
    requires AllResolved(rs)
  {
    if rs == [] then 0.0 else Edge(rs[..|rs| - 1]) + (rs[|rs| - 1].r - rs[|rs| - 1].e)
  }

  function Sizing(rs: seq<Record>, cbar: real): real
    requires AllResolved(rs)
  {
    if rs == [] then 0.0
    else Sizing(rs[..|rs| - 1], cbar) + (rs[|rs| - 1].c - cbar) * (rs[|rs| - 1].r - rs[|rs| - 1].e)
  }

  function ExitTiming(rs: seq<Record>): real
    requires AllResolved(rs)
  {
    if rs == [] then 0.0 else ExitTiming(rs[..|rs| - 1]) + rs[|rs| - 1].c * (rs[|rs| - 1].x - rs[|rs| - 1].r)
  }

  datatype Parts = Parts(n: nat, total: real, selection: real, sizing: real, exitTiming: real)

  function Decompose(records: seq<Record>): Parts {
    var rs := OnlyResolved(records);
    if rs == [] then Parts(0, 0.0, 0.0, 0.0, 0.0)
    else
      var cbar := Contracts(rs) / |rs| as real;
      Parts(|rs|, TotalPnl(rs), cbar * Edge(rs), Sizing(rs, cbar), ExitTiming(rs))
  }

  lemma OneRecord(c: real, e: real, r: real, x: real, cbar: real)
    ensures c * (x - e) == cbar * (r - e) + (c - cbar) * (r - e) + c * (x - r)
  {
  }

  lemma {:induction false} Additive(rs: seq<Record>, cbar: real)
    requires AllResolved(rs)
    ensures TotalPnl(rs) == cbar * Edge(rs) + Sizing(rs, cbar) + ExitTiming(rs)
  {
    if rs != [] {
      var n := |rs| - 1;
      var t := rs[n];
      Additive(rs[..n], cbar);
      OneRecord(t.c, t.e, t.r, t.x, cbar);
      Distribute(cbar, Edge(rs[..n]), t.r - t.e);
    }
  }

  lemma Distribute(a: real, x: real, y: real)
    ensures a * (x + y) == a * x + a * y
  {
  }

  /** The decomposition is exact for every set of records. */
  lemma DecompositionIsExact(records: seq<Record>)
    ensures var d := Decompose(records); d.total == d.selection + d.sizing + d.exitTiming
  {
    var rs := OnlyResolved(records);
    if rs != [] { Additive(rs, Contracts(rs) / |rs| as real); }
  }

  /** The centred product sum of size and edge. */
  function CoProduct(rs: seq<Record>, cbar: real, mean: real): real
    requires AllResolved(rs)
  {
    if rs == [] then 0.0
    else CoProduct(rs[..|rs| - 1], cbar, mean) + (rs[|rs| - 1].c - cbar) * ((rs[|rs| - 1].r - rs[|rs| - 1].e) - mean)
  }

  lemma CentreStep(co: real, sizing: real, k: real, n: real, c: real, cbar: real, edge: real, mean: real)
    requires co == sizing - mean * k + n * (mean * cbar)
    ensures co + (c - cbar) * (edge - mean)
         == sizing + (c - cbar) * edge - mean * (k + c) + (n + 1.0) * (mean * cbar)
  {
    assert (c - cbar) * (edge - mean) == (c - cbar) * edge - mean * c + mean * cbar;
    Distribute(mean, k, c);
    assert (n + 1.0) * (mean * cbar) == n * (mean * cbar) + mean * cbar;
  }

  lemma {:induction false} Centre(rs: seq<Record>, cbar: real, mean: real)
    requires AllResolved(rs)
    ensures CoProduct(rs, cbar, mean) == Sizing(rs, cbar) - mean * Contracts(rs) + |rs| as real * (mean * cbar)
  {
    if rs != [] {
      var n := |rs| - 1;
      var t := rs[n];
      Centre(rs[..n], cbar, mean);
      CentreStep(CoProduct(rs[..n], cbar, mean), Sizing(rs[..n], cbar), Contracts(rs[..n]), n as real,
                 t.c, cbar, t.r - t.e, mean);
    }
  }

  /** Sizing measures only how size and edge vary together: it is their centred product sum,
      for any centring of the edge. */
  lemma SizingIsCovariation(records: seq<Record>, mean: real)
    ensures var rs := OnlyResolved(records);
      rs != [] ==> Decompose(records).sizing == CoProduct(rs, Contracts(rs) / |rs| as real, mean)
  {
    var rs := OnlyResolved(records);
    if rs != [] {
      var n, total := |rs| as real, Contracts(rs);
      Centre(rs, total / n, mean);
      Quotient(n, mean, total);
    }
  }

  lemma Quotient(n: real, mean: real, total: real)
    requires n != 0.0
    ensures n * (mean * (total / n)) == mean * total
  {
    assert n * (total / n) == total;
    assert n * (mean * (total / n)) == mean * (n * (total / n));
  }

  /** Exit timing comes from sales alone: a position held to resolution exits at its outcome. */
  lemma {:induction false} ExitTimingFromSales(ts: seq<RoundTrip>, resolutions: map<string, Cached>, rs: seq<Record>)
    requires |rs| == |ts| && forall i :: 0 <= i < |ts| ==> rs[i] == Classify(ts[i], resolutions)
    requires forall i :: 0 <= i < |ts| ==> !(ts[i].close.Some? && ts[i].close.value.side.Sell?)
    ensures ExitTiming(OnlyResolved(rs)) == 0.0
  {
    if rs != [] {
      var n := |rs| - 1;
      ExitTimingFromSales(ts[..n], resolutions, rs[..n]);
      if rs[n].Resolved? {
        var out := OnlyResolved(rs[..n]);
        assert (out + [rs[n]])[..|out|] == out;
        assert rs[n].x == rs[n].r;
      } else {
        assert OnlyResolved(rs) == OnlyResolved(rs[..n]);
      }
    }
  }

  // ---------- the within-sim part and the rest ----------

  function Within(rs: seq<Record>, within: bool): (out: seq<Record>)
    requires AllResolved(rs)
    ensures AllResolved(out)
  {
    if rs == [] then []
    else Within(rs[..|rs| - 1], within) + if rs[|rs| - 1].within == within then [rs[|rs| - 1]] else []
  }

  lemma TotalPnlAppend(rs: seq<Record>, t: Record)
    requires AllResolved(rs) && t.Resolved?
    ensures TotalPnl(rs + [t]) == TotalPnl(rs) + Pnl(t)
  {
    assert (rs + [t])[..|rs|] == rs;
  }

  lemma {:induction false} WithinSplits(rs: seq<Record>)
    requires AllResolved(rs)
    ensures TotalPnl(rs) == TotalPnl(Within(rs, true)) + TotalPnl(Within(rs, false))
  {
    if rs != [] {
      var n := |rs| - 1;
      WithinSplits(rs[..n]);
      var mine, others := Within(rs[..n], rs[n].within), Within(rs[..n], !rs[n].within);
      assert Within(rs, rs[n].within) == mine + [rs[n]] && Within(rs, !rs[n].within) == others;
      TotalPnlAppend(mine, rs[n]);
    }
  }

  /** `reconcile`: the total, the part the simulation closed itself, and the difference. */
  function Reconcile(records: seq<Record>): (real, real, real) {
    var rs := OnlyResolved(records);
    var total, within := Decompose(rs).total, Decompose(Within(rs, true)).total;
    (total, within, total - within)
  }

  lemma {:induction false} ResolvedIsFixed(rs: seq<Record>)
    requires AllResolved(rs)
    ensures OnlyResolved(rs) == rs
  {
    if rs != [] {
      ResolvedIsFixed(rs[..|rs| - 1]);
      assert rs == rs[..|rs| - 1] + [rs[|rs| - 1]];
    }
  }

  /** The reported difference is exactly the P&L of the positions left open at the horizon. */
  lemma OpenPastHorizon(records: seq<Record>)
    ensures var (total, within, open) := Reconcile(records); var rs := OnlyResolved(records);
      total == TotalPnl(rs) && within == TotalPnl(Within(rs, true)) && open == TotalPnl(Within(rs, false))
  {
    var rs := OnlyResolved(records);
    ResolvedIsFixed(rs);
    ResolvedIsFixed(Within(rs, true));
    WithinSplits(rs);
  }
}
