/** The P&L decomposition in terms of the round trips themselves: the cash that went out and came
    back, and what each part would have been under another exit or another size. */
module HoldoutLaws {
  import opened Basics
  import opened RoundTrips
  import opened HoldoutPnl

  type Cache = map<string, Cached>

  /** The outcome of the trip's market is known. */
  ghost predicate Known(t: RoundTrip, res: Cache) { t.key.market in res && res[t.key.market].winner.Some? }

  ghost predicate SoldEarly(t: RoundTrip) { t.close.Some? && t.close.value.side == Sell }

  ghost predicate Won(t: RoundTrip, res: Cache)
    requires Known(t, res)
  {
    res[t.key.market].winner.value == t.key.outcome
  }

  /** What one contract brought back: the sale price, or 1 for a winning outcome and 0 for a losing
      one. */
  ghost function Back(t: RoundTrip, res: Cache): real
    requires Known(t, res)
  {
    if SoldEarly(t) then t.close.value.price else if Won(t, res) then 1.0 else 0.0
  }

  /** Cash in less cash out of one trip, if its outcome is known. */
  ghost function Flow(t: RoundTrip, res: Cache): real {
    if Known(t, res) then t.buy.contracts * (Back(t, res) - t.buy.price) else 0.0
  }

  ghost function Cash(ts: seq<RoundTrip>, res: Cache): real {
    if ts == [] then 0.0 else Cash(ts[..|ts| - 1], res) + Flow(ts[|ts| - 1], res)
  }

  function Records(ts: seq<RoundTrip>, res: Cache): seq<Record> {
    seq(|ts|, i requires 0 <= i < |ts| => Classify(ts[i], res))
  }

  lemma RecordsLast(ts: seq<RoundTrip>, res: Cache)
    requires ts != []
    ensures var n := |ts| - 1; var rs := OnlyResolved(Records(ts[..n], res));
      OnlyResolved(Records(ts, res)) == if Known(ts[n], res) then rs + [Classify(ts[n], res)] else rs
  {
    var n := |ts| - 1;
    assert Records(ts, res)[..n] == Records(ts[..n], res);
    assert Records(ts, res)[n] == Classify(ts[n], res);
  }

  ghost predicate Ended(s: Side) { s == Sell || s == Resolution }

  /** The closes are sales or resolutions, as the pairing leaves them. */
  ghost predicate Paired(ts: seq<RoundTrip>) {
    forall i :: 0 <= i < |ts| && ts[i].close.Some? ==> Ended(ts[i].close.value.side)
  }

  /** What a record says of its trip. */
  lemma ClassifyIs(t: RoundTrip, res: Cache)
    requires t.close.Some? ==> Ended(t.close.value.side)
    ensures Classify(t, res).within <==> t.close.Some?
    ensures Classify(t, res).Resolved? <==> Known(t, res)
    ensures Known(t, res) ==> var r := Classify(t, res);
      && r.c == t.buy.contracts && r.e == t.buy.price && r.x == Back(t, res)
      && r.r == (if Won(t, res) then 1.0 else 0.0)
      && r.day == (if t.close.Some? then t.close.value.day else res[t.key.market].day)
      && (r.exit.Sold? <==> SoldEarly(t)) && (r.exit.HeldOpen? <==> t.close.None?)
  {
  }

  /** The decomposition's total is the cash of the trips. */
  lemma {:induction false} TotalIsCash(ts: seq<RoundTrip>, res: Cache)
    requires Paired(ts)
    ensures TotalPnl(OnlyResolved(Records(ts, res))) == Cash(ts, res)
  {
    if ts != [] {
      var n := |ts| - 1;
      TotalIsCash(ts[..n], res);
      RecordsLast(ts, res);
      if Known(ts[n], res) {
        TripPnl(ts[n], res);
        TotalPnlAppend(OnlyResolved(Records(ts[..n], res)), Classify(ts[n], res));
      }
    }
  }

  lemma TripPnl(t: RoundTrip, res: Cache)
    requires Known(t, res) && (t.close.Some? ==> Ended(t.close.value.side))
    ensures Classify(t, res).Resolved? && Pnl(Classify(t, res)) == Flow(t, res)
  {
    ClassifyIs(t, res);
  }

  // ---------- the parts as what-ifs ----------

  /** The same trips, every one left open to its resolution. */
  ghost function LeftOpen(ts: seq<RoundTrip>): seq<RoundTrip> {
    seq(|ts|, i requires 0 <= i < |ts| => ts[i].(close := None))
  }

  /** The same trips, every one of size `c`. */
  ghost function Resized(ts: seq<RoundTrip>, c: real): seq<RoundTrip> {
    seq(|ts|, i requires 0 <= i < |ts| => ts[i].(buy := ts[i].buy.(contracts := c)))
  }

  lemma LeftOpenInit(ts: seq<RoundTrip>, c: real)
    requires ts != []
    ensures var n := |ts| - 1;
      && LeftOpen(ts)[..n] == LeftOpen(ts[..n]) && LeftOpen(ts)[n] == ts[n].(close := None)
      && Resized(LeftOpen(ts), c)[..n] == Resized(LeftOpen(ts[..n]), c)
      && Resized(LeftOpen(ts), c)[n] == RoundTrip(ts[n].key, ts[n].buy.(contracts := c), None)
  {
  }

  ghost function Timing(t: Record): real
    requires t.Resolved?
  {
    t.c * (t.x - t.r)
  }

  ghost function Bias(t: Record, c: real): real
    requires t.Resolved?
  {
    (t.c - c) * (t.r - t.e)
  }

  ghost function EvenGain(t: Record, c: real): real
    requires t.Resolved?
  {
    c * (t.r - t.e)
  }

  lemma PartsAppend(rs: seq<Record>, t: Record, c: real)
    requires AllResolved(rs) && t.Resolved?
    ensures ExitTiming(rs + [t]) == ExitTiming(rs) + Timing(t)
    ensures Sizing(rs + [t], c) == Sizing(rs, c) + Bias(t, c)
    ensures EvenGains(rs + [t], c) == EvenGains(rs, c) + EvenGain(t, c)
  {
    assert (rs + [t])[..|rs|] == rs;
    Distribute(c, Edge(rs), t.r - t.e);
  }

  ghost function EvenGains(rs: seq<Record>, c: real): real
    requires AllResolved(rs)
  {
    c * Edge(rs)
  }

  lemma HeldTerm(c: real, x: real, r: real, e: real)
    ensures c * (x - r) == c * (x - e) - c * (r - e)
  {
  }

  lemma SizeTerm(c: real, d: real, y: real)
    ensures (c - d) * y == c * y - d * y
  {
  }

  /** One trip left open, and of size `c`. */
  ghost function Even(t: RoundTrip, c: real): RoundTrip { RoundTrip(t.key, t.buy.(contracts := c), None) }

  lemma TripParts(t: RoundTrip, res: Cache, c: real)
    requires Known(t, res) && (t.close.Some? ==> Ended(t.close.value.side))
    ensures var r := Classify(t, res);
      && r.Resolved?
      && Timing(r) == Flow(t, res) - Flow(t.(close := None), res)
      && Bias(r, c) == Flow(t.(close := None), res) - Flow(Even(t, c), res)
      && EvenGain(r, c) == Flow(Even(t, c), res)
  {
    var r := Classify(t, res);
    ClassifyIs(t, res);
    HeldTerm(r.c, r.x, r.r, r.e);
    SizeTerm(r.c, c, r.r - r.e);
  }

  /** Exit timing is what the sales changed, sizing what the sizes changed, and selection what
      even sizes held to resolution made. */
  ghost predicate WhatIfs(ts: seq<RoundTrip>, res: Cache, c: real, rs: seq<Record>)
    requires AllResolved(rs)
  {
    && ExitTiming(rs) == Cash(ts, res) - Cash(LeftOpen(ts), res)
    && Sizing(rs, c) == Cash(LeftOpen(ts), res) - Cash(Resized(LeftOpen(ts), c), res)
    && EvenGains(rs, c) == Cash(Resized(LeftOpen(ts), c), res)
  }

  lemma WhatIfsStep(ts: seq<RoundTrip>, res: Cache, c: real, rs: seq<Record>)
    requires ts != [] && AllResolved(rs) && WhatIfs(ts[..|ts| - 1], res, c, rs)
    requires Known(ts[|ts| - 1], res) && (ts[|ts| - 1].close.Some? ==> Ended(ts[|ts| - 1].close.value.side))
    ensures Classify(ts[|ts| - 1], res).Resolved? && WhatIfs(ts, res, c, rs + [Classify(ts[|ts| - 1], res)])
  {
    var t := Classify(ts[|ts| - 1], res);
    TripParts(ts[|ts| - 1], res, c);
    LeftOpenInit(ts, c);
    PartsAppend(rs, t, c);
  }

  lemma {:induction false} PartsAreWhatIfs(ts: seq<RoundTrip>, res: Cache, c: real)
    requires Paired(ts)
    ensures WhatIfs(ts, res, c, OnlyResolved(Records(ts, res)))
  {
    if ts != [] {
      var n := |ts| - 1;
      PartsAreWhatIfs(ts[..n], res, c);
      RecordsLast(ts, res);
      if Known(ts[n], res) {
        WhatIfsStep(ts, res, c, OnlyResolved(Records(ts[..n], res)));
      } else {
        LeftOpenInit(ts, c);
      }
    }
  }

  /** The average size of the records. */
  ghost function AverageSize(rs: seq<Record>): real
    requires AllResolved(rs)
  {
    if rs == [] then 0.0 else Contracts(rs) / |rs| as real
  }

  lemma DecomposeParts(records: seq<Record>, c: real)
    requires c == AverageSize(OnlyResolved(records))
    ensures var d := Decompose(records); var rs := OnlyResolved(records);
      && d.n == |rs| && d.total == TotalPnl(rs) && d.exitTiming == ExitTiming(rs)
      && d.sizing == Sizing(rs, c) && d.selection == EvenGains(rs, c)
  {
  }

  /** The decomposition of every set of paired trips: the total is their cash, and with the average
      size of the trips of known outcome its parts are those what-ifs. */
  lemma DecompositionMeans(ts: seq<RoundTrip>, res: Cache)
    requires Paired(ts)
    ensures var d := Decompose(Records(ts, res)); var c := AverageSize(OnlyResolved(Records(ts, res)));
      && d.total == Cash(ts, res)
      && d.exitTiming == Cash(ts, res) - Cash(LeftOpen(ts), res)
      && d.sizing == Cash(LeftOpen(ts), res) - Cash(Resized(LeftOpen(ts), c), res)
      && d.selection == Cash(Resized(LeftOpen(ts), c), res)
  {
    var c := AverageSize(OnlyResolved(Records(ts, res)));
    TotalIsCash(ts, res);
    PartsAreWhatIfs(ts, res, c);
    DecomposeParts(Records(ts, res), c);
  }

  // ---------- closed by the simulation or not ----------

  /** The trips the simulation closed, or those it left open. */
  ghost function Ending(ts: seq<RoundTrip>, closed: bool): seq<RoundTrip> {
    if ts == [] then []
    else Ending(ts[..|ts| - 1], closed) + if ts[|ts| - 1].close.Some? == closed then [ts[|ts| - 1]] else []
  }

  lemma CashAppend(ts: seq<RoundTrip>, t: RoundTrip, res: Cache)
    ensures Cash(ts + [t], res) == Cash(ts, res) + Flow(t, res)
  {
    assert (ts + [t])[..|ts|] == ts;
  }

  lemma EndingLast(ts: seq<RoundTrip>, res: Cache, closed: bool)
    requires ts != []
    ensures var n := |ts| - 1;
      Cash(Ending(ts, closed), res) == Cash(Ending(ts[..n], closed), res) + if ts[n].close.Some? == closed then Flow(ts[n], res) else 0.0
  {
    var n := |ts| - 1;
    if ts[n].close.Some? == closed {
      CashAppend(Ending(ts[..n], closed), ts[n], res);
    } else {
      assert Ending(ts, closed) == Ending(ts[..n], closed);
    }
  }

  lemma WithinAppend(rs: seq<Record>, t: Record, within: bool)
    requires AllResolved(rs) && t.Resolved?
    ensures TotalPnl(Within(rs + [t], within)) == TotalPnl(Within(rs, within)) + if t.within == within then Pnl(t) else 0.0
  {
    assert (rs + [t])[..|rs|] == rs;
    if t.within == within {
      TotalPnlAppend(Within(rs, within), t);
    } else {
      assert Within(rs + [t], within) == Within(rs, within);
    }
  }

  ghost function OpenOrClosed(ts: seq<RoundTrip>, res: Cache, closed: bool): real {
    TotalPnl(Within(OnlyResolved(Records(ts, res)), closed))
  }

  lemma OpenOrClosedLast(ts: seq<RoundTrip>, res: Cache, closed: bool)
    requires ts != [] && (ts[|ts| - 1].close.Some? ==> Ended(ts[|ts| - 1].close.value.side))
    ensures var n := |ts| - 1;
      OpenOrClosed(ts, res, closed) == OpenOrClosed(ts[..n], res, closed) + if ts[n].close.Some? == closed then Flow(ts[n], res) else 0.0
  {
    var n := |ts| - 1;
    RecordsLast(ts, res);
    if Known(ts[n], res) {
      TripPnl(ts[n], res);
      TripWithin(ts[n], res);
      WithinAppend(OnlyResolved(Records(ts[..n], res)), Classify(ts[n], res), closed);
    }
  }

  lemma TripWithin(t: RoundTrip, res: Cache)
    requires t.close.Some? ==> Ended(t.close.value.side)
    ensures Classify(t, res).within <==> t.close.Some?
  {
  }

  lemma {:induction false} WithinIsCash(ts: seq<RoundTrip>, res: Cache, closed: bool)
    requires Paired(ts)
    ensures OpenOrClosed(ts, res, closed) == Cash(Ending(ts, closed), res)
  {
    if ts != [] {
      WithinIsCash(ts[..|ts| - 1], res, closed);
      OpenOrClosedLast(ts, res, closed);
      EndingLast(ts, res, closed);
    }
  }

  /** The reconciliation of every set of paired trips: all cash, the cash of the trips the
      simulation closed, and the cash of those it left open. */
  lemma ReconcileMeans(ts: seq<RoundTrip>, res: Cache)
    requires Paired(ts)
    ensures Reconcile(Records(ts, res)) == (Cash(ts, res), Cash(Ending(ts, true), res), Cash(Ending(ts, false), res))
  {
    OpenPastHorizon(Records(ts, res));
    TotalIsCash(ts, res);
    WithinIsCash(ts, res, true);
    WithinIsCash(ts, res, false);
  }
}
