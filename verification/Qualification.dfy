/** Which first buys become positions, and what each diagnostic counts, in the run's parameters and
    the market tables alone; both engines are held to it. */
module Qualification {
  import opened Basics
  import opened FirstBuy
  import opened EngineParity

  ghost predicate Resolved(mk: Markets, m: string) { m in mk.resolutions && mk.resolutions[m].winner.Some? }

  ghost predicate Scheduled(mk: Markets, m: string) { m in mk.schedules && mk.schedules[m].Some? }

  /** `at` is the instant a position in market `m` is timed against: the scheduled end, or, where
      that is allowed and there is none, the resolution. */
  ghost predicate TimedBy(mk: Markets, prm: Params, m: string, at: int) {
    || (Scheduled(mk, m) && at == mk.schedules[m].value)
    || (!prm.scheduledOnly && !Scheduled(mk, m) && Resolved(mk, m) && at == mk.resolutions[m].resolvedAt)
  }

  ghost predicate Entered(t: Trade, prm: Params) { prm.winStart <= t.ts && t.ts < prm.winEnd }

  /** Neither too close to the reference nor too far from it. */
  ghost predicate Timely(t: Trade, prm: Params, at: int) {
    at - t.ts >= prm.minTtr && at - t.ts >= 1 && at - t.ts < prm.ttr
  }

  ghost predicate Priced(t: Trade, parse: string -> Option<real>, x: real) {
    parse(t.priceStr) == Some(x) && x > 0.0 && x < 1.0
  }

  ghost predicate InBand(prm: Params, x: real) { x >= prm.priceMin && x <= prm.priceMax }

  /** First buy `t` is reported as position `p`. */
  ghost predicate Reports(t: Trade, p: Position, prm: Params, mk: Markets, parse: string -> Option<real>) {
    && p.market == t.market && p.outcome == t.outcome && p.entry == t.ts && p.contracts == t.contracts
    && Entered(t, prm)
    && TimedBy(mk, prm, t.market, t.ts + p.ttr) && Timely(t, prm, t.ts + p.ttr)
    && Resolved(mk, t.market) && p.resolvedAt == mk.resolutions[t.market].resolvedAt
    && Priced(t, parse, p.price) && InBand(prm, p.price)
    && (t.outcome == mk.resolutions[t.market].winner.value ==> p.payoff == 1.0)
    && (t.outcome != mk.resolutions[t.market].winner.value ==> p.payoff == 0.0)
  }

  /** What the diagnostic `c` counts. */
  ghost predicate FallsUnder(c: Counter, t: Trade, prm: Params, mk: Markets, parse: string -> Option<real>) {
    match c
    case COutOfWindow => !Entered(t, prm)
    case CNoRef => Entered(t, prm) && !exists at :: TimedBy(mk, prm, t.market, at)
    case CTtrFail => Entered(t, prm) && exists at :: TimedBy(mk, prm, t.market, at) && !Timely(t, prm, at)
    case CUnresolved =>
      Entered(t, prm) && !Resolved(mk, t.market) && exists at :: TimedBy(mk, prm, t.market, at) && Timely(t, prm, at)
    case CBadPrice =>
      && Entered(t, prm) && Resolved(mk, t.market) && !(exists x :: Priced(t, parse, x))
      && exists at :: TimedBy(mk, prm, t.market, at) && Timely(t, prm, at)
    case COutOfBand =>
      && Entered(t, prm) && Resolved(mk, t.market) && (exists x :: Priced(t, parse, x) && !InBand(prm, x))
      && exists at :: TimedBy(mk, prm, t.market, at) && Timely(t, prm, at)
    case CQualified => exists p :: Reports(t, p, prm, mk, parse)
  }

  /** The reference of a market, if it has one, is one instant. */
  ghost function Reference(mk: Markets, prm: Params, m: string): (at: Option<int>)
    ensures forall x :: TimedBy(mk, prm, m, x) <==> at == Some(x)
  {
    if Scheduled(mk, m) then mk.schedules[m]
    else if !prm.scheduledOnly && Resolved(mk, m) then Some(mk.resolutions[m].resolvedAt)
    else None
  }

  /** The filter chain qualifies a first buy exactly as that position. */
  lemma QualifiedIff(t: Trade, prm: Params, mk: Markets, parse: string -> Option<real>, p: Position)
    ensures Judge(t, prm, mk, parse) == Qualified(p) <==> Reports(t, p, prm, mk, parse)
  {
    var at := Reference(mk, prm, t.market);
    assert Reports(t, p, prm, mk, parse) ==> at == Some(t.ts + p.ttr);
  }

  /** The filter chain gives each verdict exactly under its condition. */
  lemma VerdictIff(t: Trade, prm: Params, mk: Markets, parse: string -> Option<real>, c: Counter)
    ensures Counts(c, Judge(t, prm, mk, parse)) <==> FallsUnder(c, t, prm, mk, parse)
  {
    var at, v := Reference(mk, prm, t.market), Judge(t, prm, mk, parse);
    if at.Some? { assert TimedBy(mk, prm, t.market, at.value); }
    var price := parse(t.priceStr);
    if price.Some? && 0.0 < price.value < 1.0 { assert Priced(t, parse, price.value); }
    if c.CQualified? {
      if v.Qualified? { QualifiedIff(t, prm, mk, parse, v.position); }
      if exists p :: Reports(t, p, prm, mk, parse) {
        var p :| Reports(t, p, prm, mk, parse);
        QualifiedIff(t, prm, mk, parse, p);
      }
    }
  }

  // ---------- the scan ----------

  /** The scan reports a position exactly when it is that of the market's first buy. */
  lemma ScanReports(rows: seq<Trade>, w: string, first: map<string, Trade>, order: seq<string>,
                    prm: Params, mk: Markets, parse: string -> Option<real>, p: Position)
    requires ScanState(first, order, rows, w)
    ensures p in PositionsOf(order, first, prm, mk, parse) <==>
      exists t :: IsFirst(t, rows, w, p.market) && Reports(t, p, prm, mk, parse)
  {
    InPositions(order, first, prm, mk, parse, p);
    if p.market in first {
      var f := first[p.market];
      QualifiedIff(f, prm, mk, parse, p);
      assert IsFirst(f, rows, w, p.market);
      forall t | IsFirst(t, rows, w, p.market) ensures t == f { FirstIsUnique(t, f, rows, w, p.market); }
    }
  }

  lemma {:induction false} MarketsOnce(rows: seq<Trade>)
    ensures Distinct(MarketsOf(rows))
  {
    if rows != [] { MarketsOnce(rows[..|rows| - 1]); }
  }

  ghost function Passing(order: seq<string>, test: string -> bool): set<string> { set m | m in order && test(m) }

  lemma OneMorePassing(order: seq<string>, m: string, test: string -> bool)
    requires m !in order
    ensures |Passing(order + [m], test)| == |Passing(order, test)| + if test(m) then 1 else 0
  {
    assert Passing(order + [m], test) == Passing(order, test) + if test(m) then {m} else {};
  }

  /** The number of listed markets whose first buy falls under `c`. */
  ghost function Under(order: seq<string>, first: map<string, Trade>, c: Counter, prm: Params, mk: Markets, parse: string -> Option<real>): nat {
    |Passing(order, m => m in first && FallsUnder(c, first[m], prm, mk, parse))|
  }

  /** Every diagnostic is the number of markets whose first buy falls under it. */
  lemma {:induction false} DiagnosticsCount(order: seq<string>, first: map<string, Trade>, c: Counter, prm: Params, mk: Markets, parse: string -> Option<real>)
    requires Distinct(order) && forall m :: m in order ==> m in first
    ensures CountOf(order, first, prm, mk, parse, c) == Under(order, first, c, prm, mk, parse)
  {
    if order != [] {
      var n := |order| - 1;
      DiagnosticsCount(order[..n], first, c, prm, mk, parse);
      VerdictIff(first[order[n]], prm, mk, parse, c);
      assert order == order[..n] + [order[n]] && order[n] !in order[..n];
      OneMorePassing(order[..n], order[n], m => m in first && FallsUnder(c, first[m], prm, mk, parse));
    }
  }

  /** The whole scan of a wallet: it reports exactly the positions of its first buys, in the order
      of their markets' first rows, and every diagnostic grows by the number of first buys that
      fall under it. */
  method ScanAndFilter(rows: seq<Trade>, w: string, prm: Params, mk: Markets, parse: string -> Option<real>, diag0: Diag)
    returns (positions: seq<Position>, diag: Diag, ghost first: map<string, Trade>)
    requires Cursor(rows, w)
    ensures ScanState(first, MarketsOf(rows), rows, w)
    ensures positions == PositionsOf(MarketsOf(rows), first, prm, mk, parse)
    ensures forall p :: p in positions <==> exists t :: IsFirst(t, rows, w, p.market) && Reports(t, p, prm, mk, parse)
    ensures diag.firstBuys == diag0.firstBuys + |MarketsOf(rows)|
    ensures forall c :: Reading(diag, c) == Reading(diag0, c) + Under(MarketsOf(rows), first, c, prm, mk, parse)
  {
    var firstBuys, markets := Scan(rows, w);
    first := firstBuys;
    positions, diag := Filter(markets, firstBuys, prm, mk, parse, diag0);
    MarketsOnce(rows);
    forall p ensures p in positions <==> exists t :: IsFirst(t, rows, w, p.market) && Reports(t, p, prm, mk, parse) {
      ScanReports(rows, w, firstBuys, markets, prm, mk, parse, p);
    }
    forall c ensures Reading(diag, c) == Reading(diag0, c) + Under(markets, firstBuys, c, prm, mk, parse) {
      DiagnosticsCount(markets, firstBuys, c, prm, mk, parse);
    }
  }

  // ---------- the extract ----------

  lemma QueryIff(t: Trade, prm: Params, mk: Markets, parse: string -> Option<real>, p: Position)
    ensures Query(t, prm, MaxInt(prm.minTtr, 1), mk, parse) == Some(p) <==> Reports(t, p, prm, mk, parse)
  {
    SameVerdict(t, prm, mk, parse);
    QualifiedIff(t, prm, mk, parse, p);
  }

  const HEX_DIGITS := "0123456789abcdef"

  /** The id shape the extract insists on: `0x` and 64 lower-case hex digits. */
  ghost predicate Shaped(id: string) {
    |id| == 66 && id[0] == '0' && id[1] == 'x' && forall i :: 2 <= i < 66 ==> id[i] in HEX_DIGITS
  }

  lemma HexDigits(c: char)
    ensures HexChar(c) <==> c in HEX_DIGITS
  {
    if HexChar(c) { assert HEX_DIGITS[Digit(c)] == c; }
  }

  lemma ShapedIff(id: string)
    ensures WellFormedId(id) <==> Shaped(id)
  {
    if |id| == 66 {
      assert id[..2] == [id[0], id[1]];
      forall i | 2 <= i < 66 ensures id[2..][i - 2] == id[i] && (HexChar(id[i]) <==> id[i] in HEX_DIGITS) { HexDigits(id[i]); }
      assert Hex(id[2..]) <==> forall i :: 2 <= i < 66 ==> HexChar(id[i]) by {
        if Hex(id[2..]) {
          forall i | 2 <= i < 66 ensures HexChar(id[i]) { assert HexChar(id[2..][i - 2]); }
        }
      }
    }
  }

  ghost function BadIds(tape: seq<Trade>): set<int> { set i | 0 <= i < |tape| && !Shaped(tape[i].id) }

  lemma {:induction false} MalformedCount(tape: seq<Trade>)
    ensures Malformed(tape) == |BadIds(tape)|
  {
    if tape == [] {
      assert BadIds(tape) == {};
    } else {
      var n := |tape| - 1;
      MalformedCount(tape[..n]);
      ShapedIff(tape[n].id);
      assert BadIds(tape) == BadIds(tape[..n]) + if Shaped(tape[n].id) then {} else {n};
    }
  }

  /** So does the extract, unless it halts; and it halts exactly on a malformed id, with their
      number. */
  lemma ExtractReports(tape: seq<Trade>, w: string, prm: Params, mk: Markets, parse: string -> Option<real>, p: Position)
    requires UniqueIds(tape)
    ensures var x := DuckExtract(tape, w, p.market, prm, mk, parse);
      && (x.Halted? <==> exists t :: t in tape && !Shaped(t.id))
      && (x.Halted? ==> x.bad == |BadIds(tape)|)
      && (x == Answer(Some(p)) <==>
            && (forall t :: t in tape ==> Shaped(t.id))
            && exists t :: IsFirst(t, tape, w, p.market) && Reports(t, p, prm, mk, parse))
  {
    NoneMalformed(tape);
    MalformedCount(tape);
    forall t | t in tape ensures WellFormedId(t.id) <==> Shaped(t.id) { ShapedIff(t.id); }
    if Malformed(tape) == 0 {
      ArgMinIsFirst(tape, w, p.market);
      var best := ArgMin(tape, w, p.market);
      if best.Some? {
        QueryIff(best.value, prm, mk, parse, p);
        forall t | IsFirst(t, tape, w, p.market) ensures t == best.value { FirstIsUnique(t, best.value, tape, w, p.market); }
      }
    }
  }
}
