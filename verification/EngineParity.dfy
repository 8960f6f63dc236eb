/** Both ranking engines pick the same first buy per wallet and market and qualify the same
    positions (`scripts/rank_72hr_buyandhold.py`, `scripts/ranker_duck.py`). */
module EngineParity {
  import opened Basics
  import opened Text
  import opened FirstBuy

  // ---------- the scan ----------

  /** `rows` lists the buys of `w` in ascending time, ties in any order. */
  ghost predicate Listing(rows: seq<Trade>, tape: seq<Trade>, w: string) {
    && (forall t :: t in rows <==> t in tape && t.wallet == w && t.buy)
    && forall i, j :: 0 <= i < j < |rows| ==> rows[i].ts <= rows[j].ts
  }

  function AddMarket(ms: seq<string>, m: string): seq<string> { if m in ms then ms else ms + [m] }

  /** The markets in the order of their first row. */
  function MarketsOf(rows: seq<Trade>): seq<string> {
    if rows == [] then [] else AddMarket(MarketsOf(rows[..|rows| - 1]), rows[|rows| - 1].market)
  }

  /** The dictionary `first` and its insertion order, after the rows of `seen`. */
  ghost predicate ScanState(first: map<string, Trade>, order: seq<string>, seen: seq<Trade>, w: string) {
    && (forall m :: m in order <==> m in first)
    && (forall m :: m in first ==> IsFirst(first[m], seen, w, m))
    && (forall t :: t in seen ==> t.market in first)
  }

  /** The held first buy after one more buy of its market. */
  function Better(h: Trade, r: Trade): Trade { if r.ts == h.ts && Less(r.id, h.id) then r else h }

  lemma HeldStep(h: Trade, seen: seq<Trade>, r: Trade, w: string)
    requires UniqueIds(seen + [r]) && IsFirst(h, seen, w, r.market) && r.wallet == w && r.buy && h.ts <= r.ts
    ensures IsFirst(Better(h, r), seen + [r], w, r.market)
  {
    assert h in seen + [r] && r in seen + [r];
    if r.id != h.id { Connected(r.id, h.id); }
    if Better(h, r) == r && r != h {
      forall u | u in seen && BuyOf(u, w, r.market) && u != h && u.ts == h.ts ensures Less(r.id, u.id) {
        Transitive(r.id, h.id, u.id);
      }
    }
  }

  lemma NewStep(seen: seq<Trade>, r: Trade, w: string)
    requires r.wallet == w && r.buy && forall t :: t in seen ==> t.market != r.market
    ensures IsFirst(r, seen + [r], w, r.market)
  {
  }

  lemma OtherStep(h: Trade, seen: seq<Trade>, r: Trade, w: string, m: string)
    requires IsFirst(h, seen, w, m) && m != r.market
    ensures IsFirst(h, seen + [r], w, m)
  {
  }

  /** One row of the scan. */
  function Put(first: map<string, Trade>, r: Trade): map<string, Trade> {
    first[r.market := if r.market in first then Better(first[r.market], r) else r]
  }

  /** Writing back the held row changes nothing. */
  lemma PutIs(first: map<string, Trade>, r: Trade)
    ensures Put(first, r)
         == if r.market !in first || (r.ts == first[r.market].ts && Less(r.id, first[r.market].id))
            then first[r.market := r] else first
  {
  }

  lemma PutFirst(first: map<string, Trade>, order: seq<string>, seen: seq<Trade>, r: Trade, w: string, m: string)
    requires ScanState(first, order, seen, w) && UniqueIds(seen + [r]) && r.wallet == w && r.buy
    requires forall t :: t in seen ==> t.ts <= r.ts
    requires m in Put(first, r)
    ensures IsFirst(Put(first, r)[m], seen + [r], w, m)
  {
    if m != r.market { OtherStep(first[m], seen, r, w, m); }
    else if m in first { HeldStep(first[m], seen, r, w); }
    else { NewStep(seen, r, w); }
  }

  lemma ScanStep(first: map<string, Trade>, order: seq<string>, seen: seq<Trade>, r: Trade, w: string)
    requires ScanState(first, order, seen, w) && UniqueIds(seen + [r]) && r.wallet == w && r.buy
    requires forall t :: t in seen ==> t.ts <= r.ts
    ensures ScanState(Put(first, r), AddMarket(order, r.market), seen + [r], w)
  {
    forall m | m in Put(first, r) ensures IsFirst(Put(first, r)[m], seen + [r], w, m) {
      PutFirst(first, order, seen, r, w, m);
    }
  }

  lemma MarketsStep(rows: seq<Trade>, i: nat)
    requires i < |rows|
    ensures MarketsOf(rows[..i + 1]) == AddMarket(MarketsOf(rows[..i]), rows[i].market)
  {
    assert rows[..i + 1][..i] == rows[..i];
  }

  /** Market `m` first occurs at row `r`. */
  ghost predicate Appears(rows: seq<Trade>, m: string, r: int) {
    0 <= r < |rows| && rows[r].market == m && forall q :: 0 <= q < r ==> rows[q].market != m
  }

  lemma {:induction false} MarketsMembers(rows: seq<Trade>, m: string)
    ensures m in MarketsOf(rows) <==> exists r :: Appears(rows, m, r)
  {
    if rows != [] {
      var n := |rows| - 1;
      MarketsMembers(rows[..n], m);
      assert forall q :: 0 <= q < n ==> rows[..n][q] == rows[q];
      if r :| Appears(rows[..n], m, r) { assert Appears(rows, m, r); }
      if rows[n].market == m && !exists r :: Appears(rows[..n], m, r) {
        FirstOccurrence(rows, m);
      }
      if r :| Appears(rows, m, r) {
        if r < n { assert Appears(rows[..n], m, r); }
      }
    }
  }

  lemma {:induction false} FirstOccurrence(rows: seq<Trade>, m: string)
    requires exists q :: 0 <= q < |rows| && rows[q].market == m
    ensures exists r :: Appears(rows, m, r)
  {
    var n := |rows| - 1;
    assert forall q :: 0 <= q < n ==> rows[..n][q] == rows[q];
    if exists q :: 0 <= q < n && rows[q].market == m {
      var q :| 0 <= q < n && rows[q].market == m;
      assert rows[..n][q].market == m;
      FirstOccurrence(rows[..n], m);
      var r :| Appears(rows[..n], m, r);
      assert Appears(rows, m, r);
    } else {
      assert Appears(rows, m, n);
    }
  }

  /** The markets come in the order of their first rows. */
  lemma {:induction false} MarketsInOrder(rows: seq<Trade>, i: nat, j: nat, r: int, q: int)
    requires i < j < |MarketsOf(rows)| && Appears(rows, MarketsOf(rows)[i], r) && Appears(rows, MarketsOf(rows)[j], q)
    ensures r < q
  {
    var n := |rows| - 1;
    var ms := MarketsOf(rows[..n]);
    assert forall x :: 0 <= x < n ==> rows[..n][x] == rows[x];
    if j < |ms| {
      MarketsMembers(rows[..n], ms[i]);
      MarketsMembers(rows[..n], ms[j]);
      assert ms[i] in ms && ms[j] in ms;
      var a, b :| Appears(rows[..n], ms[i], a) && Appears(rows[..n], ms[j], b);
      assert a == r && b == q;
      MarketsInOrder(rows[..n], i, j, r, q);
    } else {
      MarketsMembers(rows[..n], ms[i]);
      assert ms[i] in ms;
      var a :| Appears(rows[..n], ms[i], a);
      assert a == r;
      MarketsMembers(rows[..n], rows[n].market);
      if q < n { assert Appears(rows[..n], rows[n].market, q); }
    }
  }

  /** The rows of a wallet's listing, as the cursor yields them. */
  ghost predicate Cursor(rows: seq<Trade>, w: string) {
    && UniqueIds(rows)
    && (forall j, k :: 0 <= j < k < |rows| ==> rows[j].ts <= rows[k].ts)
    && forall t :: t in rows ==> t.wallet == w && t.buy
  }

  lemma CursorStep(rows: seq<Trade>, w: string, i: nat, first: map<string, Trade>, order: seq<string>)
    requires Cursor(rows, w) && i < |rows| && ScanState(first, order, rows[..i], w)
    ensures ScanState(Put(first, rows[i]), AddMarket(order, rows[i].market), rows[..i + 1], w)
  {
    assert rows[..i + 1] == rows[..i] + [rows[i]];
    assert forall t :: t in rows[..i + 1] ==> t in rows;
    ScanStep(first, order, rows[..i], rows[i], w);
  }

  method Scan(rows: seq<Trade>, w: string) returns (first: map<string, Trade>, order: seq<string>)
    requires Cursor(rows, w)
    ensures ScanState(first, order, rows, w) && order == MarketsOf(rows)
  {
    first, order := map[], [];
    for i := 0 to |rows|
      invariant ScanState(first, order, rows[..i], w) && order == MarketsOf(rows[..i])
    {
      var r := rows[i];
      CursorStep(rows, w, i, first, order);
      MarketsStep(rows, i);
      PutIs(first, r);
      order := AddMarket(order, r.market);
      if r.market !in first || (r.ts == first[r.market].ts && Less(r.id, first[r.market].id)) {
        first := first[r.market := r];
      }
    }
    assert rows[..|rows|] == rows;
  }

  // ---------- the hash arg_min ----------

  function Key(t: Trade): seq<int>
    requires WellFormedId(t.id)
  {
    [t.ts] + Slices(t.id)
  }

  lemma KeyOrder(a: Trade, b: Trade)
    requires WellFormedId(a.id) && WellFormedId(b.id)
    ensures LexLess(Key(a), Key(b)) <==> Before(a, b)
  {
    SliceOrderIsTextOrder(a.id, b.id);
    assert Key(a)[1..] == Slices(a.id) && Key(b)[1..] == Slices(b.id);
  }

  /** `arg_min` over the group of `w` and `m`, rows in any order. */
  function ArgMin(tape: seq<Trade>, w: string, m: string): (r: Option<Trade>)
    requires forall t :: t in tape ==> WellFormedId(t.id)
    ensures r.Some? ==> r.value in tape
  {
    if tape == [] then None
    else
      var t := tape[|tape| - 1];
      var best := ArgMin(tape[..|tape| - 1], w, m);
      if BuyOf(t, w, m) && (best.None? || LexLess(Key(t), Key(best.value))) then Some(t) else best
  }

  lemma {:induction false} ArgMinIsFirst(tape: seq<Trade>, w: string, m: string)
    requires UniqueIds(tape) && forall t :: t in tape ==> WellFormedId(t.id)
    ensures match ArgMin(tape, w, m)
      case Some(t) => IsFirst(t, tape, w, m)
      case None => forall t :: t in tape ==> !BuyOf(t, w, m)
  {
    if tape != [] {
      var init, t := tape[..|tape| - 1], tape[|tape| - 1];
      assert tape == init + [t];
      ArgMinIsFirst(init, w, m);
      var best := ArgMin(init, w, m);
      if BuyOf(t, w, m) && best.Some? {
        var b := best.value;
        KeyOrder(t, b);
        if t.id != b.id { Connected(t.id, b.id); }
        if Before(t, b) {
          forall u | u in tape && BuyOf(u, w, m) && u != t ensures Before(t, u) {
            if u != b && t.ts == b.ts == u.ts { Transitive(t.id, b.id, u.id); }
          }
        }
      }
    }
  }

  /** The scan of any time-ordered listing and the hash aggregate pick the same row of every
      market, and the same markets. */
  lemma SameFirstBuys(tape: seq<Trade>, rows: seq<Trade>, w: string, m: string, first: map<string, Trade>, order: seq<string>)
    requires UniqueIds(tape) && forall t :: t in tape ==> WellFormedId(t.id)
    requires Listing(rows, tape, w) && ScanState(first, order, rows, w)
    ensures ArgMin(tape, w, m) == if m in first then Some(first[m]) else None
  {
    ArgMinIsFirst(tape, w, m);
    if m in first {
      assert IsFirst(first[m], tape, w, m);
      if ArgMin(tape, w, m).Some? { FirstIsUnique(first[m], ArgMin(tape, w, m).value, tape, w, m); }
    }
  }

  // ---------- qualification ----------

  datatype Resolution = Resolution(winner: Option<int>, resolvedAt: int)

  /** The market tables as stored; winners and end dates may be NULL. */
  datatype Markets = Markets(resolutions: map<string, Resolution>, schedules: map<string, Option<int>>)

  datatype Params = Params(
    winStart: int, winEnd: int, minTtr: int, ttr: int, scheduledOnly: bool, priceMin: real, priceMax: real)

  datatype Position = Position(
    market: string, outcome: int, entry: int, ttr: int, price: real, contracts: int, payoff: real, resolvedAt: int)

  datatype Verdict = OutOfWindow | NoRef | TtrFail | Unresolved | BadPrice | OutOfBand | Qualified(position: Position)

  function MaxInt(a: int, b: int): int { if a > b then a else b }

  /** The scan's filter chain, in its order. */
  function Judge(t: Trade, prm: Params, mk: Markets, parse: string -> Option<real>): Verdict {
    var m := t.market;
    var r := if m in mk.resolutions && mk.resolutions[m].winner.Some? then Some(mk.resolutions[m]) else None;
    var end := if m in mk.schedules then mk.schedules[m] else None;
    if !(prm.winStart <= t.ts < prm.winEnd) then OutOfWindow
    else
      var ref := if prm.scheduledOnly then end
                 else if end.Some? then end
                 else if r.Some? then Some(r.value.resolvedAt) else None;
      if ref.None? then NoRef
      else
        var ttr := ref.value - t.ts;
        if ttr < MaxInt(prm.minTtr, 1) || ttr >= prm.ttr then TtrFail
        else if r.None? then Unresolved
        else
          var price := parse(t.priceStr);
          if price.None? || !(0.0 < price.value < 1.0) then BadPrice
          else if !(prm.priceMin <= price.value <= prm.priceMax) then OutOfBand
          else Qualified(Position(m, t.outcome, t.ts, ttr, price.value, t.contracts,
                                  if Some(t.outcome) == r.value.winner then 1.0 else 0.0, r.value.resolvedAt))
  }

  /** The query's joins and WHERE clause, for the grouped first buy of a market. */
  function Query(fb: Trade, prm: Params, ttrLo: int, mk: Markets, parse: string -> Option<real>): Option<Position> {
    var m := fb.market;
    // inner join: a resolution with a winner
    if m !in mk.resolutions || mk.resolutions[m].winner.None? then None
    else
      var r := mk.resolutions[m];
      // left join: a schedule with an end date, if any
      var end := if m in mk.schedules then mk.schedules[m] else None;
      var ref := if prm.scheduledOnly then end else Some(if end.Some? then end.value else r.resolvedAt);
      var price := parse(fb.priceStr);
      if && fb.ts >= prm.winStart && fb.ts < prm.winEnd
         && ref.Some?
         && ref.value - fb.ts >= ttrLo && ref.value - fb.ts < prm.ttr
         && price.Some?
         && price.value > 0.0 && price.value < 1.0
         && price.value >= prm.priceMin && price.value <= prm.priceMax
      then Some(Position(m, fb.outcome, fb.ts, ref.value - fb.ts, price.value, fb.contracts,
                         if fb.outcome == r.winner.value then 1.0 else 0.0, r.resolvedAt))
      else None
  }

  lemma SameVerdict(t: Trade, prm: Params, mk: Markets, parse: string -> Option<real>)
    ensures Query(t, prm, MaxInt(prm.minTtr, 1), mk, parse)
         == match Judge(t, prm, mk, parse) case Qualified(p) => Some(p) case _ => None
  {
  }

  /** Counters of the scan. */
  datatype Diag = Diag(
    firstBuys: nat, outOfWindow: nat, noRef: nat, ttrFail: nat, unresolved: nat, badPrice: nat, outOfBand: nat, qualified: nat)

  function Tally(d: Diag, v: Verdict): Diag {
    match v
    case OutOfWindow => d.(outOfWindow := d.outOfWindow + 1)
    case NoRef => d.(noRef := d.noRef + 1)
    case TtrFail => d.(ttrFail := d.ttrFail + 1)
    case Unresolved => d.(unresolved := d.unresolved + 1)
    case BadPrice => d.(badPrice := d.badPrice + 1)
    case OutOfBand => d.(outOfBand := d.outOfBand + 1)
    case Qualified(_) => d.(qualified := d.qualified + 1)
  }

  /** The qualified positions of the markets of `order`, in that order. */
  function PositionsOf(order: seq<string>, first: map<string, Trade>, prm: Params, mk: Markets, parse: string -> Option<real>): seq<Position>
    requires forall m :: m in order ==> m in first
  {
    if order == [] then []
    else
      var v := Judge(first[order[|order| - 1]], prm, mk, parse);
      PositionsOf(order[..|order| - 1], first, prm, mk, parse) + if v.Qualified? then [v.position] else []
  }

  datatype Counter = COutOfWindow | CNoRef | CTtrFail | CUnresolved | CBadPrice | COutOfBand | CQualified

  function Reading(d: Diag, c: Counter): nat {
    match c
    case COutOfWindow => d.outOfWindow
    case CNoRef => d.noRef
    case CTtrFail => d.ttrFail
    case CUnresolved => d.unresolved
    case CBadPrice => d.badPrice
    case COutOfBand => d.outOfBand
    case CQualified => d.qualified
  }

  predicate Counts(c: Counter, v: Verdict) {
    match c
    case COutOfWindow => v.OutOfWindow?
    case CNoRef => v.NoRef?
    case CTtrFail => v.TtrFail?
    case CUnresolved => v.Unresolved?
    case CBadPrice => v.BadPrice?
    case COutOfBand => v.OutOfBand?
    case CQualified => v.Qualified?
  }

  /** How many first buys of `order` got the verdict of counter `c`. */
  function CountOf(order: seq<string>, first: map<string, Trade>, prm: Params, mk: Markets, parse: string -> Option<real>, c: Counter): nat
    requires forall m :: m in order ==> m in first
  {
    if order == [] then 0
    else
      var v := Judge(first[order[|order| - 1]], prm, mk, parse);
      CountOf(order[..|order| - 1], first, prm, mk, parse, c) + if Counts(c, v) then 1 else 0
  }

  /** Every counter has grown by the number of its verdicts. */
  ghost predicate Tallied(d0: Diag, d: Diag, order: seq<string>, first: map<string, Trade>, prm: Params, mk: Markets, parse: string -> Option<real>)
    requires forall m :: m in order ==> m in first
  {
    forall c :: Reading(d, c) == Reading(d0, c) + CountOf(order, first, prm, mk, parse, c)
  }

  lemma TallyStep(d: Diag, v: Verdict, c: Counter)
    ensures Tally(d, v).firstBuys == d.firstBuys
    ensures Reading(Tally(d, v), c) == Reading(d, c) + if Counts(c, v) then 1 else 0
  {
  }

  lemma OneMoreMarket(d0: Diag, d: Diag, order: seq<string>, i: nat, first: map<string, Trade>, prm: Params, mk: Markets, parse: string -> Option<real>)
    requires i < |order| && (forall m :: m in order ==> m in first) && Tallied(d0, d, order[..i], first, prm, mk, parse)
    ensures Tallied(d0, Tally(d, Judge(first[order[i]], prm, mk, parse)), order[..i + 1], first, prm, mk, parse)
  {
    var v := Judge(first[order[i]], prm, mk, parse);
    assert order[..i + 1][..i] == order[..i];
    forall c ensures Reading(Tally(d, v), c) == Reading(d0, c) + CountOf(order[..i + 1], first, prm, mk, parse, c) {
      TallyStep(d, v, c);
    }
  }

  lemma OneMorePosition(order: seq<string>, i: nat, first: map<string, Trade>, prm: Params, mk: Markets, parse: string -> Option<real>)
    requires i < |order| && forall m :: m in order ==> m in first
    ensures var v := Judge(first[order[i]], prm, mk, parse);
      PositionsOf(order[..i + 1], first, prm, mk, parse)
      == PositionsOf(order[..i], first, prm, mk, parse) + if v.Qualified? then [v.position] else []
  {
    assert order[..i + 1][..i] == order[..i];
  }

  /** Each first buy is counted in exactly one diagnostic. */
  lemma {:induction false} CountedSomewhere(order: seq<string>, first: map<string, Trade>, prm: Params, mk: Markets, parse: string -> Option<real>)
    requires forall m :: m in order ==> m in first
    ensures CountOf(order, first, prm, mk, parse, COutOfWindow) + CountOf(order, first, prm, mk, parse, CNoRef)
          + CountOf(order, first, prm, mk, parse, CTtrFail) + CountOf(order, first, prm, mk, parse, CUnresolved)
          + CountOf(order, first, prm, mk, parse, CBadPrice) + CountOf(order, first, prm, mk, parse, COutOfBand)
          + CountOf(order, first, prm, mk, parse, CQualified) == |order|
    ensures CountOf(order, first, prm, mk, parse, CQualified) == |PositionsOf(order, first, prm, mk, parse)|
  {
    if order != [] { CountedSomewhere(order[..|order| - 1], first, prm, mk, parse); }
  }

  /** The filter chain over the first buys, in the dictionary's order. */
  method Filter(markets: seq<string>, first: map<string, Trade>, prm: Params, mk: Markets, parse: string -> Option<real>, diag0: Diag)
    returns (positions: seq<Position>, diag: Diag)
    requires forall m :: m in markets ==> m in first
    ensures positions == PositionsOf(markets, first, prm, mk, parse)
    ensures diag.firstBuys == diag0.firstBuys + |markets|
    ensures Tallied(diag0, diag, markets, first, prm, mk, parse)
  {
    positions, diag := [], diag0.(firstBuys := diag0.firstBuys + |markets|);
    for i := 0 to |markets|
      invariant positions == PositionsOf(markets[..i], first, prm, mk, parse)
      invariant diag.firstBuys == diag0.firstBuys + |markets|
      invariant Tallied(diag0, diag, markets[..i], first, prm, mk, parse)
    {
      var v := Judge(first[markets[i]], prm, mk, parse);
      OneMorePosition(markets, i, first, prm, mk, parse);
      OneMoreMarket(diag0, diag, markets, i, first, prm, mk, parse);
      TallyStep(diag, v, CQualified);
      diag := Tally(diag, v);
      if v.Qualified? { positions := positions + [v.position]; }
    }
    assert markets[..|markets|] == markets;
  }

  // ---------- parity ----------

  /** The query's answer for one wallet and market. */
  function DuckPosition(tape: seq<Trade>, w: string, m: string, prm: Params, mk: Markets, parse: string -> Option<real>): Option<Position>
    requires forall t :: t in tape ==> WellFormedId(t.id)
  {
    var fb := ArgMin(tape, w, m);
    if fb.None? then None else Query(fb.value, prm, MaxInt(prm.minTtr, 1), mk, parse)
  }

  lemma {:induction false} InPositions(order: seq<string>, first: map<string, Trade>, prm: Params, mk: Markets, parse: string -> Option<real>, p: Position)
    requires forall m :: m in order ==> m in first && first[m].market == m
    ensures p in PositionsOf(order, first, prm, mk, parse)
      <==> p.market in order && Judge(first[p.market], prm, mk, parse) == Qualified(p)
  {
    if order != [] {
      var n := |order| - 1;
      InPositions(order[..n], first, prm, mk, parse, p);
      assert order == order[..n] + [order[n]];
    }
  }

  /** `_assert_slice_key_premise` halts the extract on any malformed id. */
  datatype Extract = Halted(bad: nat) | Answer(position: Option<Position>)

  function Malformed(tape: seq<Trade>): nat {
    if tape == [] then 0
    else Malformed(tape[..|tape| - 1]) + if WellFormedId(tape[|tape| - 1].id) then 0 else 1
  }

  lemma {:induction false} NoneMalformed(tape: seq<Trade>)
    ensures Malformed(tape) == 0 <==> forall t :: t in tape ==> WellFormedId(t.id)
  {
    if tape != [] {
      var n := |tape| - 1;
      NoneMalformed(tape[..n]);
      assert tape == tape[..n] + [tape[n]];
    }
  }

  function DuckExtract(tape: seq<Trade>, w: string, m: string, prm: Params, mk: Markets, parse: string -> Option<real>): Extract {
    if Malformed(tape) > 0 then Halted(Malformed(tape))
    else
      NoneMalformed(tape);
      Answer(DuckPosition(tape, w, m, prm, mk, parse))
  }

  /** Engine parity: for every tape with unique ids, every time-ordered listing of a wallet's
      buys and every position, the extract halts on a malformed id, and otherwise reports the
      position exactly when the scan does. */
  lemma SamePositions(tape: seq<Trade>, rows: seq<Trade>, w: string, prm: Params, mk: Markets, parse: string -> Option<real>,
                      first: map<string, Trade>, order: seq<string>, p: Position)
    requires UniqueIds(tape) && Listing(rows, tape, w) && ScanState(first, order, rows, w)
    ensures match DuckExtract(tape, w, p.market, prm, mk, parse)
      case Halted(_) => exists t :: t in tape && !WellFormedId(t.id)
      case Answer(x) => p in PositionsOf(order, first, prm, mk, parse) <==> x == Some(p)
  {
    NoneMalformed(tape);
    if Malformed(tape) == 0 { WellFormedParity(tape, rows, w, prm, mk, parse, first, order, p); }
  }

  lemma WellFormedParity(tape: seq<Trade>, rows: seq<Trade>, w: string, prm: Params, mk: Markets, parse: string -> Option<real>,
                         first: map<string, Trade>, order: seq<string>, p: Position)
    requires UniqueIds(tape) && forall t :: t in tape ==> WellFormedId(t.id)
    requires Listing(rows, tape, w) && ScanState(first, order, rows, w)
    ensures p in PositionsOf(order, first, prm, mk, parse) <==> DuckPosition(tape, w, p.market, prm, mk, parse) == Some(p)
  {
    SameFirstBuys(tape, rows, w, p.market, first, order);
    InPositions(order, first, prm, mk, parse, p);
    if p.market in first { SameVerdict(first[p.market], prm, mk, parse); }
  }
}
