/** The daily P&L series and its largest drawdown (`daily_pnl_series`, `max_drawdown_usd`). */
module HoldoutSeries {
  import opened HoldoutPnl
  import opened Sums
  import opened Uniqueness

  // ---------- daily series ----------

  function DayTotal(rs: seq<Record>, d: int): real
    requires AllResolved(rs)
  {
    if rs == [] then 0.0
    else
      var t := rs[|rs| - 1];
      DayTotal(rs[..|rs| - 1], d) + if t.day == d then Pnl(t) else 0.0
  }

  /** The P&L of the given days, one after the other. */
  function Series(rs: seq<Record>, days: seq<int>): seq<(int, real)>
    requires AllResolved(rs)
  {
    seq(|days|, i requires 0 <= i < |days| => (days[i], DayTotal(rs, days[i])))
  }

  ghost predicate DaysOf(days: seq<int>, rs: seq<Record>)
    requires AllResolved(rs)
  {
    Increasing(days) && forall d :: d in days <==> exists i :: 0 <= i < |rs| && rs[i].day == d
  }

  /** The dictionary of day totals, with its sorted keys, after the records `rs`. */
  ghost predicate Booked(byDay: map<int, real>, days: seq<int>, rs: seq<Record>)
    requires AllResolved(rs)
  {
    && DaysOf(days, rs)
    && (forall d :: d in byDay <==> d in days)
    && (forall d :: d in byDay ==> byDay[d] == DayTotal(rs, d))
  }

  lemma {:induction false} NoSuchDay(rs: seq<Record>, d: int)
    requires AllResolved(rs) && forall i :: 0 <= i < |rs| ==> rs[i].day != d
    ensures DayTotal(rs, d) == 0.0
  {
    if rs != [] { NoSuchDay(rs[..|rs| - 1], d); }
  }

  lemma DayStep(rs: seq<Record>, t: Record, d: int)
    requires AllResolved(rs) && t.Resolved?
    ensures DayTotal(rs + [t], d) == DayTotal(rs, d) + if t.day == d then Pnl(t) else 0.0
  {
    assert (rs + [t])[..|rs|] == rs;
  }

  function BookDay(byDay: map<int, real>, t: Record): map<int, real>
    requires t.Resolved?
  {
    byDay[t.day := (if t.day in byDay then byDay[t.day] else 0.0) + Pnl(t)]
  }

  lemma BookStep(byDay: map<int, real>, days: seq<int>, rs: seq<Record>, t: Record)
    requires AllResolved(rs) && t.Resolved? && Booked(byDay, days, rs)
    ensures Booked(BookDay(byDay, t), InsertOnce(days, t.day), rs + [t])
  {
    var rs' := rs + [t];
    forall d ensures (d in days || d == t.day) <==> exists i :: 0 <= i < |rs'| && rs'[i].day == d {
      if d in days {
        var i :| 0 <= i < |rs| && rs[i].day == d;
        assert rs'[i].day == d;
      }
      if d == t.day { assert rs'[|rs|].day == d; }
    }
    if t.day !in byDay { NoSuchDay(rs, t.day); }
    forall d ensures DayTotal(rs', d) == DayTotal(rs, d) + if t.day == d then Pnl(t) else 0.0 { DayStep(rs, t, d); }
  }

  lemma BookedSeries(byDay: map<int, real>, days: seq<int>, rs: seq<Record>)
    requires AllResolved(rs) && Booked(byDay, days, rs)
    ensures forall i :: 0 <= i < |days| ==> days[i] in byDay && Series(rs, days)[i] == (days[i], byDay[days[i]])
  {
    forall i | 0 <= i < |days| ensures days[i] in byDay { assert days[i] in days; }
  }

  method DailyPnlSeries(records: seq<Record>) returns (series: seq<(int, real)>, days: seq<int>)
    ensures DaysOf(days, OnlyResolved(records)) && series == Series(OnlyResolved(records), days)
  {
    var rs := OnlyResolved(records);
    var byDay: map<int, real> := map[];
    days := [];
    for i := 0 to |rs|
      invariant Booked(byDay, days, rs[..i])
    {
      BookStep(byDay, days, rs[..i], rs[i]);
      assert rs[..i + 1] == rs[..i] + [rs[i]];
      byDay := BookDay(byDay, rs[i]);
      days := InsertOnce(days, rs[i].day);
    }
    assert rs[..|rs|] == rs;
    BookedSeries(byDay, days, rs);
    series := seq(|days|, i requires 0 <= i < |days| && days[i] in byDay => (days[i], byDay[days[i]]));
  }

  function SeriesSum(series: seq<(int, real)>): real {
    if series == [] then 0.0 else SeriesSum(series[..|series| - 1]) + series[|series| - 1].1
  }

  lemma {:induction false} OneMoreRecord(rs: seq<Record>, t: Record, days: seq<int>)
    requires AllResolved(rs) && t.Resolved? && Increasing(days)
    ensures SeriesSum(Series(rs + [t], days)) == SeriesSum(Series(rs, days)) + if t.day in days then Pnl(t) else 0.0
  {
    if days != [] {
      var n := |days| - 1;
      OneMoreRecord(rs, t, days[..n]);
      SeriesInit(rs, days);
      SeriesInit(rs + [t], days);
      assert (rs + [t])[..|rs|] == rs;
      assert days == days[..n] + [days[n]];
    }
  }

  lemma SeriesInit(rs: seq<Record>, days: seq<int>)
    requires AllResolved(rs) && days != []
    ensures var n := |days| - 1;
      SeriesSum(Series(rs, days)) == SeriesSum(Series(rs, days[..n])) + DayTotal(rs, days[n])
  {
    var n := |days| - 1;
    assert Series(rs, days)[..n] == Series(rs, days[..n]);
  }

  lemma {:induction false} EmptySeries(days: seq<int>)
    ensures SeriesSum(Series([], days)) == 0.0
  {
    if days != [] {
      EmptySeries(days[..|days| - 1]);
      SeriesInit([], days);
    }
  }

  lemma {:induction false} SeriesCovers(rs: seq<Record>, days: seq<int>)
    requires AllResolved(rs) && Increasing(days) && forall i :: 0 <= i < |rs| ==> rs[i].day in days
    ensures SeriesSum(Series(rs, days)) == TotalPnl(rs)
  {
    if rs == [] {
      EmptySeries(days);
    } else {
      var n := |rs| - 1;
      assert rs == rs[..n] + [rs[n]];
      SeriesCovers(rs[..n], days);
      OneMoreRecord(rs[..n], rs[n], days);
    }
  }

  /** The daily P&L adds up to the decomposition's total. */
  lemma DailySumIsTotal(records: seq<Record>, days: seq<int>)
    requires DaysOf(days, OnlyResolved(records))
    ensures SeriesSum(Series(OnlyResolved(records), days)) == Decompose(records).total
  {
    SeriesCovers(OnlyResolved(records), days);
  }

  // ---------- drawdown ----------

  /** The cumulative P&L curve, from 0 before the first day. */
  function Curve(vs: seq<real>): (c: seq<real>)
    ensures |c| == |vs| + 1
  {
    if vs == [] then [0.0]
    else
      var c := Curve(vs[..|vs| - 1]);
      c + [c[|c| - 1] + vs[|vs| - 1]]
  }

  /** The largest drop from an earlier to a later point of the curve. */
  ghost predicate LargestDrop(curve: seq<real>, dd: real) {
    && (forall i, j :: 0 <= i <= j < |curve| ==> curve[i] - curve[j] <= dd)
    && exists i, j :: 0 <= i <= j < |curve| && curve[i] - curve[j] == dd
  }

  ghost predicate Peak(curve: seq<real>, peak: real) {
    (forall i :: 0 <= i < |curve| ==> curve[i] <= peak) && exists i :: 0 <= i < |curve| && curve[i] == peak
  }

  function MaxReal(a: real, b: real): real { if a > b then a else b }

  lemma PeakStep(curve: seq<real>, c: real, peak: real)
    requires Peak(curve, peak)
    ensures Peak(curve + [c], MaxReal(peak, c))
  {
    var i :| 0 <= i < |curve| && curve[i] == peak;
    assert (curve + [c])[if c > peak then |curve| else i] == MaxReal(peak, c);
  }

  lemma DropStep(curve: seq<real>, c: real, peak: real, dd: real)
    requires Peak(curve + [c], peak) && LargestDrop(curve, dd)
    ensures LargestDrop(curve + [c], MaxReal(dd, peak - c))
  {
    var after := curve + [c];
    if peak - c > dd {
      var i :| 0 <= i < |after| && after[i] == peak;
      assert after[i] - after[|curve|] == peak - c;
    } else {
      var i, j :| 0 <= i <= j < |curve| && curve[i] - curve[j] == dd;
      assert after[i] - after[j] == dd;
    }
  }

  ghost predicate Tracks(curve: seq<real>, peak: real, dd: real) { Peak(curve, peak) && LargestDrop(curve, dd) }

  lemma TrackStep(curve: seq<real>, c: real, peak: real, dd: real)
    requires Tracks(curve, peak, dd)
    ensures Tracks(curve + [c], MaxReal(peak, c), MaxReal(dd, MaxReal(peak, c) - c))
  {
    PeakStep(curve, c, peak);
    DropStep(curve, c, MaxReal(peak, c), dd);
  }

  lemma TracksStart()
    ensures Tracks([0.0], 0.0, 0.0)
  {
    var curve := [0.0];
    assert curve[0] == 0.0 && curve[0] - curve[0] == 0.0;
  }

  lemma CurveStep(vs: seq<real>, i: nat)
    requires i < |vs|
    ensures Curve(vs[..i + 1]) == Curve(vs[..i]) + [Curve(vs[..i])[i] + vs[i]]
  {
    assert vs[..i + 1][..i] == vs[..i];
  }

  method MaxDrawdown(vs: seq<real>) returns (dd: real)
    ensures |vs| >= 2 ==> LargestDrop(Curve(vs), dd)
    ensures |vs| < 2 ==> dd == 0.0
  {
    if |vs| < 2 { return 0.0; }
    var cumulative, peak := 0.0, 0.0;
    dd := 0.0;
    ghost var curve := [0.0];
    TracksStart();
    for i := 0 to |vs|
      invariant curve == Curve(vs[..i]) && curve[i] == cumulative
      invariant Tracks(curve, peak, dd)
    {
      CurveStep(vs, i);
      cumulative := cumulative + vs[i];
      TrackStep(curve, cumulative, peak, dd);
      peak := MaxReal(peak, cumulative);
      dd := MaxReal(dd, peak - cumulative);
      curve := curve + [cumulative];
    }
    assert vs[..|vs|] == vs;
  }

  lemma {:induction false} CurvePrefix(vs: seq<real>, n: nat)
    requires n <= |vs|
    ensures Curve(vs)[..n + 1] == Curve(vs[..n])
  {
    if n < |vs| {
      CurvePrefix(vs[..|vs| - 1], n);
      assert vs[..|vs| - 1][..n] == vs[..n];
    } else {
      assert vs[..n] == vs;
    }
  }

  /** Between two points of the curve lies what the days between them made. */
  lemma {:induction false} CurveIsSums(vs: seq<real>, i: nat, j: nat)
    requires i <= j <= |vs|
    ensures Curve(vs)[j] - Curve(vs)[i] == Total(vs[i..j])
    ensures Curve(vs)[0] == 0.0
    decreases j
  {
    CurvePrefix(vs, 0);
    CurvePrefix(vs, j);
    assert Curve(vs)[j] == Curve(vs[..j])[j] && Curve(vs)[0] == Curve(vs[..0])[0];
    if i < j {
      CurveIsSums(vs, i, j - 1);
      CurvePrefix(vs, j - 1);
      assert Curve(vs)[j - 1] == Curve(vs[..j - 1])[j - 1];
      CurveStep(vs, j - 1);
      assert vs[i..j][..j - 1 - i] == vs[i..j - 1];
    }
  }

  /** What the days from `i` up to `j` lost. */
  ghost function Loss(vs: seq<real>, i: int, j: int): real
    requires 0 <= i <= j <= |vs|
  {
    -Total(vs[i..j])
  }

  ghost predicate LargestLoss(vs: seq<real>, dd: real) {
    && (forall i, j :: 0 <= i <= j <= |vs| ==> Loss(vs, i, j) <= dd)
    && exists i, j :: 0 <= i <= j <= |vs| && Loss(vs, i, j) == dd
  }

  lemma DropsAreLosses(vs: seq<real>, curve: seq<real>, dd: real)
    requires |curve| == |vs| + 1 && forall i, j :: 0 <= i <= j <= |vs| ==> curve[i] - curve[j] == Loss(vs, i, j)
    ensures LargestDrop(curve, dd) <==> LargestLoss(vs, dd)
  {
    if i, j :| 0 <= i <= j < |curve| && curve[i] - curve[j] == dd { assert Loss(vs, i, j) == dd; }
    if i, j :| 0 <= i <= j <= |vs| && Loss(vs, i, j) == dd { assert curve[i] - curve[j] == dd; }
  }

  /** The largest drop is the largest loss over any stretch of consecutive days, the empty one
      included. */
  lemma DropIsStretchLoss(vs: seq<real>, dd: real)
    ensures LargestDrop(Curve(vs), dd) <==> LargestLoss(vs, dd)
  {
    forall i, j | 0 <= i <= j <= |vs| ensures Curve(vs)[i] - Curve(vs)[j] == Loss(vs, i, j) { CurveIsSums(vs, i, j); }
    DropsAreLosses(vs, Curve(vs), dd);
  }

  lemma TwoPoints(c: seq<real>, v: real)
    requires c == [0.0, v]
    ensures LargestDrop(c, 0.0) <==> v >= 0.0
  {
    assert c[0] - c[0] == 0.0 && c[0] - c[1] == -v && c[1] - c[1] == 0.0;
  }

  /** Below two days the reported 0 is the largest drop exactly when the only day, if any, did
      not lose. */
  lemma ShortSeries(vs: seq<real>)
    requires |vs| < 2
    ensures LargestDrop(Curve(vs), 0.0) <==> (vs == [] || vs[0] >= 0.0)
  {
    if vs == [] {
      assert Curve(vs)[0] - Curve(vs)[0] == 0.0;
    } else {
      assert vs[..0] == [];
      TwoPoints(Curve(vs), vs[0]);
    }
  }

  /** One losing day: a drop of 1 is reported as 0. */
  lemma LosingDay()
    ensures LargestDrop(Curve([-1.0]), 1.0) && !LargestDrop(Curve([-1.0]), 0.0)
  {
    var vs := [-1.0];
    ShortSeries(vs);
    assert vs[..0] == [];
    var c := Curve(vs);
    assert c == [0.0, -1.0] && c[0] - c[1] == 1.0;
  }
}
