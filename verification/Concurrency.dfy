/** Entry-instant concurrency (`scripts/ranker/suff_stats.py`, `concurrency`): two binary
    searches over independently sorted starts and ends. */
module Concurrency {
  import opened Uniqueness
  import opened UniquenessFrame
  import opened UniquenessPaths
  import opened Sorting

  // ---------- what the difference of the two searches counts ----------

  predicate LiveNow(l: Label, t: int) { l.start <= t <= l.end }

  /** A label that ends before it starts, with `t` strictly in between. */
  predicate Inverted(l: Label, t: int) { l.end < t < l.start }

  function CountLabels(ls: seq<Label>, t: int, inverted: bool): nat {
    if ls == [] then 0
    else
      var l := ls[|ls| - 1];
      CountLabels(ls[..|ls| - 1], t, inverted) + if (if inverted then Inverted(l, t) else LiveNow(l, t)) then 1 else 0
  }

  lemma {:induction false} StartedMinusClosed(ls: seq<Label>, t: int)
    ensures CountBelow(Starts(ls), t + 1) - CountBelow(Ends(ls), t)
         == CountLabels(ls, t, false) - CountLabels(ls, t, true)
  {
    if ls != [] {
      var init := ls[..|ls| - 1];
      StartedMinusClosed(init, t);
      assert Starts(ls)[..|ls| - 1] == Starts(init) && Ends(ls)[..|ls| - 1] == Ends(init);
    }
  }

  lemma {:induction false} CountAny(ls: seq<Label>, t: int, inverted: bool)
    ensures CountLabels(ls, t, inverted) > 0 <==>
      exists k :: 0 <= k < |ls| && if inverted then Inverted(ls[k], t) else LiveNow(ls[k], t)
  {
    if ls != [] {
      var init := ls[..|ls| - 1];
      CountAny(init, t, inverted);
      assert forall k :: 0 <= k < |init| ==> init[k] == ls[k];
    }
  }

  /** The value the source computes for a row whose wallet has labels `ls`, entered at `t`. */
  function Started(ls: seq<Label>, t: int): int {
    SearchRight(SortInts(Starts(ls)), t) - SearchLeft(SortInts(Ends(ls)), t)
  }

  /** It is the number of labels live at `t` exactly when no label is inverted around `t`;
      in general it falls short by the number of those. */
  lemma StartedCounts(ls: seq<Label>, t: int)
    ensures Started(ls, t) == CountLabels(ls, t, false) - CountLabels(ls, t, true)
    ensures Started(ls, t) == CountLabels(ls, t, false)
      <==> forall k :: 0 <= k < |ls| ==> !Inverted(ls[k], t)
  {
    SplitCounts(SortInts(Starts(ls)), t + 1, SearchRight(SortInts(Starts(ls)), t));
    SplitCounts(SortInts(Ends(ls)), t, SearchLeft(SortInts(Ends(ls)), t));
    SortKeepsCounts(Starts(ls), t + 1);
    SortKeepsCounts(Ends(ls), t);
    StartedMinusClosed(ls, t);
    CountAny(ls, t, true);
  }

  /** A wallet with an inverted label: at an entry where one label is live the source computes 0. */
  lemma InvertedMiscounts()
    ensures var ls := [Label(5, 3), Label(4, 10)]; CountLabels(ls, 4, false) == 1 && Started(ls, 4) == 0
  {
    var ls := [Label(5, 3), Label(4, 10)];
    StartedCounts(ls, 4);
    assert ls[..1] == [Label(5, 3)] && ls[..1][..0] == [];
    assert CountLabels(ls[..1], 4, false) == 0 && CountLabels(ls[..1], 4, true) == 1;
  }

  /** When every label ends no earlier than it starts, each row sees exactly the labels of its
      wallet live at its entry, itself included. */
  lemma RowConcurrency(rows: seq<Row>, i: int)
    requires 0 <= i < |rows|
    requires forall k :: 0 <= k < |rows| ==> rows[k].start <= rows[k].end
    ensures var ls := LabelsOf(rows, rows[i].wallet);
      Started(ls, rows[i].start) == CountLabels(ls, rows[i].start, false) >= 1
  {
    var idx := Positions(rows, rows[i].wallet);
    var ls := LabelsOf(rows, rows[i].wallet);
    forall k | 0 <= k < |ls| ensures ls[k].start <= ls[k].end { assert idx[k] in idx; }
    var k :| 0 <= k < |idx| && idx[k] == i;
    assert LiveNow(ls[k], rows[i].start);
    StartedCounts(ls, rows[i].start);
    CountAny(ls, rows[i].start, false);
  }

  // ---------- the column, filled wallet by wallet ----------

  method FillWallet(rows: seq<Row>, wallet: Wallet, c: array<int>)
    requires c.Length == |rows|
    modifies c
    ensures forall i :: 0 <= i < c.Length ==>
      c[i] == if rows[i].wallet == wallet then Started(LabelsOf(rows, wallet), rows[i].start) else old(c[i])
  {
    var idx := Positions(rows, wallet);
    var ls := LabelsOf(rows, wallet);
    var starts, ends := SortInts(Starts(ls)), SortInts(Ends(ls));
    for k := 0 to |idx|
      invariant forall i :: 0 <= i < c.Length ==>
        c[i] == if i in idx[..k] then Started(ls, rows[i].start) else old(c[i])
    {
      assert idx[k] in idx;
      var t := rows[idx[k]].start;
      c[idx[k]] := SearchRight(starts, t) - SearchLeft(ends, t);
      assert forall i :: i in idx[..k + 1] <==> i in idx[..k] || i == idx[k];
    }
    assert idx[..|idx|] == idx;
  }

  method ConcurrencyColumn(rows: seq<Row>) returns (c: array<int>)
    ensures fresh(c) && c.Length == |rows|
    ensures forall i :: 0 <= i < |rows| ==> c[i] == Started(LabelsOf(rows, rows[i].wallet), rows[i].start)
  {
    c := new int[|rows|](_ => 1);
    var keys := Keys(rows);
    for g := 0 to |keys|
      invariant forall i :: 0 <= i < |rows| && rows[i].wallet in keys[..g] ==>
        c[i] == Started(LabelsOf(rows, rows[i].wallet), rows[i].start)
    {
      FillWallet(rows, keys[g], c);
      assert keys[..g + 1] == keys[..g] + [keys[g]];
    }
    assert keys[..|keys|] == keys;
  }
}
