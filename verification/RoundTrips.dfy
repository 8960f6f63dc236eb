/** Pairing of fills into round trips (`pair_round_trips`, `scripts/holdout_baseline.py`). */
module RoundTrips {
  import opened Basics

  datatype Result<+T> = Ok(value: T) | Err

  datatype Side = Buy | Sell | Resolution | Other(name: string)

  datatype Key = Key(leader: string, market: string, outcome: int)

  datatype Fill = Fill(key: Key, side: Side, price: real, contracts: real, day: int)

  datatype RoundTrip = RoundTrip(key: Key, buy: Fill, close: Option<Fill>)

  predicate Closes(s: Side) { s.Sell? || s.Resolution? }

  // ---------- one key ----------

  /** Strict alternation: buys at even positions, closes at odd ones; a trailing buy stays open. */
  ghost predicate Alternates(fs: seq<Fill>) {
    forall i :: 0 <= i < |fs| ==> if i % 2 == 0 then fs[i].side.Buy? else fs[i].side == Sell || fs[i].side == Resolution
  }

  /** The round trips of an alternating sequence: neighbours in pairs. */
  ghost function Pairs(k: Key, fs: seq<Fill>): seq<RoundTrip> {
    if fs == [] then []
    else if |fs| == 1 then [RoundTrip(k, fs[0], None)]
    else [RoundTrip(k, fs[0], Some(fs[1]))] + Pairs(k, fs[2..])
  }

  /** The fills of the round trips, in order. */
  ghost function Flat(ts: seq<RoundTrip>): seq<Fill> {
    if ts == [] then []
    else [ts[0].buy] + (if ts[0].close.Some? then [ts[0].close.value] else []) + Flat(ts[1..])
  }

  lemma {:induction false} FlatPairs(k: Key, fs: seq<Fill>)
    ensures Flat(Pairs(k, fs)) == fs
  {
    if |fs| >= 2 {
      FlatPairs(k, fs[2..]);
      assert Pairs(k, fs)[1..] == Pairs(k, fs[2..]);
      assert fs == [fs[0]] + [fs[1]] + fs[2..];
    }
  }

  lemma {:induction false} PairsEven(k: Key, fs: seq<Fill>, a: Fill, b: Fill)
    requires |fs| % 2 == 0
    ensures Pairs(k, fs + [a]) == Pairs(k, fs) + [RoundTrip(k, a, None)]
    ensures Pairs(k, fs + [a, b]) == Pairs(k, fs) + [RoundTrip(k, a, Some(b))]
    decreases |fs|
  {
    if fs == [] {
      assert fs + [a] == [a] && fs + [a, b] == [a, b] && [a, b][2..] == [];
    } else {
      assert (fs + [a])[2..] == fs[2..] + [a] && (fs + [a, b])[2..] == fs[2..] + [a, b];
      PairsEven(k, fs[2..], a, b);
    }
  }

  /** The walk over one key's fills: accepts exactly the alternating sequences. */
  method PairKey(k: Key, fs: seq<Fill>) returns (r: Result<seq<RoundTrip>>)
    ensures r.Ok? <==> Alternates(fs)
    ensures r.Ok? ==> r.value == Pairs(k, fs)
  {
    var trips: seq<RoundTrip> := [];
    var open: Option<Fill> := None;
    for i := 0 to |fs|
      invariant Alternates(fs[..i])
      invariant open.Some? <==> i % 2 == 1
      invariant open.Some? ==> open.value == fs[i - 1]
      invariant trips == Pairs(k, fs[..i - i % 2])
    {
      var f := fs[i];
      assert fs[..i + 1] == fs[..i] + [f];
      if f.side.Buy? {
        if open.Some? { return Err; }
        open := Some(f);
      } else if Closes(f.side) {
        if open.None? { return Err; }
        assert fs[..i + 1] == fs[..i - 1] + [fs[i - 1], f];
        PairsEven(k, fs[..i - 1], fs[i - 1], f);
        trips := trips + [RoundTrip(k, open.value, Some(f))];
        open := None;
      } else {
        return Err;
      }
    }
    assert fs[..|fs|] == fs;
    if open.Some? {
      var n := |fs| - 1;
      assert fs == fs[..n] + [fs[n]];
      PairsEven(k, fs[..n], fs[n], fs[n]);
      trips := trips + [RoundTrip(k, open.value, None)];
    }
    r := Ok(trips);
  }

  // ---------- all keys ----------

  function OfKey(fills: seq<Fill>, k: Key): (r: seq<Fill>)
    ensures forall i :: 0 <= i < |r| ==> r[i].key == k
  {
    if fills == [] then []
    else
      var f := fills[|fills| - 1];
      OfKey(fills[..|fills| - 1], k) + if f.key == k then [f] else []
  }

  /** The keys in the order of their first fill. */
  function KeysOf(fills: seq<Fill>): seq<Key> {
    if fills == [] then [] else AddKey(KeysOf(fills[..|fills| - 1]), fills[|fills| - 1].key)
  }

  function AddKey(ks: seq<Key>, k: Key): seq<Key> { if k in ks then ks else ks + [k] }

  lemma {:induction false} KeysDistinct(fills: seq<Fill>)
    ensures Distinct(KeysOf(fills))
  {
    if fills != [] { KeysDistinct(fills[..|fills| - 1]); }
  }

  lemma {:induction false} KeysCover(fills: seq<Fill>, f: Fill)
    requires f in fills
    ensures f.key in KeysOf(fills)
  {
    var n := |fills| - 1;
    assert fills == fills[..n] + [fills[n]];
    if f in fills[..n] { KeysCover(fills[..n], f); }
  }

  /** `append` on the dictionary of lists. */
  function Append(groups: map<Key, seq<Fill>>, f: Fill): map<Key, seq<Fill>> {
    groups[f.key := (if f.key in groups then groups[f.key] else []) + [f]]
  }

  /** The dictionary of lists and its insertion order after `fills`. */
  ghost predicate Grouped(groups: map<Key, seq<Fill>>, order: seq<Key>, fills: seq<Fill>) {
    && order == KeysOf(fills)
    && forall k :: (k in order <==> k in groups) && OfKey(fills, k) == if k in groups then groups[k] else []
  }

  lemma GroupStep(groups: map<Key, seq<Fill>>, order: seq<Key>, fills: seq<Fill>, f: Fill)
    requires Grouped(groups, order, fills)
    ensures Grouped(Append(groups, f), AddKey(order, f.key), fills + [f])
  {
    assert (fills + [f])[..|fills|] == fills;
  }

  method GroupByKey(fills: seq<Fill>) returns (groups: map<Key, seq<Fill>>, order: seq<Key>)
    ensures Grouped(groups, order, fills)
  {
    groups, order := map[], [];
    for i := 0 to |fills|
      invariant Grouped(groups, order, fills[..i])
    {
      GroupStep(groups, order, fills[..i], fills[i]);
      assert fills[..i + 1] == fills[..i] + [fills[i]];
      groups, order := Append(groups, fills[i]), AddKey(order, fills[i].key);
    }
    assert fills[..|fills|] == fills;
  }

  /** The round trips of the keys in `order`, key by key. */
  ghost function AllPairs(fills: seq<Fill>, order: seq<Key>): seq<RoundTrip> {
    if order == [] then [] else AllPairs(fills, order[..|order| - 1]) + Pairs(order[|order| - 1], OfKey(fills, order[|order| - 1]))
  }

  // ---------- conservation of fills ----------

  ghost function Groups(fills: seq<Fill>, order: seq<Key>): multiset<Fill> {
    if order == [] then multiset{}
    else Groups(fills, order[..|order| - 1]) + multiset(OfKey(fills, order[|order| - 1]))
  }

  lemma {:induction false} FlatAppend(a: seq<RoundTrip>, b: seq<RoundTrip>)
    ensures Flat(a + b) == Flat(a) + Flat(b)
  {
    if a == [] {
      assert a + b == b;
    } else {
      assert (a + b)[1..] == a[1..] + b;
      FlatAppend(a[1..], b);
    }
  }

  lemma {:induction false} FlatAll(fills: seq<Fill>, order: seq<Key>)
    ensures multiset(Flat(AllPairs(fills, order))) == Groups(fills, order)
  {
    if order != [] {
      var n := |order| - 1;
      FlatAll(fills, order[..n]);
      FlatAppend(AllPairs(fills, order[..n]), Pairs(order[n], OfKey(fills, order[n])));
      FlatPairs(order[n], OfKey(fills, order[n]));
    }
  }

  lemma KeyGrows(fills: seq<Fill>, f: Fill, k: Key)
    ensures multiset(OfKey(fills + [f], k)) == multiset(OfKey(fills, k)) + if f.key == k then multiset{f} else multiset{}
  {
    assert (fills + [f])[..|fills|] == fills;
  }

  /** The fill counted once if its key is listed. */
  ghost function Once(f: Fill, order: seq<Key>): multiset<Fill> {
    if f.key in order then multiset{f} else multiset{}
  }

  lemma OnceLast(f: Fill, order: seq<Key>)
    requires Distinct(order) && order != []
    ensures var n := |order| - 1;
      Once(f, order) == Once(f, order[..n]) + if f.key == order[n] then multiset{f} else multiset{}
  {
    var n := |order| - 1;
    assert order == order[..n] + [order[n]];
  }

  lemma AddBoth(a: multiset<Fill>, x: multiset<Fill>, b: multiset<Fill>, y: multiset<Fill>)
    ensures (a + x) + (b + y) == (a + b) + (x + y)
  {
  }

  lemma {:induction false} OneMoreFill(fills: seq<Fill>, f: Fill, order: seq<Key>)
    requires Distinct(order)
    ensures Groups(fills + [f], order) == Groups(fills, order) + Once(f, order)
  {
    if order != [] {
      var n := |order| - 1;
      var mine := if f.key == order[n] then multiset{f} else multiset{};
      OneMoreFill(fills, f, order[..n]);
      KeyGrows(fills, f, order[n]);
      OnceLast(f, order);
      AddBoth(Groups(fills, order[..n]), Once(f, order[..n]), multiset(OfKey(fills, order[n])), mine);
    }
  }

  lemma {:induction false} GroupsMakeUp(fills: seq<Fill>, order: seq<Key>)
    requires Distinct(order) && forall f :: f in fills ==> f.key in order
    ensures Groups(fills, order) == multiset(fills)
  {
    if fills == [] {
      NoFills(order);
    } else {
      var n := |fills| - 1;
      assert fills == fills[..n] + [fills[n]];
      GroupsMakeUp(fills[..n], order);
      OneMoreFill(fills[..n], fills[n], order);
    }
  }

  lemma {:induction false} NoFills(order: seq<Key>)
    ensures Groups([], order) == multiset{}
  {
    if order != [] { NoFills(order[..|order| - 1]); }
  }

  lemma PairsConserve(fills: seq<Fill>)
    ensures multiset(Flat(AllPairs(fills, KeysOf(fills)))) == multiset(fills)
  {
    KeysDistinct(fills);
    forall f | f in fills ensures f.key in KeysOf(fills) { KeysCover(fills, f); }
    FlatAll(fills, KeysOf(fills));
    GroupsMakeUp(fills, KeysOf(fills));
  }

  /** Both fills of a round trip belong to its key. */
  ghost predicate Keyed(t: RoundTrip) { t.buy.key == t.key && (t.close.Some? ==> t.close.value.key == t.key) }

  lemma {:induction false} PairsKeyed(k: Key, fs: seq<Fill>)
    requires forall i :: 0 <= i < |fs| ==> fs[i].key == k
    ensures forall t :: t in Pairs(k, fs) ==> Keyed(t)
  {
    if |fs| >= 2 { PairsKeyed(k, fs[2..]); }
  }

  lemma {:induction false} AllPairsKeyed(fills: seq<Fill>, order: seq<Key>)
    ensures forall t :: t in AllPairs(fills, order) ==> Keyed(t)
  {
    if order != [] {
      AllPairsKeyed(fills, order[..|order| - 1]);
      PairsKeyed(order[|order| - 1], OfKey(fills, order[|order| - 1]));
    }
  }

  /** A round trip opens with a buy and closes, if at all, with a sale or a resolution. */
  ghost predicate Sound(t: RoundTrip) {
    t.buy.side == Buy && (t.close.Some? ==> t.close.value.side == Sell || t.close.value.side == Resolution)
  }

  lemma {:induction false} PairsSound(k: Key, fs: seq<Fill>)
    requires Alternates(fs)
    ensures forall t :: t in Pairs(k, fs) ==> Sound(t)
  {
    if |fs| >= 2 {
      assert forall i :: 0 <= i < |fs| - 2 ==> fs[2..][i] == fs[i + 2];
      PairsSound(k, fs[2..]);
    }
  }

  lemma {:induction false} AllPairsSound(fills: seq<Fill>, order: seq<Key>)
    requires KeysAlternate(fills, order)
    ensures forall t :: t in AllPairs(fills, order) ==> Sound(t)
  {
    if order != [] {
      var n := |order| - 1;
      assert forall k :: k in order[..n] ==> k in order;
      assert KeyAlternates(fills, order[n]);
      AllPairsSound(fills, order[..n]);
      PairsSound(order[n], OfKey(fills, order[n]));
    }
  }

  lemma AllPairsStep(fills: seq<Fill>, keys: seq<Key>, i: nat, trips: seq<RoundTrip>, one: seq<RoundTrip>)
    requires i < |keys| && trips == AllPairs(fills, keys[..i]) && one == Pairs(keys[i], OfKey(fills, keys[i]))
    ensures trips + one == AllPairs(fills, keys[..i + 1])
  {
    assert keys[..i + 1][..i] == keys[..i];
  }

  ghost predicate KeyAlternates(fills: seq<Fill>, k: Key) { Alternates(OfKey(fills, k)) }

  ghost predicate KeysAlternate(fills: seq<Fill>, keys: seq<Key>) {
    forall k :: k in keys ==> KeyAlternates(fills, k)
  }

  lemma KeysAlternateStep(fills: seq<Fill>, keys: seq<Key>, i: nat)
    requires i < |keys| && KeysAlternate(fills, keys[..i]) && KeyAlternates(fills, keys[i])
    ensures KeysAlternate(fills, keys[..i + 1])
  {
    assert keys[..i + 1] == keys[..i] + [keys[i]];
  }

  lemma AllKeysAlternate(groups: map<Key, seq<Fill>>, keys: seq<Key>, fills: seq<Fill>, k: Key)
    requires Grouped(groups, keys, fills) && KeysAlternate(fills, keys)
    ensures KeyAlternates(fills, k)
  {
    if k !in keys { assert OfKey(fills, k) == []; }
  }

  /** Fills are accepted exactly when every key alternates, and then every fill lands in
      exactly one round trip. */
  method PairRoundTrips(fills: seq<Fill>) returns (r: Result<seq<RoundTrip>>)
    ensures r.Ok? <==> forall k :: KeyAlternates(fills, k)
    ensures r.Ok? ==> r.value == AllPairs(fills, KeysOf(fills)) && multiset(Flat(r.value)) == multiset(fills)
    ensures r.Ok? ==> forall t :: t in r.value ==> Keyed(t) && Sound(t)
  {
    var groups, keys := GroupByKey(fills);
    var trips: seq<RoundTrip> := [];
    for i := 0 to |keys|
      invariant trips == AllPairs(fills, keys[..i])
      invariant KeysAlternate(fills, keys[..i])
    {
      var mine := groups[keys[i]];
      assert OfKey(fills, keys[i]) == mine;
      var one := PairKey(keys[i], mine);
      assert one.Ok? <==> KeyAlternates(fills, keys[i]);
      if one.Err? { return Err; }
      AllPairsStep(fills, keys, i, trips, one.value);
      KeysAlternateStep(fills, keys, i);
      trips := trips + one.value;
    }
    assert keys[..|keys|] == keys;
    forall k ensures KeyAlternates(fills, k) { AllKeysAlternate(groups, keys, fills, k); }
    PairsConserve(fills);
    AllPairsKeyed(fills, keys);
    AllPairsSound(fills, keys);
    r := Ok(trips);
  }
}
