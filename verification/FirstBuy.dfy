/** Trades, the first buy of a wallet and market, and the order of trade ids: as text, and as four
    hex slices compared as numbers. */
module FirstBuy {
  import opened Basics
  import opened Text

  datatype Trade = Trade(
    wallet: string, buy: bool, market: string, outcome: int, priceStr: string, contracts: int, ts: int, id: string)

  /** `source_trade_id` is the primary key. */
  ghost predicate UniqueIds(tape: seq<Trade>) {
    forall a, b :: a in tape && b in tape && a.id == b.id ==> a == b
  }

  predicate BuyOf(t: Trade, w: string, m: string) { t.wallet == w && t.buy && t.market == m }

  predicate Before(a: Trade, b: Trade) { a.ts < b.ts || (a.ts == b.ts && Less(a.id, b.id)) }

  /** The first buy: before every other buy of that wallet and market. */
  ghost predicate IsFirst(t: Trade, tape: seq<Trade>, w: string, m: string) {
    && t in tape && BuyOf(t, w, m)
    && forall u :: u in tape && BuyOf(u, w, m) && u != t ==> Before(t, u)
  }

  lemma FirstIsUnique(t: Trade, u: Trade, tape: seq<Trade>, w: string, m: string)
    requires IsFirst(t, tape, w, m) && IsFirst(u, tape, w, m)
    ensures t == u
  {
    Asymmetric(t.id, u.id);
  }

  // ---------- ids as four hex slices ----------

  predicate HexChar(c: char) { '0' <= c <= '9' || 'a' <= c <= 'f' }

  function Digit(c: char): nat
    requires HexChar(c)
  {
    if c <= '9' then c as nat - '0' as nat else c as nat - 'a' as nat + 10
  }

  predicate Hex(s: string) { forall i :: 0 <= i < |s| ==> HexChar(s[i]) }

  function Pow16(n: nat): nat { if n == 0 then 1 else 16 * Pow16(n - 1) }

  function Value(s: string): nat
    requires Hex(s)
  {
    if s == [] then 0 else Digit(s[0]) * Pow16(|s| - 1) + Value(s[1..])
  }

  lemma {:induction false} ValueBound(s: string)
    requires Hex(s)
    ensures Value(s) < Pow16(|s|)
  {
    if s != [] {
      ValueBound(s[1..]);
      var d, p := Digit(s[0]), Pow16(|s| - 1);
      assert d <= 15;
      DigitStep(d, 15, p);
    }
  }

  lemma {:induction false} DigitStep(d: nat, e: nat, p: nat)
    requires d <= e
    ensures d * p <= e * p
    ensures d < e ==> d * p + p <= e * p
    decreases e - d
  {
    if d < e {
      DigitStep(d, e - 1, p);
      assert (e - 1) * p + p == e * p;
    }
  }

  /** For equally long lower-case hex texts numeric and text order agree. */
  lemma {:induction false} ValueOrder(a: string, b: string)
    requires Hex(a) && Hex(b) && |a| == |b|
    ensures Value(a) < Value(b) <==> Less(a, b)
    ensures Value(a) == Value(b) <==> a == b
  {
    if a != [] {
      var p := Pow16(|a| - 1);
      ValueOrder(a[1..], b[1..]);
      ValueBound(a[1..]);
      ValueBound(b[1..]);
      assert a == [a[0]] + a[1..] && b == [b[0]] + b[1..];
      if a[0] < b[0] {
        DigitStep(Digit(a[0]), Digit(b[0]), p);
      } else if b[0] < a[0] {
        DigitStep(Digit(b[0]), Digit(a[0]), p);
      }
    }
  }

  /** `0x` and 64 lower-case hex digits: the premise the extract asserts. */
  predicate WellFormedId(s: string) { |s| == 66 && s[..2] == "0x" && Hex(s[2..]) }

  /** The `k`-th 16-digit slice. */
  function Part(s: string, k: nat): (part: string)
    requires WellFormedId(s) && k < 4
    ensures Hex(part) && |part| == 16
  {
    var part := s[2 + 16 * k..18 + 16 * k];
    assert forall i :: 0 <= i < |part| ==> part[i] == s[2..][16 * k + i];
    part
  }

  /** A slice as a number; it fits an unsigned 64-bit integer. */
  function SliceValue(s: string, k: nat): (v: nat)
    requires WellFormedId(s) && k < 4
    ensures v < 0x1_0000_0000_0000_0000
  {
    ValueBound(Part(s, k));
    assert Pow16(16) == 0x1_0000_0000_0000_0000 by {
      assert Pow16(4) == 0x1_0000;
      assert Pow16(8) == 0x1_0000_0000;
      assert Pow16(12) == 0x1_0000_0000_0000;
    }
    Value(Part(s, k))
  }

  function Slices(s: string): seq<nat>
    requires WellFormedId(s)
  {
    [SliceValue(s, 0), SliceValue(s, 1), SliceValue(s, 2), SliceValue(s, 3)]
  }

  /** Lexicographic order, as the engine compares structs field by field. */
  predicate LexLess(a: seq<int>, b: seq<int>)
    requires |a| == |b|
  {
    a != [] && (a[0] < b[0] || (a[0] == b[0] && LexLess(a[1..], b[1..])))
  }

  /** What is left of an id from slice `k` on. */
  function From(s: string, k: nat): string
    requires WellFormedId(s) && k <= 4
  {
    s[2 + 16 * k..]
  }

  lemma FromSplit(s: string, k: nat)
    requires WellFormedId(s) && k < 4
    ensures From(s, k) == Part(s, k) + From(s, k + 1)
    ensures Slices(s)[k..][0] == Value(Part(s, k)) && Slices(s)[k..][1..] == Slices(s)[k + 1..]
  {
    assert Slices(s)[k] == SliceValue(s, k);
  }

  lemma SlicesFrom(a: string, b: string, k: nat)
    requires WellFormedId(a) && WellFormedId(b) && k <= 4
    ensures Less(From(a, k), From(b, k)) <==> LexLess(Slices(a)[k..], Slices(b)[k..])
    decreases 4 - k
  {
    if k < 4 {
      FromSplit(a, k);
      FromSplit(b, k);
      LessAppend(Part(a, k), Part(b, k), From(a, k + 1), From(b, k + 1));
      ValueOrder(Part(a, k), Part(b, k));
      SlicesFrom(a, b, k + 1);
    }
  }

  /** Comparing the four slices as numbers is comparing the ids as text. */
  lemma SliceOrderIsTextOrder(a: string, b: string)
    requires WellFormedId(a) && WellFormedId(b)
    ensures LexLess(Slices(a), Slices(b)) <==> Less(a, b)
  {
    assert a == a[..2] + a[2..] && b == b[..2] + b[2..];
    LessAppend(a[..2], b[..2], a[2..], b[2..]);
    Asymmetric("0x", "0x");
    SlicesFrom(a, b, 0);
    assert Slices(a)[0..] == Slices(a) && Slices(b)[0..] == Slices(b);
  }
}
