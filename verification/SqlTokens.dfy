/** The grammar behind the masking lexer: a text is a sequence of code characters, comments and
    quoted stretches, and masking keeps the code characters and blanks the rest. */
module SqlTokens {
  import opened SqlMask

  /** `Quoted` holds the quoted text itself, its quotes not doubled; `ident` tells a double-quoted
      identifier from a literal.  Only the last token of a text may be left open. */
  datatype Token =
    | Plain(c: char)
    | Line(body: string, closed: bool)
    | Block(body: string, closed: bool)
    | Quoted(ident: bool, body: string, closed: bool)

  function QuoteOf(ident: bool): char { if ident then '\"' else '\'' }

  function Doubled(body: string, q: char): string {
    if body == [] then [] else (if body[0] == q then [q, q] else [body[0]]) + Doubled(body[1..], q)
  }

  /** How a token is written. */
  function Text(t: Token): string {
    match t
    case Plain(c) => [c]
    case Line(b, closed) => "--" + (b + if closed then "\n" else "")
    case Block(b, closed) => "/*" + (b + if closed then "*/" else "")
    case Quoted(ident, b, closed) => [QuoteOf(ident)] + (Doubled(b, QuoteOf(ident)) + if closed then [QuoteOf(ident)] else [])
  }

  /** What masking leaves of it. */
  function Left(t: Token): string { if t.Plain? then [t.c] else Blanks(Text(t)) }

  /** A token that can stand before `rest`. */
  ghost predicate Fits(t: Token, rest: string) {
    match t
    case Plain(c) => c != '\'' && c != '\"' && !(rest != [] && ((c == '-' && rest[0] == '-') || (c == '/' && rest[0] == '*')))
    case Line(b, closed) => '\n' !in b && (closed || rest == [])
    case Block(b, closed) => !Has(b, '*', '/') && (closed || rest == [])
    case Quoted(ident, b, closed) => if closed then rest == [] || rest[0] != QuoteOf(ident) else rest == []
  }

  /** `a` stands somewhere right before `b`. */
  ghost predicate Has(s: string, a: char, b: char) { exists i :: 0 <= i < |s| - 1 && s[i] == a && s[i + 1] == b }

  function Written(ts: seq<Token>): string { if ts == [] then [] else Text(ts[0]) + Written(ts[1..]) }

  function LeftOf(ts: seq<Token>): string { if ts == [] then [] else Left(ts[0]) + LeftOf(ts[1..]) }

  ghost predicate Tokens(ts: seq<Token>) { ts == [] || (Fits(ts[0], Written(ts[1..])) && Tokens(ts[1..])) }

  // ---------- masking a token ----------

  function ModeOf(ident: bool): Mode { if ident then Identifier else Literal }

  lemma {:induction false} DoubledStays(b: string, ident: bool)
    ensures Stays(Doubled(b, QuoteOf(ident)), ModeOf(ident))
  {
    if b != [] {
      DoubledStays(b[1..], ident);
      LiteralText(b[0], Doubled(b[1..], QuoteOf(ident)), ModeOf(ident));
    }
  }

  /** Inside a mode: a stretch that stays in it and joins with nothing behind it is blanked. */
  lemma Stretch(x: string, rest: string, m: Mode)
    requires !m.Code? && Stays(x, m) && !Straddles(x, rest, m)
    ensures MaskFrom(x + rest, m) == Blanks(x) + MaskFrom(rest, m)
  {
    Resume(x, rest, m);
    StaysBlank(x, m);
  }

  lemma BlanksAppend(a: string, b: string)
    ensures Blanks(a + b) == Blanks(a) + Blanks(b)
  {
  }

  lemma PlainMasked(t: Token, rest: string)
    requires t.Plain? && Fits(t, rest)
    ensures Mask(Text(t) + rest) == Left(t) + Mask(rest)
  {
    var s := Text(t) + rest;
    assert s[1..] == rest;
    MaskStep(s, Code, 1, Code);
  }

  lemma Opening(open: string, tail: string, m: Mode)
    requires !m.Code? && open != [] && '\n' !in open && Bite(open + tail, Code) == (|open|, m)
    ensures Mask(open + tail) == Blanks(open) + MaskFrom(tail, m)
  {
    assert (open + tail)[|open|..] == tail;
    MaskStep(open + tail, Code, |open|, m);
    assert Front(open + tail, Code) == Blanks(open);
  }

  lemma Closing(close: string, rest: string, m: Mode)
    requires !m.Code?
    requires if close == [] then rest == [] else Bite(close + rest, m) == (|close|, Code)
    ensures MaskFrom(close + rest, m) == Blanks(close) + Mask(rest)
  {
    if close != [] {
      assert (close + rest)[|close|..] == rest;
      MaskStep(close + rest, m, |close|, Code);
    }
  }

  lemma Regroup(a: string, b: string, c: string, d: string)
    ensures a + (b + (c + d)) == a + (b + c) + d
  {
  }

  /** A token that opens `m` with `open`, whose inside `x` stays in `m`, and that ends with `close`
      or with the text. */
  lemma Enclosed(open: string, x: string, close: string, rest: string, m: Mode)
    requires !m.Code? && open != [] && '\n' !in open && Stays(x, m)
    requires Bite(open + (x + (close + rest)), Code) == (|open|, m)
    requires !Straddles(x, close + rest, m)
    requires if close == [] then rest == [] else Bite(close + rest, m) == (|close|, Code)
    ensures Mask(open + (x + close) + rest) == Blanks(open + (x + close)) + Mask(rest)
  {
    Opening(open, x + (close + rest), m);
    Stretch(x, close + rest, m);
    Closing(close, rest, m);
    Regroup(open, x, close, rest);
    Regroup(Blanks(open), Blanks(x), Blanks(close), Mask(rest));
    BlanksAppend(open, x + close);
    BlanksAppend(x, close);
  }

  lemma LineMasked(t: Token, rest: string)
    requires t.Line? && Fits(t, rest)
    ensures Mask(Text(t) + rest) == Left(t) + Mask(rest)
  {
    LineText(t.body);
    Enclosed("--", t.body, if t.closed then "\n" else "", rest, LineComment);
  }

  lemma BlockMasked(t: Token, rest: string)
    requires t.Block? && Fits(t, rest)
    ensures Mask(Text(t) + rest) == Left(t) + Mask(rest)
  {
    var close := if t.closed then "*/" else "";
    BlockText(t.body);
    StaysBlank(t.body, BlockComment);
    if Straddles(t.body, close + rest, BlockComment) { OnlyStarsStraddle(t.body, close + rest, BlockComment); }
    Enclosed("/*", t.body, close, rest, BlockComment);
  }

  lemma QuotedMasked(t: Token, rest: string)
    requires t.Quoted? && Fits(t, rest)
    ensures Mask(Text(t) + rest) == Left(t) + Mask(rest)
  {
    var q, m := [QuoteOf(t.ident)], ModeOf(t.ident);
    var x, close := Doubled(t.body, QuoteOf(t.ident)), if t.closed then q else [];
    DoubledStays(t.body, t.ident);
    StaysBlank(x, m);
    if Straddles(x, close + rest, m) { OnlyStarsStraddle(x, close + rest, m); }
    Enclosed(q, x, close, rest, m);
  }

  /** Masking a text: its code characters stay, everything else is blanked, newlines excepted. */
  lemma {:induction false} MaskOfTokens(ts: seq<Token>)
    requires Tokens(ts)
    ensures Mask(Written(ts)) == LeftOf(ts)
  {
    if ts != [] {
      MaskOfTokens(ts[1..]);
      match ts[0]
      case Plain(_) => PlainMasked(ts[0], Written(ts[1..]));
      case Line(_, _) => LineMasked(ts[0], Written(ts[1..]));
      case Block(_, _) => BlockMasked(ts[0], Written(ts[1..]));
      case Quoted(_, _, _) => QuotedMasked(ts[0], Written(ts[1..]));
    }
  }

  // ---------- every text is such a sequence ----------

  /** Where a line comment ends: at the newline, or with the text. */
  function LineEnd(s: string): (n: nat)
    ensures n <= |s| && '\n' !in s[..n] && (n < |s| ==> s[n] == '\n')
  {
    if s == [] || s[0] == '\n' then 0
    else
      var n := 1 + LineEnd(s[1..]);
      assert s[..n] == [s[0]] + s[1..][..n - 1];
      n
  }

  /** Where a block comment ends: at its first closing mark, or with the text. */
  function BlockEnd(s: string): (n: nat)
    ensures n <= |s| && !Has(s[..n], '*', '/') && (n < |s| ==> n + 1 < |s| && s[n] == '*' && s[n + 1] == '/')
  {
    if s == [] then 0
    else if |s| >= 2 && s[0] == '*' && s[1] == '/' then 0
    else
      var n := 1 + BlockEnd(s[1..]);
      assert forall i :: 0 < i < n ==> s[..n][i] == s[1..][..n - 1][i - 1];
      assert forall i :: 0 < i < n - 1 && s[..n][i] == '*' && s[..n][i + 1] == '/' ==>
        s[1..][..n - 1][i - 1] == '*' && s[1..][..n - 1][i] == '/';
      n
  }

  /** The quoted text at the front of `s`, and where it ends: at a lone quote, or with the text. */
  function QuotedEnd(s: string, q: char): (r: (string, nat))
    ensures r.1 <= |s| && s[..r.1] == Doubled(r.0, q)
    ensures r.1 < |s| ==> s[r.1] == q && (r.1 + 1 < |s| ==> s[r.1 + 1] != q)
    decreases |s|
  {
    if s == [] then ([], 0)
    else if s[0] != q then
      var (b, n) := QuotedEnd(s[1..], q);
      assert ([s[0]] + b)[1..] == b && s[..n + 1] == [s[0]] + s[1..][..n];
      ([s[0]] + b, n + 1)
    else if |s| >= 2 && s[1] == q then
      var (b, n) := QuotedEnd(s[2..], q);
      assert ([q] + b)[1..] == b && s[..n + 2] == [q, q] + s[2..][..n];
      ([q] + b, n + 2)
    else ([], 0)
  }

  /** The first token of a text. */
  function FirstToken(s: string): Token
    requires s != []
  {
    if |s| >= 2 && s[..2] == "--" then var n := LineEnd(s[2..]); Line(s[2..][..n], n < |s| - 2)
    else if |s| >= 2 && s[..2] == "/*" then var n := BlockEnd(s[2..]); Block(s[2..][..n], n < |s| - 2)
    else if s[0] == '\'' || s[0] == '\"' then
      var (b, n) := QuotedEnd(s[1..], s[0]);
      Quoted(s[0] == '\"', b, n < |s| - 1)
    else Plain(s[0])
  }

  /** The text begins with `t`, and the rest may follow it. */
  ghost predicate StandsFirst(t: Token, s: string) {
    |Text(t)| <= |s| && s[..|Text(t)|] == Text(t) && Fits(t, s[|Text(t)|..])
  }

  lemma InFront(t: Token, rest: string)
    requires Fits(t, rest)
    ensures StandsFirst(t, Text(t) + rest)
  {
    assert (Text(t) + rest)[..|Text(t)|] == Text(t) && (Text(t) + rest)[|Text(t)|..] == rest;
  }

  /** A text cut after an opener of `k` characters, `n` more, and a closer of `c` characters. */
  lemma Pieces(s: string, k: nat, n: nat, c: nat)
    requires k + n + c <= |s|
    ensures s == s[..k] + (s[k..][..n] + s[k + n..][..c]) + s[k + n + c..]
  {
  }

  lemma FirstIs(t: Token, s: string, k: nat, n: nat, c: nat)
    requires k + n + c <= |s| && Text(t) == s[..k] + (s[k..][..n] + s[k + n..][..c]) && Fits(t, s[k + n + c..])
    ensures StandsFirst(t, s)
  {
    Pieces(s, k, n, c);
    InFront(t, s[k + n + c..]);
  }

  lemma LineFirst(s: string, n: nat)
    requires |s| >= 2 && s[..2] == "--" && n == LineEnd(s[2..])
    ensures StandsFirst(Line(s[2..][..n], n < |s| - 2), s)
  {
    if n < |s| - 2 {
      assert s[2 + n..][..1] == "\n" by { assert s[2 + n] == s[2..][n]; }
      FirstIs(Line(s[2..][..n], true), s, 2, n, 1);
    } else {
      assert s[2 + n..][..0] == "";
      FirstIs(Line(s[2..][..n], false), s, 2, n, 0);
    }
  }

  lemma BlockFirst(s: string, n: nat)
    requires |s| >= 2 && s[..2] == "/*" && n == BlockEnd(s[2..])
    ensures StandsFirst(Block(s[2..][..n], n < |s| - 2), s)
  {
    if n < |s| - 2 {
      assert s[2 + n..][..2] == "*/" by { assert s[2 + n] == s[2..][n] && s[2 + n + 1] == s[2..][n + 1]; }
      FirstIs(Block(s[2..][..n], true), s, 2, n, 2);
    } else {
      assert s[2 + n..][..0] == "";
      FirstIs(Block(s[2..][..n], false), s, 2, n, 0);
    }
  }

  lemma QuotedFirst(s: string, ident: bool, b: string, n: nat)
    requires s != [] && s[0] == QuoteOf(ident) && n < |s| && s[1..][..n] == Doubled(b, s[0])
    requires n + 1 < |s| ==> s[1 + n] == s[0] && (n + 2 < |s| ==> s[2 + n] != s[0])
    ensures StandsFirst(Quoted(ident, b, n < |s| - 1), s)
  {
    assert s[..1] == [s[0]];
    if n < |s| - 1 {
      assert s[1 + n..][..1] == [s[0]];
      FirstIs(Quoted(ident, b, true), s, 1, n, 1);
    } else {
      assert s[1 + n..][..0] == [];
      FirstIs(Quoted(ident, b, false), s, 1, n, 0);
    }
  }

  lemma FirstTokenFits(s: string)
    requires s != []
    ensures Text(FirstToken(s)) != [] && StandsFirst(FirstToken(s), s)
  {
    if |s| >= 2 && s[..2] == "--" { LineFirst(s, LineEnd(s[2..])); }
    else if |s| >= 2 && s[..2] == "/*" { BlockFirst(s, BlockEnd(s[2..])); }
    else if s[0] == '\'' || s[0] == '\"' {
      var (b, n) := QuotedEnd(s[1..], s[0]);
      QuotedFirst(s, s[0] == '\"', b, n);
    }
    else if |s| >= 2 { assert s[..2] == [s[0], s[1]]; }
  }

  /** Every text is written by some sequence of tokens, and masking leaves what that sequence
      leaves. */
  lemma {:induction false} EveryTextIsTokens(s: string)
    ensures exists ts :: Tokens(ts) && Written(ts) == s && Mask(s) == LeftOf(ts)
    decreases |s|
  {
    if s == [] {
      assert Tokens([]) && Written([]) == s;
    } else {
      FirstTokenFits(s);
      var t := FirstToken(s);
      EveryTextIsTokens(s[|Text(t)|..]);
      var rest :| Tokens(rest) && Written(rest) == s[|Text(t)|..];
      assert ([t] + rest)[1..] == rest;
      assert Tokens([t] + rest) && Written([t] + rest) == s;
      MaskOfTokens([t] + rest);
    }
  }
}
