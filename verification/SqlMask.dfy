/** The masking lexer of `scripts/check_sql_unfiltered_dml.py` (`mask_comments_and_literals`). */
module SqlMask {
  import opened Basics

  datatype Mode = Code | LineComment | BlockComment | Literal | Identifier

  function Blank(c: char): char { if c == '\n' then '\n' else ' ' }

  function Delimiter(m: Mode): char { if m.Literal? then '\'' else '\"' }

  predicate Starts(s: string, a: char, b: char) { |s| >= 2 && s[0] == a && s[1] == b }

  /** How many characters the lexer consumes at the front of `s`, and the mode it goes to. */
  function Bite(s: string, m: Mode): (nat, Mode)
    requires s != []
  {
    match m
    case Code =>
      if Starts(s, '-', '-') then (2, LineComment)
      else if Starts(s, '/', '*') then (2, BlockComment)
      else if s[0] == '\'' then (1, Literal)
      else if s[0] == '\"' then (1, Identifier)
      else (1, Code)
    case LineComment => (1, if s[0] == '\n' then Code else LineComment)
    case BlockComment => if Starts(s, '*', '/') then (2, Code) else (1, BlockComment)
    case _ =>
      var d := Delimiter(m);
      if Starts(s, d, d) then (2, m) else (1, if s[0] == d then Code else m)
  }

  lemma BiteFits(s: string, m: Mode)
    requires s != []
    ensures 1 <= Bite(s, m).0 <= 2 && Bite(s, m).0 <= |s|
  {
  }

  /** A character of code stays; everything the lexer takes for a comment, a literal or one of
      their delimiters becomes a blank, except newlines. */
  predicate Kept(s: string, m: Mode)
    requires s != []
  {
    m.Code? && Bite(s, m) == (1, Code)
  }

  /** What the consumed characters become. */
  function Front(s: string, m: Mode): string
    requires s != []
  {
    if Kept(s, m) then [s[0]] else if Bite(s, m).0 == 2 then [' ', ' '] else [Blank(s[0])]
  }

  function MaskFrom(s: string, m: Mode): string
    decreases |s|
  {
    if s == [] then []
    else
      BiteFits(s, m);
      Front(s, m) + MaskFrom(s[Bite(s, m).0..], Bite(s, m).1)
  }

  function Mask(sql: string): string { MaskFrom(sql, Code) }

  lemma MaskStep(s: string, m: Mode, n: nat, next: Mode)
    requires s != [] && Bite(s, m) == (n, next)
    ensures n <= |s| && MaskFrom(s, m) == Front(s, m) + MaskFrom(s[n..], next)
  {
    BiteFits(s, m);
  }

  // ---------- the loop ----------

  /** Overwrites the characters the lexer consumes at `i`. */
  method Overwrite(chars: array<char>, i: nat, state: Mode) returns (n: nat, next: Mode)
    requires i < chars.Length
    modifies chars
    ensures (n, next) == Bite(old(chars[i..]), state) && 1 <= n && i + n <= chars.Length
    ensures chars[..i + n] == old(chars[..i]) + Front(old(chars[i..]), state)
    ensures chars[i + n..] == old(chars[i + n..])
  {
    ghost var rest := chars[i..];
    BiteFits(rest, state);
    var kept := Kept(chars[i..], state);
    n, next := Bite(chars[i..], state).0, Bite(chars[i..], state).1;
    if n == 2 {
      chars[i], chars[i + 1] := ' ', ' ';
    } else if !kept && chars[i] != '\n' {
      chars[i] := ' ';
    }
  }

  lemma Assoc(a: string, b: string, c: string)
    ensures a + (b + c) == (a + b) + c
  {
  }

  lemma LoopStep(before: string, rest: string, m: Mode, n: nat, next: Mode, done: string)
    requires rest != [] && Bite(rest, m) == (n, next) && done == before + Front(rest, m)
    ensures n <= |rest| && done + MaskFrom(rest[n..], next) == before + MaskFrom(rest, m)
  {
    MaskStep(rest, m, n, next);
    Assoc(before, Front(rest, m), MaskFrom(rest[n..], next));
  }

  method MaskInPlace(chars: array<char>)
    modifies chars
    ensures chars[..] == Mask(old(chars[..]))
  {
    var i, state := 0, Code;
    ghost var target := Mask(chars[..]);
    assert chars[0..] == chars[..];
    while i < chars.Length
      invariant 0 <= i <= chars.Length
      invariant chars[..i] + MaskFrom(chars[i..], state) == target
    {
      ghost var before, rest, state0 := chars[..i], chars[i..], state;
      var n;
      n, state := Overwrite(chars, i, state);
      LoopStep(before, rest, state0, n, state, chars[..i + n]);
      assert chars[i + n..] == rest[n..];
      i := i + n;
    }
    assert chars[i..] == [] && chars[..i] == chars[..];
  }

  method MaskCommentsAndLiterals(sql: string) returns (masked: string)
    ensures masked == Mask(sql)
  {
    var chars := new char[|sql|](i requires 0 <= i < |sql| => sql[i]);
    assert chars[..] == sql;
    MaskInPlace(chars);
    masked := chars[..];
  }

  // ---------- length, newlines, code ----------

  /** The lexer's verdict per position: code or not. */
  function CodeFrom(s: string, m: Mode): seq<bool>
    decreases |s|
  {
    if s == [] then []
    else
      var (n, next) := Bite(s, m);
      BiteFits(s, m);
      CodeFront(s, m) + CodeFrom(s[n..], next)
  }

  function CodeFront(s: string, m: Mode): seq<bool>
    requires s != []
  {
    if Bite(s, m).0 == 2 then [false, false] else [Kept(s, m)]
  }

  /** The claim below for the characters consumed first. */
  lemma FrontPointwise(s: string, m: Mode, i: nat)
    requires s != [] && i < Bite(s, m).0
    ensures |Front(s, m)| == |CodeFront(s, m)| == Bite(s, m).0 <= |s|
    ensures Front(s, m)[i] == if CodeFront(s, m)[i] then s[i] else Blank(s[i])
  {
    BiteFits(s, m);
  }

  lemma CodeStep(s: string, m: Mode, n: nat, next: Mode)
    requires s != [] && Bite(s, m) == (n, next)
    ensures n <= |s| && CodeFrom(s, m) == CodeFront(s, m) + CodeFrom(s[n..], next)
  {
    BiteFits(s, m);
  }

  /** Masking keeps the length, every newline position and every code character, and blanks
      everything else. */
  lemma {:induction false} MaskPointwise(s: string, m: Mode, i: nat)
    requires i < |s|
    ensures |MaskFrom(s, m)| == |s| == |CodeFrom(s, m)|
    ensures MaskFrom(s, m)[i] == if CodeFrom(s, m)[i] then s[i] else Blank(s[i])
    ensures MaskFrom(s, m)[i] == '\n' <==> s[i] == '\n'
    decreases |s|
  {
    var (n, next) := Bite(s, m);
    BiteFits(s, m);
    MaskStep(s, m, n, next);
    CodeStep(s, m, n, next);
    FrontPointwise(s, m, if i < n then i else 0);
    if n < |s| {
      var k := if i < n then 0 else i - n;
      MaskPointwise(s[n..], next, k);
      assert s[n..][k] == s[n + k];
    } else {
      assert s[n..] == [];
    }
  }

  lemma MaskLength(s: string, m: Mode)
    ensures |MaskFrom(s, m)| == |s|
  {
    if s != [] { MaskPointwise(s, m, 0); }
  }

  // ---------- no opener survives; masking is idempotent ----------

  predicate Quote(c: char) { c == '\'' || c == '\"' }

  predicate Opener(a: char, b: char) { (a == '-' && b == '-') || (a == '/' && b == '*') }

  ghost predicate Clean(s: string) {
    && (forall i :: 0 <= i < |s| ==> !Quote(s[i]))
    && (forall i :: 0 <= i < |s| - 1 ==> !Opener(s[i], s[i + 1]))
  }

  lemma CleanAppend(a: string, b: string)
    requires Clean(a) && Clean(b)
    requires a != [] && b != [] ==> !Opener(a[|a| - 1], b[0])
    ensures Clean(a + b)
  {
    forall i | 0 <= i < |a + b| - 1 ensures !Opener((a + b)[i], (a + b)[i + 1]) {
      if i < |a| - 1 { assert !Opener(a[i], a[i + 1]); }
      else if i >= |a| { assert !Opener(b[i - |a|], b[i - |a| + 1]); }
    }
  }

  lemma {:induction false} MaskIsClean(s: string, m: Mode)
    ensures Clean(MaskFrom(s, m))
    decreases |s|
  {
    if s != [] {
      BiteFits(s, m);
      var (n, next) := Bite(s, m);
      var rest := MaskFrom(s[n..], next);
      MaskIsClean(s[n..], next);
      var front := Front(s, m);
      if n < |s| {
        MaskPointwise(s[n..], next, 0);
        assert rest[0] == s[n] || rest[0] == ' ';
      } else {
        MaskLength(s[n..], next);
      }
      CleanAppend(front, rest);
    }
  }

  lemma {:induction false} CleanIsFixed(s: string)
    requires Clean(s)
    ensures MaskFrom(s, Code) == s
  {
    if s != [] {
      assert !Quote(s[0]);
      if |s| >= 2 { assert !Opener(s[0], s[0 + 1]); }
      forall i | 0 <= i < |s[1..]| - 1 ensures !Opener(s[1..][i], s[1..][i + 1]) {
        assert !Opener(s[i + 1], s[i + 1 + 1]);
      }
      CleanIsFixed(s[1..]);
      assert s == [s[0]] + s[1..];
    }
  }

  lemma MaskIdempotent(sql: string)
    ensures Clean(Mask(sql)) && Mask(Mask(sql)) == Mask(sql)
  {
    MaskIsClean(sql, Code);
    CleanIsFixed(Mask(sql));
  }

  // ---------- cutting the text ----------

  /** The mode after the whole of `p`. */
  function End(p: string, m: Mode): Mode
    decreases |p|
  {
    if p == [] then m
    else
      var (n, next) := Bite(p, m);
      BiteFits(p, m);
      End(p[n..], next)
  }

  /** The mode in which the last character of `p` was read, if it was read on its own. */
  function Lone(p: string, m: Mode): Option<Mode>
    decreases |p|
  {
    if p == [] then None
    else
      var (n, next) := Bite(p, m);
      BiteFits(p, m);
      if n < |p| then Lone(p[n..], next) else if n == 1 then Some(m) else None
  }

  /** `a` and `b` are read together in mode `m`. */
  predicate Joins(m: Mode, a: char, b: char) {
    match m
    case Code => Opener(a, b)
    case LineComment => false
    case BlockComment => a == '*' && b == '/'
    case _ => a == Delimiter(m) && b == Delimiter(m)
  }

  /** The last character of `p` was read on its own, but with `b` behind it would not be. */
  predicate Straddles(p: string, b: string, m: Mode) {
    p != [] && b != [] && Lone(p, m).Some? && Joins(Lone(p, m).value, p[|p| - 1], b[0])
  }

  lemma BiteLooksTwoAhead(p: string, b: string, m: Mode)
    requires p != [] && (|p| >= 2 || b == [] || !Joins(m, p[0], b[0]))
    ensures Bite(p + b, m) == Bite(p, m)
  {
  }

  lemma SameFront(p: string, b: string, m: Mode)
    requires p != [] && Bite(p + b, m) == Bite(p, m)
    ensures Front(p + b, m) == Front(p, m)
  {
  }

  lemma StepAppend(p: string, b: string, m: Mode, n: nat, next: Mode)
    requires p != [] && n <= |p| && Bite(p, m) == Bite(p + b, m) == (n, next)
    ensures MaskFrom(p + b, m) == Front(p, m) + MaskFrom(p[n..] + b, next)
  {
    MaskStep(p + b, m, n, next);
    SameFront(p, b, m);
    assert (p + b)[n..] == p[n..] + b;
  }

  lemma ResumeStep(p: string, b: string, m: Mode, n: nat, next: Mode, tail: string)
    requires p != [] && n <= |p| && Bite(p, m) == Bite(p + b, m) == (n, next)
    requires MaskFrom(p[n..] + b, next) == MaskFrom(p[n..], next) + tail
    ensures MaskFrom(p + b, m) == MaskFrom(p, m) + tail
  {
    MaskStep(p, m, n, next);
    StepAppend(p, b, m, n, next);
    Assoc(Front(p, m), MaskFrom(p[n..], next), tail);
  }

  lemma StraddleStep(p: string, b: string, m: Mode, n: nat, next: Mode)
    requires p != [] && Bite(p, m) == (n, next)
    ensures n <= |p| && End(p, m) == End(p[n..], next)
    ensures n < |p| ==> (Straddles(p, b, m) <==> Straddles(p[n..], b, next))
    ensures n == |p| ==> End(p, m) == next && (Straddles(p, b, m) <==> |p| == 1 && b != [] && Joins(m, p[0], b[0]))
  {
    BiteFits(p, m);
    if n == |p| {
      assert p[n..] == [];
    } else {
      assert Lone(p, m) == Lone(p[n..], next) && p[n..][|p| - n - 1] == p[|p| - 1];
    }
  }

  /** Masking can be cut anywhere, in any mode, and resumed in the mode reached, unless the two
      characters at the cut are read together. */
  lemma {:induction false} Resume(p: string, b: string, m: Mode)
    requires !Straddles(p, b, m)
    ensures MaskFrom(p + b, m) == MaskFrom(p, m) + MaskFrom(b, End(p, m))
    decreases |p|
  {
    if p == [] {
      assert p + b == b;
    } else {
      var (n, next) := Bite(p, m);
      BiteFits(p, m);
      StraddleStep(p, b, m, n, next);
      BiteLooksTwoAhead(p, b, m);
      if n == |p| { assert p[n..] == []; }
      Resume(p[n..], b, next);
      ResumeStep(p, b, m, n, next, MaskFrom(b, End(p, m)));
    }
  }

  /** Inside a literal, a quoted identifier or a line comment no cut is ever bridged; inside a
      block comment only one between an unread star and a slash is. */
  lemma {:induction false} OnlyStarsStraddle(p: string, b: string, m: Mode)
    requires Straddles(p, b, m) && !End(p, m).Code?
    ensures End(p, m).BlockComment? && Lone(p, m) == Some(BlockComment) && p[|p| - 1] == '*' && b[0] == '/'
    decreases |p|
  {
    var (n, next) := Bite(p, m);
    StraddleStep(p, b, m, n, next);
    if n < |p| { OnlyStarsStraddle(p[n..], b, next); }
  }

  // ---------- edits inside a comment or literal ----------

  /** The lexer stays in mode `m` throughout `x`: doubled delimiters of a literal included. */
  predicate Stays(x: string, m: Mode)
    decreases |x|
  {
    x == [] ||
      (BiteFits(x, m);
       Bite(x, m).1 == m && Stays(x[Bite(x, m).0..], m))
  }

  function Blanks(x: string): string { seq(|x|, i requires 0 <= i < |x| => Blank(x[i])) }

  lemma FrontIsBlank(x: string, m: Mode, n: nat)
    requires x != [] && !m.Code? && Bite(x, m) == (n, m)
    ensures n <= |x| && Front(x, m) == Blanks(x[..n])
  {
    BiteFits(x, m);
  }

  lemma BlanksSplit(x: string, n: nat)
    requires n <= |x|
    ensures Blanks(x) == Blanks(x[..n]) + Blanks(x[n..])
  {
  }

  lemma {:induction false} StaysBlank(x: string, m: Mode)
    requires !m.Code? && Stays(x, m)
    ensures End(x, m) == m && MaskFrom(x, m) == Blanks(x)
    decreases |x|
  {
    if x != [] {
      var n := Bite(x, m).0;
      BiteFits(x, m);
      FrontIsBlank(x, m, n);
      MaskStep(x, m, n, m);
      StaysBlank(x[n..], m);
      BlanksSplit(x, n);
    }
  }

  /** Text `x` between `p` and `q` keeps the lexer in the comment or literal that `p` opens: it
      never leaves the mode, and neither end joins with what stands next to it. */
  predicate Inside(p: string, x: string, q: string) {
    var m := End(p, Code);
    !m.Code? && Stays(x, m) && !Straddles(p, x + q, Code) && !Straddles(x, q, m)
  }

  lemma InsideIsBlanked(p: string, x: string, q: string)
    requires Inside(p, x, q)
    ensures Mask(p + x + q) == Mask(p) + (Blanks(x) + MaskFrom(q, End(p, Code)))
  {
    var m := End(p, Code);
    assert p + x + q == p + (x + q);
    Resume(p, x + q, Code);
    Resume(x, q, m);
    StaysBlank(x, m);
  }

  /** An edit inside a comment or literal that keeps its extent and its newlines does not
      change the masked text. */
  lemma EditInside(p: string, x: string, y: string, q: string)
    requires Inside(p, x, q) && Inside(p, y, q) && Blanks(x) == Blanks(y)
    ensures Mask(p + x + q) == Mask(p + y + q)
  {
    InsideIsBlanked(p, x, q);
    InsideIsBlanked(p, y, q);
  }

  /** In a literal, a quoted identifier or a line comment, staying in the mode is all it takes. */
  lemma StaysIsInside(p: string, x: string, q: string)
    requires var m := End(p, Code); (m.Literal? || m.Identifier? || m.LineComment?) && Stays(x, m)
    ensures Inside(p, x, q)
  {
    var m := End(p, Code);
    StaysBlank(x, m);
    if Straddles(p, x + q, Code) { OnlyStarsStraddle(p, x + q, Code); }
    if Straddles(x, q, m) { OnlyStarsStraddle(x, q, m); }
  }

  /** A line comment holds any text without a newline. */
  lemma {:induction false} LineText(x: string)
    ensures Stays(x, LineComment) <==> forall i :: 0 <= i < |x| ==> x[i] != '\n'
  {
    if x != [] {
      LineText(x[1..]);
      assert forall i :: 1 <= i < |x| ==> x[i] == x[1..][i - 1];
    }
  }

  /** A block comment holds any text without a star followed by a slash. */
  lemma {:induction false} BlockText(x: string)
    ensures Stays(x, BlockComment) <==> forall i :: 0 <= i < |x| - 1 ==> !Joins(BlockComment, x[i], x[i + 1])
  {
    if x != [] {
      BlockText(x[1..]);
      assert forall i :: 1 <= i < |x| ==> x[i] == x[1..][i - 1];
      if forall i :: 0 <= i < |x| - 1 ==> !Joins(BlockComment, x[i], x[i + 1]) {
        forall i | 0 <= i < |x[1..]| - 1 ensures !Joins(BlockComment, x[1..][i], x[1..][i + 1]) {
          assert !Joins(BlockComment, x[i + 1], x[i + 1 + 1]);
        }
        if |x| > 1 { assert !Joins(BlockComment, x[0], x[0 + 1]); }
      }
      if Stays(x, BlockComment) {
        forall i | 0 <= i < |x| - 1 ensures !Joins(BlockComment, x[i], x[i + 1]) {
          if i > 0 { assert !Joins(BlockComment, x[1..][i - 1], x[1..][i - 1 + 1]); }
        }
      }
    }
  }

  /** What can stand in a literal or quoted identifier: any other character, and the delimiter
      twice. */
  lemma LiteralText(c: char, x: string, m: Mode)
    requires (m.Literal? || m.Identifier?) && Stays(x, m)
    ensures c != Delimiter(m) ==> Stays([c] + x, m)
    ensures Stays([Delimiter(m), Delimiter(m)] + x, m)
  {
    assert ([c] + x)[1..] == x && ([Delimiter(m), Delimiter(m)] + x)[2..] == x;
  }

  /** A doubled delimiter is text like any other: it can be edited into two other characters,
      as `'it''s'` into `'itxxs'`. */
  lemma DoubledDelimiter(p: string, c: char, d: char, x: string, q: string)
    requires var m := End(p, Code); (m.Literal? || m.Identifier?) && Stays(x, m)
    requires var m := End(p, Code); c != Delimiter(m) && d != Delimiter(m) && c != '\n' && d != '\n'
    ensures var m := End(p, Code); Mask(p + ([Delimiter(m), Delimiter(m)] + x) + q) == Mask(p + ([c] + ([d] + x)) + q)
  {
    var m := End(p, Code);
    var doubled, edited := [Delimiter(m), Delimiter(m)] + x, [c] + ([d] + x);
    LiteralText(d, x, m);
    LiteralText(c, [d] + x, m);
    StaysIsInside(p, doubled, q);
    StaysIsInside(p, edited, q);
    assert Blanks(doubled) == Blanks(edited);
    EditInside(p, doubled, edited, q);
  }
}
