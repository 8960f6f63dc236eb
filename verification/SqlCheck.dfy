/** The finding of unfiltered statements (`violations`, `has_target_predicate`), over the
    masked text.  The two regular expressions are parameters. */
module SqlCheck {
  import opened SqlMask

  datatype Token = Open | Close | Word(text: string)

  // ---------- the depth scan ----------

  /** Nesting depth after `ts`, never below zero: what the scan keeps. */
  function Clamped(ts: seq<Token>): int {
    if ts == [] then 0
    else
      var d := Clamped(ts[..|ts| - 1]);
      match ts[|ts| - 1]
      case Open => d + 1
      case Close => if d - 1 > 0 then d - 1 else 0
      case Word(_) => d
  }

  /** Opened minus closed parentheses. */
  function Net(ts: seq<Token>): int {
    if ts == [] then 0
    else Net(ts[..|ts| - 1]) + match ts[|ts| - 1] case Open => 1 case Close => -1 case Word(_) => 0
  }

  /** The lowest value `Net` takes on a prefix of `ts`. */
  function LowestNet(ts: seq<Token>): int {
    if ts == [] then 0
    else
      var low := LowestNet(ts[..|ts| - 1]);
      if Net(ts) < low then Net(ts) else low
  }

  /** The clamped depth is the true nesting above the lowest point so far. */
  lemma {:induction false} ClampedIsNet(ts: seq<Token>)
    ensures Clamped(ts) == Net(ts) - LowestNet(ts)
    ensures Clamped(ts) >= 0
  {
    if ts != [] { ClampedIsNet(ts[..|ts| - 1]); }
  }

  lemma {:induction false} LowestIsLowest(ts: seq<Token>)
    ensures forall i :: 0 <= i <= |ts| ==> LowestNet(ts) <= Net(ts[..i])
    ensures exists i :: 0 <= i <= |ts| && LowestNet(ts) == Net(ts[..i])
  {
    if ts == [] {
      assert ts[..0] == ts;
    } else {
      var n := |ts| - 1;
      LowestIsLowest(ts[..n]);
      assert forall i :: 0 <= i <= n ==> ts[..n][..i] == ts[..i];
      assert ts[..|ts|] == ts;
      if Net(ts) >= LowestNet(ts[..n]) {
        var i :| 0 <= i <= n && LowestNet(ts[..n]) == Net(ts[..n][..i]);
        assert LowestNet(ts) == Net(ts[..i]);
      }
    }
  }

  ghost predicate WhereAt(ts: seq<Token>, i: int) { 0 <= i < |ts| && ts[i] == Word("where") }

  method HasTargetPredicate(ts: seq<Token>) returns (found: bool)
    ensures found <==> exists i :: WhereAt(ts, i) && Clamped(ts[..i]) == 0
  {
    var depth := 0;
    for i := 0 to |ts|
      invariant depth == Clamped(ts[..i])
      invariant forall j :: WhereAt(ts, j) && j < i ==> Clamped(ts[..j]) != 0
    {
      assert ts[..i + 1][..i] == ts[..i];
      match ts[i] {
        case Open => depth := depth + 1;
        case Close => depth := if depth - 1 > 0 then depth - 1 else 0;
        case Word(w) =>
          if w == "where" && depth == 0 {
            assert WhereAt(ts, i);
            return true;
          }
      }
    }
    found := false;
  }

  /** For any statement the scan accepts a WHERE exactly at the outermost level reached so far;
      when no prefix closes more than it opened, that is nesting depth zero. */
  lemma PredicateIsTopLevel(ts: seq<Token>, i: int)
    requires WhereAt(ts, i)
    ensures Clamped(ts[..i]) == 0 <==> forall j :: 0 <= j <= i ==> Net(ts[..i]) <= Net(ts[..j])
    ensures (forall j :: 0 <= j <= i ==> Net(ts[..j]) >= 0) ==> (Clamped(ts[..i]) == 0 <==> Net(ts[..i]) == 0)
  {
    ClampedIsNet(ts[..i]);
    LowestIsLowest(ts[..i]);
    assert forall j :: 0 <= j <= i ==> ts[..i][..j] == ts[..j];
    assert Net(ts[..0]) == 0;
  }

  // ---------- findings ----------

  /** A match of the statement pattern in the masked text. */
  datatype Match = Match(start: nat, end: nat)

  /** The statement pattern, the tokeniser of a statement, and the whitespace clean-up of a
      matched text: all functions of masked text. */
  datatype Patterns = Patterns(find: string -> seq<Match>, tokens: string -> seq<Token>, tidy: string -> string)

  ghost predicate ValidPatterns(p: Patterns) {
    forall s, i :: 0 <= i < |p.find(s)| ==> p.find(s)[i].start <= p.find(s)[i].end <= |s|
  }

  datatype Finding = Finding(line: nat, text: string)

  function Newlines(s: string): nat {
    if s == [] then 0 else Newlines(s[..|s| - 1]) + if s[|s| - 1] == '\n' then 1 else 0
  }

  function StatementEnd(s: string, from: nat): (e: nat)
    requires from <= |s|
    ensures from <= e <= |s|
    decreases |s| - from
  {
    if from == |s| || s[from] == ';' then from else StatementEnd(s, from + 1)
  }

  ghost predicate Filtered(p: Patterns, masked: string, m: Match)
    requires m.start <= |masked|
  {
    var ts := p.tokens(masked[m.start..StatementEnd(masked, m.start)]);
    exists i :: WhereAt(ts, i) && Clamped(ts[..i]) == 0
  }

  /** The findings of the first `n` matches, in order. */
  ghost function Findings(p: Patterns, masked: string, n: nat): seq<Finding>
    requires ValidPatterns(p) && n <= |p.find(masked)|
  {
    if n == 0 then []
    else
      var m := p.find(masked)[n - 1];
      Findings(p, masked, n - 1)
      + if Filtered(p, masked, m) then [] else [Finding(Newlines(masked[..m.start]) + 1, p.tidy(masked[m.start..m.end]))]
  }

  ghost function Report(p: Patterns, sql: string): seq<Finding>
    requires ValidPatterns(p)
  {
    Findings(p, Mask(sql), |p.find(Mask(sql))|)
  }

  method Violations(sql: string, p: Patterns) returns (found: seq<Finding>)
    requires ValidPatterns(p)
    ensures found == Report(p, sql)
  {
    var masked := MaskCommentsAndLiterals(sql);
    var ms := p.find(masked);
    found := [];
    for i := 0 to |ms|
      invariant found == Findings(p, masked, i)
    {
      var m := ms[i];
      var statement := masked[m.start..StatementEnd(masked, m.start)];
      var filtered := HasTargetPredicate(p.tokens(statement));
      if !filtered {
        found := found + [Finding(Newlines(masked[..m.start]) + 1, p.tidy(masked[m.start..m.end]))];
      }
    }
  }

  lemma {:induction false} SameNewlines(a: string, b: string)
    requires |a| == |b| && forall i :: 0 <= i < |a| ==> (a[i] == '\n' <==> b[i] == '\n')
    ensures Newlines(a) == Newlines(b)
  {
    if a != [] { SameNewlines(a[..|a| - 1], b[..|b| - 1]); }
  }

  /** Each reported line is the true source line of the match: one more than the newlines
      before it in the original text. */
  lemma LineIsSourceLine(sql: string, start: nat)
    requires start <= |sql|
    ensures |Mask(sql)| == |sql|
    ensures Newlines(Mask(sql)[..start]) == Newlines(sql[..start])
  {
    MaskLength(sql, Code);
    forall i | 0 <= i < start ensures Mask(sql)[i] == '\n' <==> sql[i] == '\n' {
      MaskPointwise(sql, Code, i);
    }
    SameNewlines(Mask(sql)[..start], sql[..start]);
  }

  /** Edits inside a comment or literal that keep its extent and newlines leave the findings
      as they were. */
  lemma FindingsIgnoreComments(pt: Patterns, p: string, x: string, y: string, q: string)
    requires ValidPatterns(pt)
    requires Inside(p, x, q) && Inside(p, y, q) && Blanks(x) == Blanks(y)
    ensures Report(pt, p + x + q) == Report(pt, p + y + q)
  {
    EditInside(p, x, y, q);
  }

  // ---------- what is reported, in the text itself ----------

  /** `e` is where the statement at `start` ends: the first semicolon, or the end of the text. */
  ghost predicate EndsAt(s: string, start: nat, e: int) {
    start <= e <= |s| && (forall i :: start <= i < e ==> s[i] != ';') && (e < |s| ==> s[e] == ';')
  }

  lemma {:induction false} StatementEndsAt(s: string, start: nat)
    requires start <= |s|
    ensures EndsAt(s, start, StatementEnd(s, start))
    decreases |s| - start
  {
    if start < |s| && s[start] != ';' { StatementEndsAt(s, start + 1); }
  }

  /** A WHERE no deeper than any point before it. */
  ghost predicate TopWhere(ts: seq<Token>, i: int) {
    WhereAt(ts, i) && forall j :: 0 <= j <= i ==> Net(ts[..i]) <= Net(ts[..j])
  }

  /** The statement of match `m` has no such WHERE. */
  ghost predicate Unfiltered(p: Patterns, masked: string, m: Match) {
    exists e :: EndsAt(masked, m.start, e) && forall i :: !TopWhere(p.tokens(masked[m.start..e]), i)
  }

  lemma EndIsUnique(s: string, start: nat, e: int, e': int)
    requires EndsAt(s, start, e) && EndsAt(s, start, e')
    ensures e == e'
  {
  }

  lemma UnfilteredIff(p: Patterns, masked: string, m: Match)
    requires m.start <= |masked|
    ensures !Filtered(p, masked, m) <==> Unfiltered(p, masked, m)
  {
    var e := StatementEnd(masked, m.start);
    var ts := p.tokens(masked[m.start..e]);
    StatementEndsAt(masked, m.start);
    forall i | WhereAt(ts, i) ensures Clamped(ts[..i]) == 0 <==> TopWhere(ts, i) { PredicateIsTopLevel(ts, i); }
    if Unfiltered(p, masked, m) {
      var e' :| EndsAt(masked, m.start, e') && forall i :: !TopWhere(p.tokens(masked[m.start..e']), i);
      EndIsUnique(masked, m.start, e, e');
    }
  }

  lemma {:induction false} FindingsIff(p: Patterns, masked: string, n: nat, f: Finding)
    requires ValidPatterns(p) && n <= |p.find(masked)|
    ensures f in Findings(p, masked, n) <==> exists i :: 0 <= i < n && Finds(p, masked, p.find(masked)[i], f)
  {
    if n > 0 {
      FindingsIff(p, masked, n - 1, f);
      UnfilteredIff(p, masked, p.find(masked)[n - 1]);
    }
  }

  /** Match `m` is reported as `f`. */
  ghost predicate Finds(p: Patterns, masked: string, m: Match, f: Finding)
    requires m.start <= m.end <= |masked|
  {
    Unfiltered(p, masked, m) && f == Finding(Newlines(masked[..m.start]) + 1, p.tidy(masked[m.start..m.end]))
  }

  lemma {:induction false} NewlinesCount(s: string)
    ensures Newlines(s) == |set i | 0 <= i < |s| && s[i] == '\n'|
  {
    var marks := set i | 0 <= i < |s| && s[i] == '\n';
    if s == [] {
      assert marks == {};
    } else {
      var n := |s| - 1;
      NewlinesCount(s[..n]);
      var rest := set i | 0 <= i < |s[..n]| && s[..n][i] == '\n';
      assert marks == if s[n] == '\n' then rest + {n} else rest;
    }
  }

  /** Match `m` is reported as `f`, with the line counted in the source. */
  ghost predicate FindsIn(p: Patterns, sql: string, m: Match, f: Finding)
    requires m.start <= m.end <= |sql| == |Mask(sql)|
  {
    && Unfiltered(p, Mask(sql), m) && f.text == p.tidy(Mask(sql)[m.start..m.end])
    && f.line == 1 + |set k | 0 <= k < m.start && sql[k] == '\n'|
  }

  lemma FindsSourceLine(p: Patterns, sql: string, m: Match, f: Finding)
    requires m.start <= m.end <= |sql| == |Mask(sql)|
    ensures Finds(p, Mask(sql), m, f) <==> FindsIn(p, sql, m, f)
  {
    LineIsSourceLine(sql, m.start);
    NewlinesCount(sql[..m.start]);
    assert (set k | 0 <= k < |sql[..m.start]| && sql[..m.start][k] == '\n') == (set k | 0 <= k < m.start && sql[k] == '\n');
  }

  /** A finding is reported exactly for a match whose statement has no WHERE at its outermost
      level, with one more than the newlines before it in the source as its line. */
  lemma ReportIff(p: Patterns, sql: string, f: Finding)
    requires ValidPatterns(p)
    ensures |Mask(sql)| == |sql|
    ensures f in Report(p, sql) <==> exists i :: 0 <= i < |p.find(Mask(sql))| && FindsIn(p, sql, p.find(Mask(sql))[i], f)
  {
    MaskLength(sql, Code);
    FindingsIff(p, Mask(sql), |p.find(Mask(sql))|, f);
    forall i | 0 <= i < |p.find(Mask(sql))|
      ensures Finds(p, Mask(sql), p.find(Mask(sql))[i], f) <==> FindsIn(p, sql, p.find(Mask(sql))[i], f)
    {
      FindsSourceLine(p, sql, p.find(Mask(sql))[i], f);
    }
  }
}
