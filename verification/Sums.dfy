/** Sums of sequences of reals. */
module Sums {

  function Total(s: seq<real>): real {
    if s == [] then 0.0 else Total(s[..|s| - 1]) + s[|s| - 1]
  }

  lemma {:induction false} TotalAppend(a: seq<real>, b: seq<real>)
    ensures Total(a + b) == Total(a) + Total(b)
  {
    if b == [] {
      assert a + b == a;
    } else {
      assert (a + b)[..|a + b| - 1] == a + b[..|b| - 1];
      TotalAppend(a, b[..|b| - 1]);
    }
  }

  lemma DivAdd(x: real, y: real, c: real)
    requires c != 0.0
    ensures (x + y) / c == x / c + y / c
  {
  }

  lemma {:induction false} TotalDiv(c: real, s: seq<real>, t: seq<real>)
    requires c != 0.0 && |t| == |s| && forall i :: 0 <= i < |s| ==> t[i] == s[i] / c
    ensures Total(t) == Total(s) / c
  {
    if s != [] {
      TotalDiv(c, s[..|s| - 1], t[..|t| - 1]);
      DivAdd(Total(s[..|s| - 1]), s[|s| - 1], c);
    }
  }
}
