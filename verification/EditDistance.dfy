/**
 The edit distance behind "did you mean" suggestions: two swapped rows instead of a
 full matrix. The rows are proved against the textbook recursion, and the recursion
 against the meaning of the word "distance": the length of a shortest chain of single
 rune edits. The metric laws then come from the chains and not from the arithmetic.
*/
module EditDistance {

  function Min(x: nat, y: nat): nat {
    if x <= y then x else y
  }

  function Init<T>(s: seq<T>): seq<T>
    requires s != []
  {
    s[..|s| - 1]
  }

  function Last<T>(s: seq<T>): T
    requires s != []
  {
    s[|s| - 1]
  }

  /** The recursion that the rows tabulate, peeling the last rune of each string. */
  function Levenshtein(a: string, b: string): nat
    decreases |a| + |b|
  {
    if a == [] then |b|
    else if b == [] then |a|
    else
      var cost := if Last(a) == Last(b) then 0 else 1;
      Min(Min(Levenshtein(a, Init(b)) + 1, Levenshtein(Init(a), b) + 1),
          Levenshtein(Init(a), Init(b)) + cost)
  }

  /** One cell of the full matrix the two rows stand for. */
  function Cell(a: string, b: string, i: nat, j: nat): nat
    requires i <= |a| && j <= |b|
  {
    Levenshtein(a[..i], b[..j])
  }

  lemma CellInside(a: string, b: string, i: nat, j: nat)
    requires 0 < i <= |a| && 0 < j <= |b|
    ensures Cell(a, b, i, j) ==
            Min(Min(Cell(a, b, i, j - 1) + 1, Cell(a, b, i - 1, j) + 1),
                Cell(a, b, i - 1, j - 1) + if a[i - 1] == b[j - 1] then 0 else 1)
  {
    assert Init(a[..i]) == a[..i - 1] && Init(b[..j]) == b[..j - 1];
  }

  /** The two-row loop. prev and curr trade places after every row. */
  method Distance(a: string, b: string) returns (d: nat)
    ensures d == Levenshtein(a, b)
  {
    var prev := new nat[|b| + 1];
    var curr := new nat[|b| + 1];
    for j := 0 to |b| + 1
      invariant forall k | 0 <= k < j :: prev[k] == Cell(a, b, 0, k)
    {
      prev[j] := j;
    }

    for i := 1 to |a| + 1
      invariant prev != curr && prev.Length == curr.Length == |b| + 1
      invariant fresh(prev) && fresh(curr)
      invariant forall k | 0 <= k <= |b| :: prev[k] == Cell(a, b, i - 1, k)
    {
      curr[0] := i;
      for j := 1 to |b| + 1
        invariant forall k | 0 <= k <= |b| :: prev[k] == Cell(a, b, i - 1, k)
        invariant forall k | 0 <= k < j :: curr[k] == Cell(a, b, i, k)
      {
        var cost := 1;
        if a[i - 1] == b[j - 1] {
          cost := 0;
        }
        CellInside(a, b, i, j);
        curr[j] := Min(Min(curr[j - 1] + 1, prev[j] + 1), prev[j - 1] + cost);
      }
      prev, curr := curr, prev;
    }
    assert a[..|a|] == a && b[..|b|] == b;
    d := prev[|b|];
  }

  // ---------------------------------------------------------------------------
  // What a distance is: a chain of single edits.
  // ---------------------------------------------------------------------------

  /** t is s with one rune put in. */
  ghost predicate Inserts(s: string, t: string) {
    exists i, c :: 0 <= i <= |s| && t == s[..i] + [c] + s[i..]
  }

  /** t is s with one rune replaced. */
  ghost predicate Substitutes(s: string, t: string) {
    |t| == |s| && exists i :: 0 <= i < |s| && t == s[i := t[i]]
  }

  ghost predicate OneEdit(s: string, t: string) {
    Inserts(s, t) || Inserts(t, s) || Substitutes(s, t)
  }

  /** A non-empty sequence of strings, each one edit away from the one before. */
  ghost predicate Chain(p: seq<string>) {
    && p != []
    && forall i | 0 <= i < |p| - 1 :: OneEdit(p[i], p[i + 1])
  }

  ghost predicate ChainFrom(p: seq<string>, a: string, b: string) {
    Chain(p) && p[0] == a && Last(p) == b
  }

  lemma OneEditSymmetric(s: string, t: string)
    requires OneEdit(s, t)
    ensures OneEdit(t, s)
  {
    if Substitutes(s, t) {
      var i :| 0 <= i < |s| && t == s[i := t[i]];
      assert s == t[i := s[i]];
    }
  }

  // --- upper bound: a chain as short as the recursion promises exists ---

  lemma OneEditUnderSuffix(s: string, t: string, c: char)
    requires OneEdit(s, t)
    ensures OneEdit(s + [c], t + [c])
  {
    if Inserts(s, t) {
      InsertUnderSuffix(s, t, c);
    } else if Inserts(t, s) {
      InsertUnderSuffix(t, s, c);
    } else {
      var i :| 0 <= i < |s| && t == s[i := t[i]];
      assert t + [c] == (s + [c])[i := (t + [c])[i]];
    }
  }

  lemma InsertUnderSuffix(s: string, t: string, c: char)
    requires Inserts(s, t)
    ensures Inserts(s + [c], t + [c])
  {
    var i, x :| 0 <= i <= |s| && t == s[..i] + [x] + s[i..];
    assert t + [c] == (s + [c])[..i] + [x] + (s + [c])[i..];
  }

  function WithSuffix(p: seq<string>, c: char): (q: seq<string>)
    ensures |q| == |p| && forall i | 0 <= i < |p| :: q[i] == p[i] + [c]
  {
    seq(|p|, i requires 0 <= i < |p| => p[i] + [c])
  }

  lemma ChainUnderSuffix(p: seq<string>, a: string, b: string, c: char)
    requires ChainFrom(p, a, b)
    ensures ChainFrom(WithSuffix(p, c), a + [c], b + [c])
  {
    forall i | 0 <= i < |p| - 1
      ensures OneEdit(WithSuffix(p, c)[i], WithSuffix(p, c)[i + 1])
    {
      OneEditUnderSuffix(p[i], p[i + 1], c);
    }
  }

  lemma ChainExtends(p: seq<string>, a: string, b: string, c: string)
    requires ChainFrom(p, a, b) && OneEdit(b, c)
    ensures ChainFrom(p + [c], a, c)
  {
  }

  lemma AppendIsInsert(s: string, c: char)
    ensures Inserts(s, s + [c])
  {
    assert s + [c] == s[..|s|] + [c] + s[|s|..];
  }

  /** A chain with exactly Levenshtein(a, b) edits. */
  lemma {:induction false} ShortestChain(a: string, b: string) returns (p: seq<string>)
    ensures ChainFrom(p, a, b) && |p| - 1 == Levenshtein(a, b)
    decreases |a| + |b|
  {
    if a == [] && b == [] {
      p := [a];
    } else if a == [] || (b != [] && Levenshtein(a, b) == Levenshtein(a, Init(b)) + 1) {
      assert b == Init(b) + [Last(b)];
      p := ShortestChain(a, Init(b));
      AppendIsInsert(Init(b), Last(b));
      ChainExtends(p, a, Init(b), b);
      p := p + [b];
    } else if b == [] || Levenshtein(a, b) == Levenshtein(Init(a), b) + 1 {
      assert a == Init(a) + [Last(a)];
      p := ShortestChain(Init(a), b);
      AppendIsInsert(Init(a), Last(a));
      p := PrependEdit(a, p, Init(a), b);
    } else {
      assert a == Init(a) + [Last(a)] && b == Init(b) + [Last(b)];
      p := ShortestChain(Init(a), Init(b));
      ChainUnderSuffix(p, Init(a), Init(b), Last(a));
      p := WithSuffix(p, Last(a));
      if Last(a) != Last(b) {
        var last := Init(b) + [Last(a)];
        assert b == last[|b| - 1 := b[|b| - 1]];
        ChainExtends(p, a, last, b);
        p := p + [b];
      }
    }
  }

  lemma PrependEdit(a: string, p: seq<string>, s: string, b: string) returns (q: seq<string>)
    requires ChainFrom(p, s, b) && OneEdit(a, s)
    ensures ChainFrom(q, a, b) && |q| == |p| + 1
  {
    q := [a] + p;
    forall i | 0 <= i < |q| - 1
      ensures OneEdit(q[i], q[i + 1])
    {
      assert q[i + 1] == p[i];
      if i > 0 {
        assert q[i] == p[i - 1];
      }
    }
  }

  // --- lower bound: one edit moves the distance by at most one ---

  lemma {:induction false} AppendMoves(s: string, x: char, c: string)
    ensures Levenshtein(s + [x], c) <= Levenshtein(s, c) + 1
    ensures Levenshtein(s, c) <= Levenshtein(s + [x], c) + 1
    decreases |c|
  {
    assert Init(s + [x]) == s;
    if c != [] {
      AppendMoves(s, x, Init(c));
      LastRuneMoves(s, c);
    }
  }

  lemma LastRuneMoves(s: string, c: string)
    requires c != []
    ensures Levenshtein(s, c) <= Levenshtein(s, Init(c)) + 1
  {
  }

  lemma {:induction false} ReplaceLastMoves(s: string, x: char, y: char, c: string)
    ensures Levenshtein(s + [x], c) <= Levenshtein(s + [y], c) + 1
    decreases |c|
  {
    assert Init(s + [x]) == s && Init(s + [y]) == s;
    if c != [] {
      ReplaceLastMoves(s, x, y, Init(c));
    }
  }

  /** An edit below a common last rune moves the distance no further than the edit itself does. */
  lemma {:induction false} CommonSuffixMoves(s: string, t: string, x: char, c: string)
    requires forall d: string | |d| <= |c| :: Levenshtein(s, d) <= Levenshtein(t, d) + 1
    ensures Levenshtein(s + [x], c) <= Levenshtein(t + [x], c) + 1
    decreases |c|
  {
    assert Init(s + [x]) == s && Init(t + [x]) == t;
    if c == [] {
      assert Levenshtein(s, []) <= Levenshtein(t, []) + 1;
    } else {
      CommonSuffixMoves(s, t, x, Init(c));
    }
  }

  lemma {:induction false} InsertMoves(s: string, i: nat, c: char, b: string)
    requires i <= |s|
    ensures var t := s[..i] + [c] + s[i..];
            Levenshtein(t, b) <= Levenshtein(s, b) + 1 && Levenshtein(s, b) <= Levenshtein(t, b) + 1
    decreases |s|
  {
    var t := s[..i] + [c] + s[i..];
    if i == |s| {
      assert t == s + [c];
      AppendMoves(s, c, b);
    } else {
      var s0 := Init(s);
      var t0 := s0[..i] + [c] + s0[i..];
      assert s == s0 + [Last(s)] && t == t0 + [Last(s)];
      forall d: string
        ensures Levenshtein(t0, d) <= Levenshtein(s0, d) + 1 && Levenshtein(s0, d) <= Levenshtein(t0, d) + 1
      {
        InsertMoves(s0, i, c, d);
      }
      CommonSuffixMoves(s0, t0, Last(s), b);
      CommonSuffixMoves(t0, s0, Last(s), b);
    }
  }

  lemma {:induction false} SubstituteMoves(s: string, i: nat, c: char, b: string)
    requires i < |s|
    ensures Levenshtein(s, b) <= Levenshtein(s[i := c], b) + 1
    decreases |s|
  {
    var t := s[i := c];
    var s0 := Init(s);
    assert s == s0 + [Last(s)];
    if i == |s| - 1 {
      assert t == s0 + [c];
      ReplaceLastMoves(s0, Last(s), c, b);
    } else {
      var t0 := s0[i := c];
      assert t == t0 + [Last(s)];
      forall d: string
        ensures Levenshtein(s0, d) <= Levenshtein(t0, d) + 1
      {
        SubstituteMoves(s0, i, c, d);
      }
      CommonSuffixMoves(s0, t0, Last(s), b);
    }
  }

  lemma {:induction false} OneEditMoves(s: string, t: string, b: string)
    requires OneEdit(s, t)
    ensures Levenshtein(s, b) <= Levenshtein(t, b) + 1
  {
    if Inserts(s, t) {
      var i, c :| 0 <= i <= |s| && t == s[..i] + [c] + s[i..];
      InsertMoves(s, i, c, b);
    } else if Inserts(t, s) {
      var i, c :| 0 <= i <= |t| && s == t[..i] + [c] + t[i..];
      InsertMoves(t, i, c, b);
    } else {
      var i :| 0 <= i < |s| && t == s[i := t[i]];
      SubstituteMoves(s, i, t[i], b);
    }
  }

  lemma {:induction false} SelfDistance(a: string)
    ensures Levenshtein(a, a) == 0
  {
    if a != [] {
      SelfDistance(Init(a));
    }
  }

  lemma {:induction false} NoChainIsShorter(p: seq<string>, a: string, b: string)
    requires ChainFrom(p, a, b)
    ensures Levenshtein(a, b) <= |p| - 1
    decreases |p|
  {
    if |p| == 1 {
      SelfDistance(a);
    } else {
      forall i | 0 <= i < |p[1..]| - 1
        ensures OneEdit(p[1..][i], p[1..][i + 1])
      {
        assert OneEdit(p[i + 1], p[i + 2]);
      }
      NoChainIsShorter(p[1..], p[1], b);
      OneEditMoves(a, p[1], b);
    }
  }

  // ---------------------------------------------------------------------------
  // The theorems.
  // ---------------------------------------------------------------------------

  /** The distance is the length of a shortest edit script: one that long exists, and none is shorter. */
  lemma {:induction false} DistanceIsShortestScript(a: string, b: string)
    ensures exists p :: ChainFrom(p, a, b) && |p| - 1 == Levenshtein(a, b)
    ensures forall p :: ChainFrom(p, a, b) ==> Levenshtein(a, b) <= |p| - 1
  {
    var p := ShortestChain(a, b);
    forall q | ChainFrom(q, a, b)
      ensures Levenshtein(a, b) <= |q| - 1
    {
      NoChainIsShorter(q, a, b);
    }
  }

  lemma {:induction false} DistanceZeroOnlyForEqual(a: string, b: string)
    ensures Levenshtein(a, b) == 0 <==> a == b
  {
    SelfDistance(a);
    var p := ShortestChain(a, b);
  }

  function Reversed(p: seq<string>): (q: seq<string>)
    ensures |q| == |p| && forall i | 0 <= i < |p| :: q[i] == p[|p| - 1 - i]
  {
    seq(|p|, i requires 0 <= i < |p| => p[|p| - 1 - i])
  }

  lemma {:induction false} DistanceSymmetric(a: string, b: string)
    ensures Levenshtein(a, b) == Levenshtein(b, a)
  {
    DistanceAtMostReverse(a, b);
    DistanceAtMostReverse(b, a);
  }

  lemma {:induction false} DistanceAtMostReverse(a: string, b: string)
    ensures Levenshtein(b, a) <= Levenshtein(a, b)
  {
    var p := ShortestChain(a, b);
    var q := Reversed(p);
    forall i | 0 <= i < |q| - 1
      ensures OneEdit(q[i], q[i + 1])
    {
      var k := |p| - 2 - i;
      assert OneEdit(p[k], p[k + 1]);
      OneEditSymmetric(p[k], p[k + 1]);
    }
    NoChainIsShorter(q, b, a);
  }

  lemma {:induction false} DistanceTriangle(a: string, b: string, c: string)
    ensures Levenshtein(a, c) <= Levenshtein(a, b) + Levenshtein(b, c)
  {
    var p := ShortestChain(a, b);
    var q := ShortestChain(b, c);
    var r := p + q[1..];
    forall i | 0 <= i < |r| - 1
      ensures OneEdit(r[i], r[i + 1])
    {
      if i < |p| - 1 {
        assert OneEdit(p[i], p[i + 1]);
      } else {
        var k := i - (|p| - 1);
        assert r[i] == q[k] && r[i + 1] == q[k + 1];
      }
    }
    NoChainIsShorter(r, a, c);
  }
}
