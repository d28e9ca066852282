/**
 A flag name for every parameter of a generated command. The search for a free name has
 no bound in the source; what ends it is that its candidates never repeat.
*/
module FlagNames {

  datatype ParamIn = InPath | InQuery | InHeader

  /** A parameter, by its kebab-cased name and the place it travels in. */
  datatype Param = Param(base: string, where: ParamIn)

  function Place(w: ParamIn): string {
    match w
    case InPath => "path"
    case InQuery => "query"
    case InHeader => "header"
  }

  function Decimal(n: nat): string {
    if n < 10 then [('0' as int + n) as char]
    else Decimal(n / 10) + [('0' as int + n % 10) as char]
  }

  /** The names tried for p, in the order they are tried. */
  function Candidate(p: Param, k: nat): string {
    if k == 0 then p.base
    else if k == 1 then p.base + "-" + Place(p.where)
    else p.base + "-" + Decimal(k)
  }

  lemma {:induction false} DecimalShape(n: nat)
    ensures Decimal(n) != [] && '0' <= Decimal(n)[0] <= '9'
  {
    if n >= 10 {
      DecimalShape(n / 10);
    }
  }

  lemma {:induction false} DecimalInjective(m: nat, n: nat)
    requires Decimal(m) == Decimal(n)
    ensures m == n
    decreases m + n
  {
    var s, t := Decimal(m), Decimal(n);
    if m < 10 && n >= 10 {
      DecimalShape(n / 10);
    } else if m >= 10 && n < 10 {
      DecimalShape(m / 10);
    } else {
      assert s[|s| - 1] == t[|t| - 1];
      if m >= 10 {
        assert s[..|s| - 1] == Decimal(m / 10) && t[..|t| - 1] == Decimal(n / 10);
        DecimalInjective(m / 10, n / 10);
      }
    }
  }

  lemma CandidatesDistinct(p: Param, j: nat, k: nat)
    requires j != k
    ensures Candidate(p, j) != Candidate(p, k)
  {
    if Candidate(p, j) == Candidate(p, k) {
      SameSuffix(p, j, k);
    }
  }

  function Suffix(p: Param, k: nat): string {
    if k == 0 then [] else if k == 1 then "-" + Place(p.where) else "-" + Decimal(k)
  }

  lemma SameSuffix(p: Param, j: nat, k: nat)
    requires Candidate(p, j) == Candidate(p, k)
    ensures j == k
  {
    assert Candidate(p, j) == p.base + Suffix(p, j);
    assert Candidate(p, k) == p.base + Suffix(p, k);
    assert Suffix(p, j) == Candidate(p, j)[|p.base|..] == Suffix(p, k);
    DecimalShape(j);
    DecimalShape(k);
    if j >= 2 && k >= 2 {
      assert Decimal(j) == Suffix(p, j)[1..] == Suffix(p, k)[1..] == Decimal(k);
      DecimalInjective(j, k);
    } else {
      // One of them is blank or starts with a letter after the dash, where a number has a digit.
      assert |Suffix(p, k)| >= 2 && |Suffix(p, j)| >= 2 ==> Suffix(p, j)[1] == Suffix(p, k)[1];
    }
  }

  /** name is candidate k, and the first of the candidates that nothing has taken. */
  ghost predicate FirstFree(p: Param, taken: set<string>, k: nat, name: string) {
    && name == Candidate(p, k)
    && name !in taken
    && forall j | 0 <= j < k :: Candidate(p, j) in taken
  }

  /** name is what the search for p comes to. */
  ghost predicate HasFirstFree(p: Param, taken: set<string>, name: string) {
    exists k :: FirstFree(p, taken, k, name)
  }

  function Tried(p: Param, n: nat): set<string> {
    set j | 0 <= j < n :: Candidate(p, j)
  }

  lemma {:induction false} TriedSize(p: Param, n: nat)
    ensures |Tried(p, n)| == n
  {
    if n == 0 {
      assert Tried(p, 0) == {};
    } else {
      TriedSize(p, n - 1);
      forall j | 0 <= j < n - 1 ensures Candidate(p, j) != Candidate(p, n - 1) {
        CandidatesDistinct(p, j, n - 1);
      }
      assert Tried(p, n) == Tried(p, n - 1) + {Candidate(p, n - 1)};
    }
  }

  /** Pigeonhole: so many different names cannot all be taken. */
  lemma TriedWithinTaken(p: Param, taken: set<string>, n: nat)
    requires forall j | 0 <= j < n :: Candidate(p, j) in taken
    ensures n <= |taken|
  {
    TriedSize(p, n);
    SubsetSize(Tried(p, n), taken);
  }

  lemma {:induction false} SubsetSize(a: set<string>, b: set<string>)
    requires a <= b
    ensures |a| <= |b|
  {
    assert b == a + (b - a);
  }

  /** The search ends for every finite set of taken names, within |taken| failures, on the first free candidate. */
  method FlagName(p: Param, taken: set<string>) returns (name: string, ghost k: nat)
    ensures FirstFree(p, taken, k, name) && k <= |taken|
    ensures name !in taken
  {
    var first := [p.base, p.base + "-" + Place(p.where)];
    for i := 0 to 2
      invariant forall j | 0 <= j < i :: Candidate(p, j) in taken
    {
      assert first[i] == Candidate(p, i);
      if first[i] !in taken {
        TriedWithinTaken(p, taken, i);
        return first[i], i;
      }
    }
    var n := 2;
    while true
      invariant n >= 2
      invariant forall j | 0 <= j < n :: Candidate(p, j) in taken
      decreases |taken| - n
    {
      TriedWithinTaken(p, taken, n);
      var candidate := p.base + "-" + Decimal(n);
      assert candidate == Candidate(p, n);
      if candidate !in taken {
        return candidate, n;
      }
      assert forall j | 0 <= j < n + 1 :: Candidate(p, j) in taken;
      TriedWithinTaken(p, taken, n + 1);
      n := n + 1;
    }
  }

  function Elements(names: seq<string>): set<string> {
    set name | name in names
  }

  /** Every parameter has the first name free of the reserved ones and of those given before it. */
  ghost predicate NamedInTurn(params: seq<Param>, reserved: set<string>, names: seq<string>) {
    && |names| == |params|
    && (params != [] ==>
          var n := |params| - 1;
          && NamedInTurn(params[..n], reserved, names[..n])
          && HasFirstFree(params[n], reserved + Elements(names[..n]), names[n]))
  }

  method RegisterParamFlags(params: seq<Param>, reserved: set<string>) returns (names: seq<string>)
    ensures NamedInTurn(params, reserved, names)
    ensures forall i | 0 <= i < |names| :: names[i] !in reserved
    ensures forall i, j | 0 <= i < j < |names| :: names[i] != names[j]
  {
    var taken := reserved;
    names := [];
    for i := 0 to |params|
      invariant taken == reserved + Elements(names)
      invariant NamedInTurn(params[..i], reserved, names)
    {
      var name, k := FlagName(params[i], taken);
      assert HasFirstFree(params[i], taken, name);
      NamesGrow(params, reserved, names, i, name);
      names := names + [name];
      taken := taken + {name};
    }
    assert params[..|params|] == params;
    NamedApart(params, reserved, names);
  }

  lemma NamesGrow(params: seq<Param>, reserved: set<string>, names: seq<string>, i: nat, name: string)
    requires i < |params| && NamedInTurn(params[..i], reserved, names)
    requires HasFirstFree(params[i], reserved + Elements(names), name)
    ensures NamedInTurn(params[..i + 1], reserved, names + [name])
    ensures reserved + Elements(names + [name]) == reserved + Elements(names) + {name}
  {
    var grown := names + [name];
    assert params[..i + 1][..i] == params[..i] && grown[..i] == names;
  }

  lemma {:induction false} NamedApart(params: seq<Param>, reserved: set<string>, names: seq<string>)
    requires NamedInTurn(params, reserved, names)
    ensures forall i | 0 <= i < |names| :: names[i] !in reserved
    ensures forall i, j | 0 <= i < j < |names| :: names[i] != names[j]
  {
    if params != [] {
      var n := |params| - 1;
      NamedApart(params[..n], reserved, names[..n]);
      forall i | 0 <= i < n
        ensures names[i] !in reserved && names[i] != names[n]
      {
        assert names[i] == names[..n][i] && names[i] in Elements(names[..n]);
      }
      forall i, j | 0 <= i < j < |names|
        ensures names[i] != names[j]
      {
        if j < n {
          assert names[..n][i] != names[..n][j];
        }
      }
    }
  }

  /** Naming is a function of its inputs: no other names satisfy the rule. */
  lemma {:induction false} NamesAreDetermined(params: seq<Param>, reserved: set<string>, a: seq<string>, b: seq<string>)
    requires NamedInTurn(params, reserved, a) && NamedInTurn(params, reserved, b)
    ensures a == b
  {
    if params != [] {
      var n := |params| - 1;
      NamesAreDetermined(params[..n], reserved, a[..n], b[..n]);
      assert a == a[..n] + [a[n]] && b == b[..n] + [b[n]];
    }
  }

  /** The number a string of digits stands for. */
  function ValueOf(digits: string): int {
    if digits == [] then 0
    else 10 * ValueOf(digits[..|digits| - 1]) + (digits[|digits| - 1] as int - '0' as int)
  }

  /** A numbered name ends in the number itself, in decimal. */
  lemma {:induction false} DecimalIsTheNumber(n: nat)
    ensures ValueOf(Decimal(n)) == n
    ensures forall i | 0 <= i < |Decimal(n)| :: '0' <= Decimal(n)[i] <= '9'
    ensures |Decimal(n)| > 1 ==> Decimal(n)[0] != '0'
  {
    var d := Decimal(n);
    if n >= 10 {
      DecimalIsTheNumber(n / 10);
      DecimalShape(n / 10);
      assert d[..|d| - 1] == Decimal(n / 10);
      if n / 10 < 10 {
        assert Decimal(n / 10) == [('0' as int + n / 10) as char];
      }
    } else {
      assert d[..0] == [];
    }
  }

  /**
   A parameter has its plain name whenever that is free; failing that, its name and the place
   it travels in; and failing that its name and the first free number from 2 on.
  */
  lemma PlainNameFirst(p: Param, taken: set<string>, name: string)
    requires HasFirstFree(p, taken, name)
    ensures p.base !in taken ==> name == p.base
    ensures var placed := p.base + (match p.where case InPath => "-path" case InQuery => "-query" case InHeader => "-header");
      && (p.base in taken && placed !in taken ==> name == placed)
      && (p.base in taken && placed in taken ==>
            exists n :: n >= 2 && name == p.base + "-" + Decimal(n)
              && forall m | 2 <= m < n :: p.base + "-" + Decimal(m) in taken)
  {
    var k: nat :| FirstFree(p, taken, k, name);
    var placed := p.base + (match p.where case InPath => "-path" case InQuery => "-query" case InHeader => "-header");
    assert Candidate(p, 0) == p.base;
    assert "-" + Place(p.where) == match p.where case InPath => "-path" case InQuery => "-query" case InHeader => "-header";
    assert Candidate(p, 1) == p.base + ("-" + Place(p.where)) == placed;
    if p.base in taken && placed in taken {
      assert k >= 2;
      forall m | 2 <= m < k ensures p.base + "-" + Decimal(m) in taken {
        assert Candidate(p, m) in taken;
      }
    }
  }
}
