/** The two wildcard compilers: wildcardMatch (core/security.go) and wildcardExpression
    (internal/coreurl/url.go). Each writes a regular expression, anchored at both ends, which is a list of
    atoms here. A pattern is a list of bytes, and both compilers take each for the character of that
    number; a sample is a list of characters. */
module Globs {
  datatype Atom =
    | Literal(c: char)
    | Other        // one character that is no separator
    | OtherStar
    | AnyStar      // a dot does not match a line break
    | SeparatorStar

  predicate Separator(c: char) {
    c == '/' || c == '\\'
  }

  predicate AllSeparators(s: string) {
    forall i | 0 <= i < |s| :: Separator(s[i])
  }

  /** The language of an expression. */
  predicate Accepts(a: Atom, s: string) {
    match a
    case Literal(c) => s == [c]
    case Other => |s| == 1 && !Separator(s[0])
    case OtherStar => forall i | 0 <= i < |s| :: !Separator(s[i])
    case AnyStar => forall i | 0 <= i < |s| :: s[i] != '\n'
    case SeparatorStar => AllSeparators(s)
  }

  predicate InLanguage(r: seq<Atom>, s: string) {
    if r == [] then s == []
    else exists i | 0 <= i <= |s| :: Accepts(r[0], s[..i]) && InLanguage(r[1..], s[i..])
  }

  // ----- core/security.go

  function Parsed(p: string): seq<Atom> {
    if p == [] then []
    else if p[0] == '*' then
      if |p| > 1 && p[1] == '*' then [AnyStar] + Parsed(p[2..]) else [OtherStar] + Parsed(p[1..])
    else if p[0] == '?' then [Other] + Parsed(p[1..])
    else [Literal(p[0])] + Parsed(p[1..])
  }

  function Compiled(p: string): seq<Atom> {
    Parsed(p) + [SeparatorStar]
  }

  method WildcardMatch(pattern: string, sample: string) returns (matched: bool)
    ensures matched <==> exists k | 0 <= k <= |sample| :: Glob(pattern, sample[..k]) && AllSeparators(sample[k..])
  {
    var expression: seq<Atom> := [];
    var index := 0;
    while index < |pattern|
      invariant 0 <= index <= |pattern|
      invariant Parsed(pattern) == expression + Parsed(pattern[index..])
    {
      ParsedStep(pattern, index);
      if pattern[index] == '*' {
        if index + 1 < |pattern| && pattern[index + 1] == '*' {
          Shift(expression, AnyStar, Parsed(pattern[index + 2..]));
          expression := expression + [AnyStar];
          index := index + 1;
        } else {
          Shift(expression, OtherStar, Parsed(pattern[index + 1..]));
          expression := expression + [OtherStar];
        }
      } else if pattern[index] == '?' {
        Shift(expression, Other, Parsed(pattern[index + 1..]));
        expression := expression + [Other];
      } else {
        Shift(expression, Literal(pattern[index]), Parsed(pattern[index + 1..]));
        expression := expression + [Literal(pattern[index])];
      }
      index := index + 1;
    }
    assert pattern[index..] == [];
    assert expression == Parsed(pattern);
    expression := expression + [SeparatorStar];
    MatchIsGlob(pattern, sample);
    return InLanguage(expression, sample);
  }

  lemma ParsedStep(p: string, i: nat)
    requires i < |p|
    ensures p[i] == '*' && i + 1 < |p| && p[i + 1] == '*' ==> Parsed(p[i..]) == [AnyStar] + Parsed(p[i + 2..])
    ensures p[i] == '*' && !(i + 1 < |p| && p[i + 1] == '*') ==> Parsed(p[i..]) == [OtherStar] + Parsed(p[i + 1..])
    ensures p[i] == '?' ==> Parsed(p[i..]) == [Other] + Parsed(p[i + 1..])
    ensures p[i] !in {'?', '*'} ==> Parsed(p[i..]) == [Literal(p[i])] + Parsed(p[i + 1..])
  {
    assert p[i..][1..] == p[i + 1..];
    if i + 1 < |p| { assert p[i..][2..] == p[i + 2..]; }
  }

  // ----- internal/coreurl/url.go

  function HostParsed(p: string): seq<Atom> {
    if p == [] then []
    else if p[0] == '\\' then if |p| > 1 then [Literal(p[1])] + HostParsed(p[2..]) else []
    else if p[0] == '?' then [Other] + HostParsed(p[1..])
    else if p[0] == '*' then [OtherStar] + HostParsed(p[1..])
    else [Literal(p[0])] + HostParsed(p[1..])
  }

  function HostCompiled(p: string): seq<Atom> {
    HostParsed(p) + [SeparatorStar]
  }

  method WildcardExpression(pattern: string) returns (expression: seq<Atom>)
    ensures expression == HostCompiled(pattern)
  {
    expression := [];
    var index := 0;
    while index < |pattern|
      invariant 0 <= index <= |pattern|
      invariant HostParsed(pattern) == expression + HostParsed(pattern[index..])
    {
      HostParsedStep(pattern, index);
      if pattern[index] == '\\' {
        if index + 1 < |pattern| {
          index := index + 1;
          Shift(expression, Literal(pattern[index]), HostParsed(pattern[index + 1..]));
          expression := expression + [Literal(pattern[index])];
        }
      } else if pattern[index] == '?' {
        Shift(expression, Other, HostParsed(pattern[index + 1..]));
        expression := expression + [Other];
      } else if pattern[index] == '*' {
        Shift(expression, OtherStar, HostParsed(pattern[index + 1..]));
        expression := expression + [OtherStar];
      } else {
        Shift(expression, Literal(pattern[index]), HostParsed(pattern[index + 1..]));
        expression := expression + [Literal(pattern[index])];
      }
      index := index + 1;
    }
    assert pattern[index..] == [];
    expression := expression + [SeparatorStar];
  }

  lemma Shift(done: seq<Atom>, a: Atom, rest: seq<Atom>)
    ensures done + ([a] + rest) == done + [a] + rest
  {
  }

  lemma HostParsedStep(p: string, i: nat)
    requires i < |p|
    ensures p[i] == '\\' && i + 1 < |p| ==> HostParsed(p[i..]) == [Literal(p[i + 1])] + HostParsed(p[i + 2..])
    ensures p[i] == '\\' && i + 1 == |p| ==> HostParsed(p[i..]) == HostParsed(p[i + 1..])
    ensures p[i] == '?' ==> HostParsed(p[i..]) == [Other] + HostParsed(p[i + 1..])
    ensures p[i] == '*' ==> HostParsed(p[i..]) == [OtherStar] + HostParsed(p[i + 1..])
    ensures p[i] !in {'\\', '?', '*'} ==> HostParsed(p[i..]) == [Literal(p[i])] + HostParsed(p[i + 1..])
  {
    assert p[i..][1..] == p[i + 1..];
    if i + 1 < |p| { assert p[i..][2..] == p[i + 2..]; }
  }

  // ----- the direct matcher

  /** A glob matcher without expressions: a star matches nothing, or one more character. */
  predicate Glob(p: string, s: string)
    decreases |p|, |s|
  {
    if p == [] then s == []
    else if p[0] == '*' then
      if |p| > 1 && p[1] == '*' then Glob(p[2..], s) || (s != [] && s[0] != '\n' && Glob(p, s[1..]))
      else Glob(p[1..], s) || (s != [] && !Separator(s[0]) && Glob(p, s[1..]))
    else if p[0] == '?' then s != [] && !Separator(s[0]) && Glob(p[1..], s[1..])
    else s != [] && s[0] == p[0] && Glob(p[1..], s[1..])
  }

  predicate Passes(a: Atom, c: char) {
    (a == OtherStar && !Separator(c)) || (a == AnyStar && c != '\n')
  }

  lemma StarAccepts(a: Atom, s: string)
    requires a == OtherStar || a == AnyStar
    ensures Accepts(a, s) <==> s == [] || (Passes(a, s[0]) && Accepts(a, s[1..]))
  {
    if s != [] && Passes(a, s[0]) && Accepts(a, s[1..]) {
      assert s == [s[0]] + s[1..];
    }
  }

  lemma InCons(a: Atom, rest: seq<Atom>, s: string, i: nat)
    requires i <= |s| && Accepts(a, s[..i]) && InLanguage(rest, s[i..])
    ensures InLanguage([a] + rest, s)
  {
    assert ([a] + rest)[1..] == rest;
  }

  lemma OutCons(a: Atom, rest: seq<Atom>, s: string) returns (i: nat)
    requires InLanguage([a] + rest, s)
    ensures i <= |s| && Accepts(a, s[..i]) && InLanguage(rest, s[i..])
  {
    assert ([a] + rest)[1..] == rest;
    i :| 0 <= i <= |s| && Accepts(([a] + rest)[0], s[..i]) && InLanguage(([a] + rest)[1..], s[i..]);
  }

  lemma StarStops(a: Atom, rest: seq<Atom>, s: string)
    requires (a == OtherStar || a == AnyStar) && InLanguage(rest, s)
    ensures InLanguage([a] + rest, s)
  {
    assert s[..0] == [] && s[0..] == s;
    InCons(a, rest, s, 0);
  }

  lemma StarTakes(a: Atom, rest: seq<Atom>, s: string)
    requires (a == OtherStar || a == AnyStar) && s != [] && Passes(a, s[0]) && InLanguage([a] + rest, s[1..])
    ensures InLanguage([a] + rest, s)
  {
    var i := OutCons(a, rest, s[1..]);
    assert s[..i + 1][1..] == s[1..][..i] && s[i + 1..] == s[1..][i..];
    StarAccepts(a, s[..i + 1]);
    InCons(a, rest, s, i + 1);
  }

  lemma StarGives(a: Atom, rest: seq<Atom>, s: string)
    requires (a == OtherStar || a == AnyStar) && InLanguage([a] + rest, s)
    ensures InLanguage(rest, s) || (s != [] && Passes(a, s[0]) && InLanguage([a] + rest, s[1..]))
  {
    var i := OutCons(a, rest, s);
    if i == 0 {
      assert s[0..] == s;
    } else {
      StarAccepts(a, s[..i]);
      assert s[..i][1..] == s[1..][..i - 1] && s[i..] == s[1..][i - 1..];
      InCons(a, rest, s[1..], i - 1);
    }
  }

  lemma StarUnrolls(a: Atom, rest: seq<Atom>, s: string)
    requires a == OtherStar || a == AnyStar
    ensures InLanguage([a] + rest, s) <==>
              InLanguage(rest, s) || (s != [] && Passes(a, s[0]) && InLanguage([a] + rest, s[1..]))
  {
    if InLanguage([a] + rest, s) { StarGives(a, rest, s); }
    if InLanguage(rest, s) { StarStops(a, rest, s); }
    if s != [] && Passes(a, s[0]) && InLanguage([a] + rest, s[1..]) { StarTakes(a, rest, s); }
  }

  lemma OneUnrolls(a: Atom, rest: seq<Atom>, s: string)
    requires a.Literal? || a.Other?
    ensures InLanguage([a] + rest, s) <==> s != [] && Accepts(a, [s[0]]) && InLanguage(rest, s[1..])
  {
    if InLanguage([a] + rest, s) {
      var i := OutCons(a, rest, s);
      assert |s[..i]| == 1;
      assert s[..1] == [s[0]];
    }
    if s != [] && Accepts(a, [s[0]]) && InLanguage(rest, s[1..]) {
      assert s[..1] == [s[0]];
      InCons(a, rest, s, 1);
    }
  }

  lemma {:induction false} ParsedIsGlob(p: string, s: string)
    ensures InLanguage(Parsed(p), s) <==> Glob(p, s)
    decreases |p|, |s|
  {
    if p == [] {
    } else if p[0] == '*' {
      var double := |p| > 1 && p[1] == '*';
      var rest := if double then p[2..] else p[1..];
      var a := if double then AnyStar else OtherStar;
      assert Parsed(p) == [a] + Parsed(rest);
      StarUnrolls(a, Parsed(rest), s);
      ParsedIsGlob(rest, s);
      if s != [] { ParsedIsGlob(p, s[1..]); }
    } else {
      var a := if p[0] == '?' then Other else Literal(p[0]);
      assert Parsed(p) == [a] + Parsed(p[1..]);
      OneUnrolls(a, Parsed(p[1..]), s);
      if s != [] { ParsedIsGlob(p[1..], s[1..]); }
    }
  }

  lemma Slices(s: string, i: nat, k: nat)
    requires i <= k <= |s|
    ensures s[..k][..i] == s[..i] && s[..k][i..] == s[i..][..k - i] && s[k..] == s[i..][k - i..]
  {
  }

  lemma InSingle(a: Atom, s: string)
    ensures InLanguage([a], s) <==> Accepts(a, s)
  {
    assert s[..|s|] == s && s[|s|..] == [];
    assert [a][1..] == [];
  }

  lemma Heads(r: seq<Atom>, last: Atom)
    requires r != []
    ensures r + [last] == [r[0]] + (r[1..] + [last]) && r == [r[0]] + r[1..]
  {
  }

  lemma {:induction false} InAppended(r: seq<Atom>, last: Atom, s: string, k: nat)
    requires k <= |s| && InLanguage(r, s[..k]) && Accepts(last, s[k..])
    ensures InLanguage(r + [last], s)
  {
    if r == [] {
      assert s[k..] == s && r + [last] == [last];
      InSingle(last, s);
    } else {
      Heads(r, last);
      var i := OutCons(r[0], r[1..], s[..k]);
      Slices(s, i, k);
      InAppended(r[1..], last, s[i..], k - i);
      InCons(r[0], r[1..] + [last], s, i);
    }
  }

  lemma InPrefix(a: Atom, rest: seq<Atom>, s: string, i: nat, j: nat)
    requires i + j <= |s| && Accepts(a, s[..i]) && InLanguage(rest, s[i..][..j])
    ensures InLanguage([a] + rest, s[..i + j])
  {
    Slices(s, i, i + j);
    InCons(a, rest, s[..i + j], i);
  }

  lemma {:induction false} OutAppended(r: seq<Atom>, last: Atom, s: string) returns (k: nat)
    requires InLanguage(r + [last], s)
    ensures k <= |s| && InLanguage(r, s[..k]) && Accepts(last, s[k..])
    decreases |r|, 1
  {
    if r == [] {
      k := 0;
      assert s[0..] == s && r + [last] == [last];
      InSingle(last, s);
    } else {
      Heads(r, last);
      k := OutAppendedCons(r[0], r[1..], last, s);
    }
  }

  lemma {:induction false} OutAppendedCons(a: Atom, rest: seq<Atom>, last: Atom, s: string) returns (k: nat)
    requires InLanguage([a] + (rest + [last]), s)
    ensures k <= |s| && InLanguage([a] + rest, s[..k]) && Accepts(last, s[k..])
    decreases |rest| + 1, 0
  {
    var i := OutCons(a, rest + [last], s);
    var j := OutAppended(rest, last, s[i..]);
    k := i + j;
    InPrefix(a, rest, s, i, j);
    Slices(s, i, k);
  }

  /** The expression matches what the direct matcher does, and separators behind it. */
  lemma MatchIsGlob(p: string, s: string)
    ensures InLanguage(Compiled(p), s) <==> exists k | 0 <= k <= |s| :: Glob(p, s[..k]) && AllSeparators(s[k..])
  {
    if InLanguage(Compiled(p), s) {
      var k := OutAppended(Parsed(p), SeparatorStar, s);
      ParsedIsGlob(p, s[..k]);
      assert Glob(p, s[..k]) && AllSeparators(s[k..]);
    }
    if k: int :| 0 <= k <= |s| && Glob(p, s[..k]) && AllSeparators(s[k..]) {
      ParsedIsGlob(p, s[..k]);
      InAppended(Parsed(p), SeparatorStar, s, k);
    }
  }

  // ----- the direct matcher of hosts

  /** The same for the host compiler: a backslash takes the next character as it is, and is nothing at the
      end; there is no double star. */
  predicate HostGlob(p: string, s: string)
    decreases |p|, |s|
  {
    if p == [] then s == []
    else if p[0] == '\\' then if |p| > 1 then s != [] && s[0] == p[1] && HostGlob(p[2..], s[1..]) else s == []
    else if p[0] == '*' then HostGlob(p[1..], s) || (s != [] && !Separator(s[0]) && HostGlob(p, s[1..]))
    else if p[0] == '?' then s != [] && !Separator(s[0]) && HostGlob(p[1..], s[1..])
    else s != [] && s[0] == p[0] && HostGlob(p[1..], s[1..])
  }

  lemma {:induction false} HostParsedIsGlob(p: string, s: string)
    ensures InLanguage(HostParsed(p), s) <==> HostGlob(p, s)
    decreases |p|, |s|
  {
    if p == [] || p == "\\" {
    } else if p[0] == '*' {
      assert HostParsed(p) == [OtherStar] + HostParsed(p[1..]);
      StarUnrolls(OtherStar, HostParsed(p[1..]), s);
      HostParsedIsGlob(p[1..], s);
      if s != [] { HostParsedIsGlob(p, s[1..]); }
    } else {
      var a := if p[0] == '\\' then Literal(p[1]) else if p[0] == '?' then Other else Literal(p[0]);
      var rest := if p[0] == '\\' then p[2..] else p[1..];
      assert HostParsed(p) == [a] + HostParsed(rest);
      OneUnrolls(a, HostParsed(rest), s);
      if s != [] { HostParsedIsGlob(rest, s[1..]); }
    }
  }

  /** The host expression matches what that matcher does, and separators behind it. */
  lemma HostMatchIsGlob(p: string, s: string)
    ensures InLanguage(HostCompiled(p), s) <==> exists k | 0 <= k <= |s| :: HostGlob(p, s[..k]) && AllSeparators(s[k..])
  {
    if InLanguage(HostCompiled(p), s) {
      var k := OutAppended(HostParsed(p), SeparatorStar, s);
      HostParsedIsGlob(p, s[..k]);
      assert HostGlob(p, s[..k]) && AllSeparators(s[k..]);
    }
    if k: int :| 0 <= k <= |s| && HostGlob(p, s[..k]) && AllSeparators(s[k..]) {
      HostParsedIsGlob(p, s[..k]);
      InAppended(HostParsed(p), SeparatorStar, s, k);
    }
  }

  // ----- when the two compilers agree

  function Backslashes(s: string): nat {
    if s == [] then 0 else (if s[0] == '\\' then 1 else 0) + Backslashes(s[1..])
  }

  function Separators(s: string): nat {
    if s == [] then 0 else (if Separator(s[0]) then 1 else 0) + Separators(s[1..])
  }

  /** How many separators end the string. */
  function Trailing(s: string): nat {
    if s == [] || !Separator(s[|s| - 1]) then 0 else 1 + Trailing(s[..|s| - 1])
  }

  function LiteralBackslashes(r: seq<Atom>): nat {
    if r == [] then 0 else (if r[0] == Literal('\\') then 1 else 0) + LiteralBackslashes(r[1..])
  }

  function LiteralSeparators(r: seq<Atom>): nat {
    if r == [] then 0 else (if r[0].Literal? && Separator(r[0].c) then 1 else 0) + LiteralSeparators(r[1..])
  }

  /** A shortest match: nothing for a star. */
  function Shortest(r: seq<Atom>): string {
    if r == [] then []
    else if r[0].Literal? then [r[0].c] + Shortest(r[1..])
    else if r[0].Other? then "a" + Shortest(r[1..])
    else Shortest(r[1..])
  }

  lemma {:induction false} ShortestMatches(r: seq<Atom>)
    ensures InLanguage(r, Shortest(r))
  {
    if r != [] {
      ShortestMatches(r[1..]);
      var s := Shortest(r);
      assert r == [r[0]] + r[1..];
      if r[0].Literal? || r[0].Other? {
        assert s[1..] == Shortest(r[1..]) && s[..1] == [s[0]];
        InCons(r[0], r[1..], s, 1);
      } else {
        assert s[..0] == [] && s[0..] == s;
        InCons(r[0], r[1..], s, 0);
      }
    }
  }

  lemma {:induction false} ShortestCounts(r: seq<Atom>)
    ensures Backslashes(Shortest(r)) == LiteralBackslashes(r)
    ensures Separators(Shortest(r)) == LiteralSeparators(r)
  {
    if r != [] {
      ShortestCounts(r[1..]);
      var s := Shortest(r);
      if r[0].Literal? || r[0].Other? { assert s[1..] == Shortest(r[1..]); }
    }
  }

  lemma {:induction false} BackslashesSplit(s: string, i: nat)
    requires i <= |s|
    ensures Backslashes(s) == Backslashes(s[..i]) + Backslashes(s[i..])
  {
    if i == 0 {
      assert s[0..] == s;
    } else {
      BackslashesSplit(s[1..], i - 1);
      assert s[..i][1..] == s[1..][..i - 1] && s[1..][i - 1..] == s[i..];
    }
  }

  lemma {:induction false} SeparatorsSplit(s: string, i: nat)
    requires i <= |s|
    ensures Separators(s) == Separators(s[..i]) + Separators(s[i..])
  {
    if i == 0 {
      assert s[0..] == s;
    } else {
      SeparatorsSplit(s[1..], i - 1);
      assert s[..i][1..] == s[1..][..i - 1] && s[1..][i - 1..] == s[i..];
    }
  }

  /** A match has at least the backslashes that the expression spells out. */
  lemma {:induction false} BackslashesNeeded(r: seq<Atom>, s: string)
    requires InLanguage(r, s)
    ensures Backslashes(s) >= LiteralBackslashes(r)
  {
    if r != [] {
      assert r == [r[0]] + r[1..];
      var i := OutCons(r[0], r[1..], s);
      BackslashesNeeded(r[1..], s[i..]);
      BackslashesSplit(s, i);
      if r[0] == Literal('\\') { assert s[..i] == ['\\']; }
    }
  }

  /** Every backslash of the pattern is a literal of one expression; the other spends at least every second
      one. */
  lemma {:induction false} ParsedBackslashes(p: string)
    ensures LiteralBackslashes(Parsed(p)) == Backslashes(p)
  {
    if p != [] {
      if p[0] == '*' && |p| > 1 && p[1] == '*' {
        ParsedBackslashes(p[2..]);
        assert p[1..][1..] == p[2..];
        assert Parsed(p)[1..] == Parsed(p[2..]);
      } else {
        ParsedBackslashes(p[1..]);
        assert Parsed(p)[1..] == Parsed(p[1..]);
      }
    }
  }

  lemma {:induction false} HostParsedBackslashes(p: string)
    ensures LiteralBackslashes(HostParsed(p)) <= Backslashes(p)
    ensures Backslashes(p) > 0 ==> LiteralBackslashes(HostParsed(p)) < Backslashes(p)
  {
    if p != [] {
      if p[0] != '\\' {
        HostParsedBackslashes(p[1..]);
        assert HostParsed(p)[1..] == HostParsed(p[1..]);
      } else if |p| > 1 {
        HostParsedBackslashes(p[2..]);
        assert p[1..][1..] == p[2..];
        assert HostParsed(p)[1..] == HostParsed(p[2..]);
      }
    }
  }

  lemma {:induction false} LiteralsAppend(r: seq<Atom>)
    ensures LiteralBackslashes(r + [SeparatorStar]) == LiteralBackslashes(r)
  {
    if r == [] {
      assert r + [SeparatorStar] == [SeparatorStar];
      assert [SeparatorStar][1..] == [];
    } else {
      LiteralsAppend(r[1..]);
      assert (r + [SeparatorStar])[1..] == r[1..] + [SeparatorStar];
    }
  }

  /** With a backslash in the pattern, the shortest match of one is no match of the other. */
  lemma BackslashDiffers(p: string)
    requires Backslashes(p) > 0
    ensures InLanguage(HostCompiled(p), Shortest(HostCompiled(p)))
    ensures !InLanguage(Compiled(p), Shortest(HostCompiled(p)))
  {
    var s := Shortest(HostCompiled(p));
    ShortestMatches(HostCompiled(p));
    ShortestCounts(HostCompiled(p));
    ParsedBackslashes(p);
    HostParsedBackslashes(p);
    LiteralsAppend(Parsed(p));
    LiteralsAppend(HostParsed(p));
    if InLanguage(Compiled(p), s) { BackslashesNeeded(Compiled(p), s); }
  }

  /** An expression whose separators are all spelled out, except at its end. */
  predicate Spelled(r: seq<Atom>) {
    r != [] && if |r| == 1 then r[0] == SeparatorStar else !r[0].AnyStar? && !r[0].SeparatorStar? && Spelled(r[1..])
  }

  lemma {:induction false} HostIsSpelled(p: string)
    ensures Spelled(HostCompiled(p))
  {
    if HostParsed(p) != [] {
      var rest := if p[0] == '\\' then p[2..] else p[1..];
      HostIsSpelled(rest);
      assert HostCompiled(p)[1..] == HostCompiled(rest);
    }
  }

  lemma {:induction false} AllTrailing(s: string)
    requires AllSeparators(s)
    ensures Separators(s) == |s| == Trailing(s)
  {
    if s != [] {
      AllTrailing(s[..|s| - 1]);
      SeparatorsSplit(s, |s| - 1);
      assert s[|s| - 1..] == [s[|s| - 1]];
    }
  }

  lemma {:induction false} TrailingGrows(s: string, i: nat)
    requires i <= |s|
    ensures Trailing(s[i..]) <= Trailing(s)
  {
    if i < |s| && Separator(s[|s| - 1]) {
      TrailingGrows(s[..|s| - 1], i);
      assert s[i..][..|s[i..]| - 1] == s[..|s| - 1][i..];
    }
  }

  lemma {:induction false} NoSeparators(s: string)
    requires forall i | 0 <= i < |s| :: !Separator(s[i])
    ensures Separators(s) == 0
  {
    if s != [] { NoSeparators(s[1..]); }
  }

  /** A match of a spelled expression has no separator but those spelled out and those that end it. */
  lemma {:induction false} SeparatorsBounded(r: seq<Atom>, s: string)
    requires Spelled(r) && InLanguage(r, s)
    ensures Separators(s) <= LiteralSeparators(r) + Trailing(s)
  {
    assert r == [r[0]] + r[1..];
    var i := OutCons(r[0], r[1..], s);
    if |r| == 1 {
      assert s[..i] == s;
      AllTrailing(s);
    } else {
      SeparatorsBounded(r[1..], s[i..]);
      SeparatorsSplit(s, i);
      TrailingGrows(s, i);
      AtomSeparators(r[0], s[..i]);
    }
  }

  lemma AtomSeparators(a: Atom, s: string)
    requires Accepts(a, s) && !a.AnyStar? && !a.SeparatorStar?
    ensures Separators(s) == if a.Literal? && Separator(a.c) then 1 else 0
  {
    if a.OtherStar? { NoSeparators(s); } else { assert s[1..] == []; }
  }

  function Repeated(n: nat): string {
    if n == 0 then [] else "/a" + Repeated(n - 1)
  }

  /** A match whose first double star takes `n` separators, each before a letter. */
  function Stretched(r: seq<Atom>, n: nat): string {
    if r == [] then []
    else if r[0].Literal? then [r[0].c] + Stretched(r[1..], n)
    else if r[0].Other? then "a" + Stretched(r[1..], n)
    else if r[0].AnyStar? then Repeated(n) + Shortest(r[1..])
    else Stretched(r[1..], n)
  }

  lemma {:induction false} RepeatedFacts(n: nat)
    ensures Accepts(AnyStar, Repeated(n)) && |Repeated(n)| == 2 * n && Separators(Repeated(n)) == n
    ensures n > 0 ==> Repeated(n)[2 * n - 1] == 'a'
  {
    if n > 0 {
      RepeatedFacts(n - 1);
      var s := Repeated(n);
      assert s[1..] == "a" + Repeated(n - 1) && s[1..][1..] == Repeated(n - 1);
      forall i | 0 <= i < |s|
        ensures s[i] != '\n'
      {
        if i >= 2 { assert s[i] == Repeated(n - 1)[i - 2]; }
      }
    }
  }

  lemma {:induction false} StretchedMatches(r: seq<Atom>, n: nat)
    ensures InLanguage(r, Stretched(r, n))
  {
    if r != [] {
      var s := Stretched(r, n);
      assert r == [r[0]] + r[1..];
      if r[0].AnyStar? {
        RepeatedFacts(n);
        ShortestMatches(r[1..]);
        assert s[..2 * n] == Repeated(n) && s[2 * n..] == Shortest(r[1..]);
        InCons(r[0], r[1..], s, 2 * n);
      } else if r[0].Literal? || r[0].Other? {
        StretchedMatches(r[1..], n);
        assert s[1..] == Stretched(r[1..], n) && s[..1] == [s[0]];
        InCons(r[0], r[1..], s, 1);
      } else {
        StretchedMatches(r[1..], n);
        assert s[..0] == [] && s[0..] == s;
        InCons(r[0], r[1..], s, 0);
      }
    }
  }

  lemma {:induction false} TrailingAtMost(s: string)
    ensures Trailing(s) <= Separators(s)
  {
    if s != [] && Separator(s[|s| - 1]) {
      TrailingAtMost(s[..|s| - 1]);
      SeparatorsSplit(s, |s| - 1);
      assert s[|s| - 1..] == [s[|s| - 1]];
    }
  }

  /** A character that is no separator shields what is before it. */
  lemma {:induction false} TrailingStops(s: string, i: nat)
    requires 0 < i <= |s| && !Separator(s[i - 1])
    ensures Trailing(s) == Trailing(s[i..])
  {
    if i < |s| && Separator(s[|s| - 1]) {
      TrailingStops(s[..|s| - 1], i);
      assert s[i..][..|s[i..]| - 1] == s[..|s| - 1][i..];
    }
  }

  lemma {:induction false} StretchedCounts(r: seq<Atom>, n: nat)
    requires AnyStar in r && n > 0
    ensures Separators(Stretched(r, n)) >= n
    ensures exists i | 0 < i <= |Stretched(r, n)| ::
              !Separator(Stretched(r, n)[i - 1]) && Separators(Stretched(r, n)[i..]) <= LiteralSeparators(r)
  {
    var s := Stretched(r, n);
    if r[0].AnyStar? {
      RepeatedFacts(n);
      ShortestCounts(r[1..]);
      SeparatorsSplit(s, 2 * n);
      assert s[..2 * n] == Repeated(n) && s[2 * n..] == Shortest(r[1..]);
    } else {
      StretchedCounts(r[1..], n);
      var t := Stretched(r[1..], n);
      var i :| 0 < i <= |t| && !Separator(t[i - 1]) && Separators(t[i..]) <= LiteralSeparators(r[1..]);
      if r[0].Literal? || r[0].Other? {
        assert s[1..] == t && s[i + 1..] == t[i..] && s[(i + 1) - 1] == t[i - 1];
      }
    }
  }

  predicate Double(p: string) {
    exists i | 0 <= i < |p| - 1 :: p[i] == '*' && p[i + 1] == '*'
  }

  lemma {:induction false} DoubleIsAny(p: string)
    requires Double(p)
    ensures AnyStar in Compiled(p)
  {
    if !(p[0] == '*' && p[1] == '*') {
      var i :| 0 <= i < |p| - 1 && p[i] == '*' && p[i + 1] == '*';
      assert p[1..][i - 1] == '*' && p[1..][i - 1 + 1] == '*';
      DoubleIsAny(p[1..]);
    }
  }

  /** With a double star in the pattern, some match of one is no match of the other. */
  lemma DoubleDiffers(p: string) returns (s: string)
    requires Double(p)
    ensures InLanguage(Compiled(p), s) && !InLanguage(HostCompiled(p), s)
  {
    var n := LiteralSeparators(Compiled(p)) + LiteralSeparators(HostCompiled(p)) + 1;
    s := Stretched(Compiled(p), n);
    StretchedMatches(Compiled(p), n);
    DoubleIsAny(p);
    StretchedCounts(Compiled(p), n);
    var i :| 0 < i <= |s| && !Separator(s[i - 1]) && Separators(s[i..]) <= LiteralSeparators(Compiled(p));
    TrailingStops(s, i);
    TrailingAtMost(s[i..]);
    HostIsSpelled(p);
    if InLanguage(HostCompiled(p), s) { SeparatorsBounded(HostCompiled(p), s); }
  }

  lemma {:induction false} ParsedAlike(p: string)
    requires Backslashes(p) == 0 && !Double(p)
    ensures Parsed(p) == HostParsed(p)
  {
    if p != [] {
      ParsedAlike(p[1..]);
    }
  }

  /** The two compilers match the same samples exactly for the patterns without a backslash and without a
      double star. */
  lemma CompilersAgree(p: string)
    ensures (forall s :: InLanguage(Compiled(p), s) <==> InLanguage(HostCompiled(p), s))
            <==> Backslashes(p) == 0 && !Double(p)
  {
    if Backslashes(p) > 0 {
      BackslashDiffers(p);
    } else if Double(p) {
      var s := DoubleDiffers(p);
    } else {
      ParsedAlike(p);
    }
  }
}
