/** Route patterns of core/engine/pattern.go: compiling a path, matching a request against it and
    ranking two patterns.  The methods are the code's loops; the functions say what they compute. */
module RoutePatterns {
  import opened Wrappers

  datatype Segment = Static(value: string) | Param(name: string) | Wild(name: string)

  datatype Pattern = Pattern(shape: string, segments: seq<Segment>, rank: seq<int>)

  datatype Error =
    | NoLeadingSlash | QueryOrFragment | EmptySegment | WildcardNotLast
    | InvalidName(name: string) | DuplicateName(name: string) | InvalidEscape(raw: string)

  /** The letters and digits of the platform's Unicode tables; nothing else is known of them. */
  datatype Alphabet = Alphabet(isLetter: char -> bool, isDigit: char -> bool)

  // ----- path text

  function Split(s: string): (parts: seq<string>)
    ensures parts != [] && (parts == [""] <==> s == "")
  {
    if s == "" then [""]
    else
      var rest := Split(s[1..]);
      if s[0] == '/' then [""] + rest else [[s[0]] + rest[0]] + rest[1..]
  }

  function SplitPath(path: string): seq<string>
    requires path != "" && path[0] == '/'
  {
    if path == "/" then [] else Split(path[1..])
  }

  function HexValue(c: char): Option<int> {
    if '0' <= c <= '9' then Some(c as int - '0' as int)
    else if 'a' <= c <= 'f' then Some(c as int - 'a' as int + 10)
    else if 'A' <= c <= 'F' then Some(c as int - 'A' as int + 10)
    else None
  }

  /** Percent-decoding of one segment, byte by byte. */
  function Unescape(s: string): (r: Option<string>)
    ensures r == Some("") <==> s == ""
  {
    if s == "" then Some("")
    else if s[0] == '%' then
      if |s| < 3 || HexValue(s[1]).None? || HexValue(s[2]).None? then None
      else match Unescape(s[3..])
        case None => None
        case Some(t) => Some([(HexValue(s[1]).value * 16 + HexValue(s[2]).value) as char] + t)
    else match Unescape(s[1..])
      case None => None
      case Some(t) => Some([s[0]] + t)
  }

  function HexDigit(n: nat): char
    requires n < 16
  {
    if n < 10 then ('0' as int + n) as char else ('A' as int + n - 10) as char
  }

  function Percent(c: char): string
    requires c as int < 256
  {
    ['%', HexDigit(c as int / 16), HexDigit(c as int % 16)]
  }

  predicate Bytes(s: string) {
    forall i | 0 <= i < |s| :: s[i] as int < 256
  }

  /** Every byte percent-encoded, but for those to be left as they are. */
  function Escaped(s: string, plain: set<char>): string
    requires Bytes(s)
  {
    if s == "" then ""
    else (if s[0] in plain && s[0] != '%' then [s[0]] else Percent(s[0])) + Escaped(s[1..], plain)
  }

  lemma HexDigits(n: nat)
    requires n < 16
    ensures HexValue(HexDigit(n)) == Some(n)
  {
  }

  /** Decoding takes encoding back, whichever bytes are encoded. */
  lemma {:induction false} UnescapeOfEscaped(s: string, plain: set<char>)
    requires Bytes(s)
    ensures Unescape(Escaped(s, plain)) == Some(s)
  {
    if s != "" {
      UnescapeOfEscaped(s[1..], plain);
      var rest, raw := Escaped(s[1..], plain), Escaped(s, plain);
      assert s == [s[0]] + s[1..];
      if s[0] in plain && s[0] != '%' {
        assert raw[1..] == rest;
      } else {
        HexDigits(s[0] as int / 16);
        HexDigits(s[0] as int % 16);
        assert raw[3..] == rest;
      }
    }
  }

  /** Text decodes exactly if every percent sign has two hexadecimal digits behind it. */
  lemma {:induction false} UnescapesIff(s: string)
    ensures Unescape(s).Some? <==>
              forall i | 0 <= i < |s| && s[i] == '%' :: i + 2 < |s| && HexValue(s[i + 1]).Some? && HexValue(s[i + 2]).Some?
  {
    if s != "" {
      var k := if s[0] == '%' then 3 else 1;
      if k <= |s| && (s[0] == '%' ==> HexValue(s[1]).Some? && HexValue(s[2]).Some?) {
        UnescapesIff(s[k..]);
        assert forall i | 0 <= i < |s| - k :: s[k..][i] == s[i + k];
        NoPercentInside(s, k);
      }
    }
  }

  lemma NoPercentInside(s: string, k: nat)
    requires k <= |s| && (k == 1 || (k == 3 && HexValue(s[1]).Some? && HexValue(s[2]).Some?))
    ensures forall i | 0 < i < k :: s[i] != '%'
  {
  }

  predicate ValidName(a: Alphabet, name: string) {
    && name != ""
    && (name[0] == '_' || a.isLetter(name[0]))
    && forall i | 0 < i < |name| :: name[i] == '_' || name[i] == '-' || a.isLetter(name[i]) || a.isDigit(name[i])
  }

  // ----- compiling

  predicate HasPrefix(s: string, c: char) {
    s != "" && s[0] == c
  }

  function TrimPrefix(s: string, c: char): string {
    if HasPrefix(s, c) then s[1..] else s
  }

  function WildName(raw: string): string {
    var name := TrimPrefix(TrimPrefix(raw, '*'), '*');
    if name == "" then "*" else name
  }

  /** The segment that one piece of the path stands for. */
  function SegmentOf(a: Alphabet, raw: string): Result<Segment, Error> {
    if HasPrefix(raw, '*') then
      if WildName(raw) != "*" && !ValidName(a, WildName(raw)) then Err(InvalidName(WildName(raw)))
      else Ok(Wild(WildName(raw)))
    else if HasPrefix(raw, ':') then
      if !ValidName(a, raw[1..]) then Err(InvalidName(raw[1..])) else Ok(Param(raw[1..]))
    else match Unescape(raw)
      case None => Err(InvalidEscape(raw))
      case Some(value) => Ok(Static(value))
  }

  /** How a segment is written in a path. */
  function Written(g: Segment, plain: set<char>): string
    requires g.Static? ==> forall i | 0 <= i < |g.value| :: g.value[i] as int < 256
  {
    match g
    case Static(value) => Escaped(value, plain - {':', '*'})
    case Param(name) => ":" + name
    case Wild(name) => if name == "*" then "*" else "*" + name
  }

  /** Every segment can be written, and means itself. */
  lemma SegmentRoundTrips(a: Alphabet, g: Segment, plain: set<char>)
    requires g.Static? ==> forall i | 0 <= i < |g.value| :: g.value[i] as int < 256
    requires g.Param? || (g.Wild? && g.name != "*") ==> ValidName(a, g.name)
    requires !a.isLetter('*')
    ensures SegmentOf(a, Written(g, plain)) == Ok(g)
  {
    match g
    case Static(value) => UnescapeOfEscaped(value, plain - {':', '*'});
    case Param(name) => assert (":" + name)[1..] == name;
    case Wild(name) => assert ("*" + name)[1..] == name;
  }

  /** Exactly the paths that compile. */
  predicate Compilable(a: Alphabet, path: string) {
    && path != "" && path[0] == '/' && '?' !in path && '#' !in path
    && CompilableUpTo(a, SplitPath(path), |SplitPath(path)|)
  }

  predicate CompilableUpTo(a: Alphabet, raws: seq<string>, n: nat)
    requires n <= |raws|
  {
    n == 0 || (CompilableUpTo(a, raws, n - 1) && CompilableAt(a, raws, n - 1))
  }

  /** Piece `i` is a segment, is neither empty nor a wildcard unless it comes last, and repeats no
      parameter name. */
  predicate CompilableAt(a: Alphabet, raws: seq<string>, i: nat)
    requires i < |raws|
  {
    var segment := SegmentOf(a, raws[i]);
    && segment.Ok?
    && (i < |raws| - 1 ==> raws[i] != "" && !segment.value.Wild?)
    && (segment.value.Param? ==> forall j | 0 <= j < i :: SegmentOf(a, raws[j]) != segment)
  }

  function Rank(s: Segment): int {
    match s
    case Static(_) => 3
    case Param(_) => 2
    case Wild(_) => 1
  }

  function Ranks(p: seq<Segment>): (r: seq<int>)
    ensures |r| == |p| && forall i | 0 <= i < |p| :: r[i] == Rank(p[i])
  {
    seq(|p|, i requires 0 <= i < |p| => Rank(p[i]))
  }

  function ShapePart(s: Segment): string {
    match s
    case Static(value) => "s:" + value
    case Param(_) => ":"
    case Wild(_) => "*"
  }

  function ShapeParts(p: seq<Segment>): (r: seq<string>)
    ensures |r| == |p| && forall i | 0 <= i < |p| :: r[i] == ShapePart(p[i])
  {
    seq(|p|, i requires 0 <= i < |p| => ShapePart(p[i]))
  }

  /** The parts joined with NUL. */
  function Join(parts: seq<string>): string {
    if parts == [] then ""
    else if |parts| == 1 then parts[0]
    else parts[0] + "\0" + Join(parts[1..])
  }

  function Shape(p: seq<Segment>): string {
    Join(ShapeParts(p))
  }

  /** What compiled segments look like: a wildcard or an empty segment only comes last, and the
      path "/" has no segments at all. */
  predicate WellFormed(p: seq<Segment>) {
    && (forall i | 0 <= i < |p| - 1 :: !p[i].Wild? && p[i] != Static(""))
    && p != [Static("")]
  }

  method CompileSegment(a: Alphabet, raw: string, last: bool, names: set<string>) returns (r: Result<Segment, Error>)
    ensures r.Ok? <==>
      && SegmentOf(a, raw).Ok?
      && (!last ==> raw != "" && !SegmentOf(a, raw).value.Wild?)
      && (SegmentOf(a, raw).value.Param? ==> SegmentOf(a, raw).value.name !in names)
    ensures r.Ok? ==> r == SegmentOf(a, raw)
  {
    if raw == "" && !last {
      return Err(EmptySegment);
    }
    if raw == "*" || raw == "**" || HasPrefix(raw, '*') {
      if !last {
        return Err(WildcardNotLast);
      }
      var name := TrimPrefix(TrimPrefix(raw, '*'), '*');
      if name == "" {
        name := "*";
      }
      if name != "*" && !ValidName(a, name) {
        return Err(InvalidName(name));
      }
      return Ok(Wild(name));
    }
    if HasPrefix(raw, ':') {
      var name := TrimPrefix(raw, ':');
      if !ValidName(a, name) {
        return Err(InvalidName(name));
      }
      if name in names {
        return Err(DuplicateName(name));
      }
      return Ok(Param(name));
    }
    var value := Unescape(raw);
    if value.None? {
      return Err(InvalidEscape(raw));
    }
    return Ok(Static(value.value));
  }

  /** `p` holds the segments of the first pieces of a path. */
  predicate Compiled(a: Alphabet, raws: seq<string>, p: seq<Segment>) {
    |p| <= |raws| &&
    forall i | 0 <= i < |p| ::
      SegmentOf(a, raws[i]) == Ok(p[i]) && (i < |raws| - 1 ==> raws[i] != "" && !p[i].Wild?)
  }

  lemma CompiledIsWellFormed(a: Alphabet, raws: seq<string>, p: seq<Segment>)
    requires |p| == |raws| && raws != [""] && Compiled(a, raws, p)
    ensures WellFormed(p)
  {
    forall i | 0 <= i < |p| && p[i] == Static("") ensures raws[i] == "" {
      assert SegmentOf(a, raws[i]) == Ok(p[i]);
    }
  }

  function ParamNames(p: seq<Segment>): set<string> {
    set i | 0 <= i < |p| && p[i].Param? :: p[i].name
  }

  lemma ParamSeen(a: Alphabet, raws: seq<string>, p: seq<Segment>, name: string)
    requires Compiled(a, raws, p)
    ensures name !in ParamNames(p) <==> forall j | 0 <= j < |p| :: SegmentOf(a, raws[j]) != Ok(Param(name))
  {
    if j :| 0 <= j < |p| && SegmentOf(a, raws[j]) == Ok(Param(name)) {
      assert p[j].name in ParamNames(p);
    }
  }

  /** Compiling succeeds on exactly the compilable paths, and yields the segments of the path with
      their ranks and their shape. */
  method CompileRoutePattern(a: Alphabet, path: string) returns (r: Result<Pattern, Error>)
    ensures r.Ok? <==> Compilable(a, path)
    ensures r.Ok? ==>
      && WellFormed(r.value.segments)
      && r.value.shape == Shape(r.value.segments) && r.value.rank == Ranks(r.value.segments)
      && |r.value.segments| == |SplitPath(path)|
      && forall i | 0 <= i < |SplitPath(path)| :: SegmentOf(a, SplitPath(path)[i]) == Ok(r.value.segments[i])
  {
    if path == "" || path[0] != '/' {
      return Err(NoLeadingSlash);
    }
    if '?' in path || '#' in path {
      return Err(QueryOrFragment);
    }
    var raws := SplitPath(path);
    var segments: seq<Segment> := [];
    var ranks, shapeParts := [], [];
    var names: set<string> := {};
    for index := 0 to |raws|
      invariant CompilableUpTo(a, raws, index)
      invariant |segments| == index && ranks == Ranks(segments) && shapeParts == ShapeParts(segments)
      invariant Compiled(a, raws, segments)
      invariant names == ParamNames(segments)
    {
      var segment := CompileSegment(a, raws[index], index == |raws| - 1, names);
      assert segment.Ok? <==> CompilableAt(a, raws, index) by {
        if SegmentOf(a, raws[index]).Ok? && SegmentOf(a, raws[index]).value.Param? {
          ParamSeen(a, raws, segments, SegmentOf(a, raws[index]).value.name);
        }
      }
      if segment.Err? {
        NotCompilable(a, raws, index);
        return Err(segment.error);
      }
      AppendSegment(segments, segment.value);
      AppendCompiled(a, raws, segments, segment.value);
      if segment.value.Param? {
        names := names + {segment.value.name};
      }
      segments := segments + [segment.value];
      ranks := ranks + [Rank(segment.value)];
      shapeParts := shapeParts + [ShapePart(segment.value)];
    }
    CompiledIsWellFormed(a, raws, segments);
    return Ok(Pattern(Join(shapeParts), segments, ranks));
  }

  lemma AppendCompiled(a: Alphabet, raws: seq<string>, p: seq<Segment>, s: Segment)
    requires Compiled(a, raws, p) && |p| < |raws| && CompilableAt(a, raws, |p|) && SegmentOf(a, raws[|p|]) == Ok(s)
    ensures Compiled(a, raws, p + [s])
  {
  }

  lemma AppendSegment(p: seq<Segment>, s: Segment)
    ensures Ranks(p + [s]) == Ranks(p) + [Rank(s)] && ShapeParts(p + [s]) == ShapeParts(p) + [ShapePart(s)]
    ensures ParamNames(p + [s]) == ParamNames(p) + (if s.Param? then {s.name} else {})
  {
    var q := p + [s];
    assert forall i | 0 <= i < |p| :: q[i] == p[i];
    assert q[|p|] == s;
    forall name | name in ParamNames(p) ensures name in ParamNames(q) {
      var i :| 0 <= i < |p| && p[i].Param? && p[i].name == name;
      assert q[i].name == name;
    }
  }

  lemma {:induction false} NotCompilable(a: Alphabet, raws: seq<string>, i: nat, n: nat := |raws|)
    requires i < n <= |raws| && !CompilableAt(a, raws, i)
    ensures !CompilableUpTo(a, raws, n)
  {
    if i < n - 1 { NotCompilable(a, raws, i, n - 1); }
  }

  // ----- matching

  /** The requests a pattern accepts. */
  predicate Accepts(p: seq<Segment>, s: seq<string>) {
    if p == [] then s == []
    else match p[0]
      case Wild(_) => true
      case Static(value) => s != [] && s[0] == value && Accepts(p[1..], s[1..])
      case Param(_) => s != [] && s[0] != "" && Accepts(p[1..], s[1..])
  }

  function JoinSlash(parts: seq<string>): string {
    if parts == [] then "" else if |parts| == 1 then parts[0] else parts[0] + "/" + JoinSlash(parts[1..])
  }

  /** The parameters of an accepted request, added to `m` from left to right. */
  function Bind(p: seq<Segment>, s: seq<string>, m: map<string, string>): map<string, string>
    requires Accepts(p, s)
  {
    if p == [] then m
    else match p[0]
      case Wild(name) => m[name := JoinSlash(s)]
      case Static(_) => Bind(p[1..], s[1..], m)
      case Param(name) => Bind(p[1..], s[1..], m[name := s[0]])
  }

  function EffectivePattern(p: seq<Segment>, skipTrailingSlashes: bool): seq<Segment> {
    if skipTrailingSlashes && p != [] && p[|p| - 1] == Static("") then p[..|p| - 1] else p
  }

  function EffectivePath(s: seq<string>, skipTrailingSlashes: bool): seq<string> {
    if skipTrailingSlashes && s != [] && s[|s| - 1] == "" then s[..|s| - 1] else s
  }

  function Match(p: seq<Segment>, s: seq<string>, skip: bool): Option<map<string, string>> {
    if Accepts(EffectivePattern(p, skip), EffectivePath(s, skip))
    then Some(Bind(EffectivePattern(p, skip), EffectivePath(s, skip), map[]))
    else None
  }

  method MatchRequest(pattern: Pattern, path: seq<string>, skipTrailingSlashes: bool)
    returns (r: Option<map<string, string>>)
    ensures r == Match(pattern.segments, path, skipTrailingSlashes)
    ensures r.Some? && WildLast(pattern.segments) ==>
              Bound(EffectivePattern(pattern.segments, skipTrailingSlashes),
                    EffectivePath(path, skipTrailingSlashes), r.value)
  {
    var p, s := pattern.segments, path;
    if skipTrailingSlashes {
      if |p| > 0 && p[|p| - 1] == Static("") {
        p := p[..|p| - 1];
      }
      if |s| > 0 && s[|s| - 1] == "" {
        s := s[..|s| - 1];
      }
    }
    r := MatchSegments(p, s);
  }

  method MatchSegments(p: seq<Segment>, s: seq<string>) returns (r: Option<map<string, string>>)
    ensures r == if Accepts(p, s) then Some(Bind(p, s, map[])) else None
    ensures r.Some? && WildLast(p) ==> Bound(p, s, r.value)
  {
    if Accepts(p, s) && WildLast(p) { BindIsBound(p, s); }
    var params: map<string, string> := map[];
    for index := 0 to |p|
      invariant index <= |s|
      invariant Accepts(p, s) <==> Accepts(p[index..], s[index..])
      invariant Accepts(p, s) ==> Bind(p, s, map[]) == Bind(p[index..], s[index..], params)
    {
      assert p[index..][1..] == p[index + 1..];
      if p[index].Wild? {
        return Some(params[p[index].name := JoinSlash(s[index..])]);
      }
      if index >= |s| {
        return None;
      }
      assert s[index..][1..] == s[index + 1..];
      if p[index].Static? {
        if s[index] != p[index].value {
          return None;
        }
      } else {
        if s[index] == "" {
          return None;
        }
        params := params[p[index].name := s[index]];
      }
    }
    assert p[|p|..] == [];
    if |s| != |p| {
      return None;
    }
    return Some(params);
  }

  // ----- what a match binds

  /** The text that segment `i` stands for: its place in the request, and for a wildcard all from there. */
  function TextAt(p: seq<Segment>, s: seq<string>, i: nat): string
    requires i < |p| && i <= |s| && (!p[i].Wild? ==> i < |s|)
  {
    if p[i].Wild? then JoinSlash(s[i..]) else s[i]
  }

  function Names(p: seq<Segment>): set<string> {
    set i | 0 <= i < |p| && !p[i].Static? :: p[i].name
  }

  /** Segment `i` has a name that no later segment has. */
  predicate LastOfName(p: seq<Segment>, i: nat) {
    && i < |p| && !p[i].Static?
    && forall j | i < j < |p| && !p[j].Static? :: p[j].name != p[i].name
  }

  /** `params` has exactly the names of the pattern, each with the text of the last segment of that name. */
  predicate Bound(p: seq<Segment>, s: seq<string>, params: map<string, string>) {
    && params.Keys == Names(p)
    && forall i: nat | i < |p| && LastOfName(p, i) ::
         && i <= |s| && (!p[i].Wild? ==> i < |s|) && p[i].name in params && params[p[i].name] == TextAt(p, s, i)
  }

  predicate WildLast(p: seq<Segment>) {
    forall i | 0 <= i < |p| - 1 :: !p[i].Wild?
  }

  lemma NamesHead(p: seq<Segment>)
    requires p != []
    ensures Names(p) == Names(p[1..]) + if p[0].Static? then {} else {p[0].name}
  {
    var rest := p[1..];
    assert forall i | 0 <= i < |rest| :: rest[i] == p[i + 1];
    forall x | x in Names(p) ensures x in Names(rest) + (if p[0].Static? then {} else {p[0].name}) {
      var i :| 0 <= i < |p| && !p[i].Static? && p[i].name == x;
      if i > 0 { assert rest[i - 1].name == x; }
    }
    forall x | x in Names(rest) ensures x in Names(p) {
      var i :| 0 <= i < |rest| && !rest[i].Static? && rest[i].name == x;
      assert p[i + 1].name == x;
    }
  }

  lemma {:induction false} BindKeys(p: seq<Segment>, s: seq<string>, m: map<string, string>)
    requires Accepts(p, s) && WildLast(p)
    ensures Bind(p, s, m).Keys == m.Keys + Names(p)
    ensures forall x | x in m && x !in Names(p) :: Bind(p, s, m)[x] == m[x]
  {
    if p != [] {
      NamesHead(p);
      match p[0]
      case Static(_) => BindKeys(p[1..], s[1..], m);
      case Param(name) => BindKeys(p[1..], s[1..], m[name := s[0]]);
      case Wild(_) => assert p[1..] == [];
    }
  }

  lemma {:induction false} BindGives(p: seq<Segment>, s: seq<string>, m: map<string, string>, i: nat)
    requires Accepts(p, s) && WildLast(p) && LastOfName(p, i)
    ensures i <= |s| && (!p[i].Wild? ==> i < |s|)
    ensures p[i].name in Bind(p, s, m) && Bind(p, s, m)[p[i].name] == TextAt(p, s, i)
  {
    if i > 0 {
      assert p[1..][i - 1] == p[i];
      assert LastOfName(p[1..], i - 1);
      var m1 := if p[0].Param? then m[p[0].name := s[0]] else m;
      BindGives(p[1..], s[1..], m1, i - 1);
      assert s[1..][i - 1..] == s[i..];
    } else if p[0].Wild? {
      assert s[0..] == s;
    } else {
      NotLater(p);
      BindKeys(p[1..], s[1..], m[p[0].name := s[0]]);
    }
  }

  lemma NotLater(p: seq<Segment>)
    requires p != [] && LastOfName(p, 0)
    ensures p[0].name !in Names(p[1..])
  {
    var rest := p[1..];
    assert forall i | 0 <= i < |rest| :: rest[i] == p[i + 1];
  }

  /** Matching binds every name of the pattern to the text it stands for, and nothing else. */
  lemma BindIsBound(p: seq<Segment>, s: seq<string>)
    requires Accepts(p, s) && WildLast(p)
    ensures Bound(p, s, Bind(p, s, map[]))
  {
    BindKeys(p, s, map[]);
    forall i: nat | i < |p| && LastOfName(p, i)
      ensures i <= |s| && (!p[i].Wild? ==> i < |s|)
      ensures p[i].name in Bind(p, s, map[]) && Bind(p, s, map[])[p[i].name] == TextAt(p, s, i)
    {
      BindGives(p, s, map[], i);
    }
  }

  lemma {:induction false} SomeLast(p: seq<Segment>, x: string, n: nat) returns (i: nat)
    requires n <= |p| && exists j :: 0 <= j < n && !p[j].Static? && p[j].name == x
    requires forall j | n <= j < |p| && !p[j].Static? :: p[j].name != x
    ensures i < |p| && LastOfName(p, i) && p[i].name == x
  {
    if !p[n - 1].Static? && p[n - 1].name == x {
      i := n - 1;
    } else {
      i := SomeLast(p, x, n - 1);
    }
  }

  /** That says all there is to say: only one map is bound. */
  lemma BoundIsUnique(p: seq<Segment>, s: seq<string>, a: map<string, string>, b: map<string, string>)
    requires Bound(p, s, a) && Bound(p, s, b)
    ensures a == b
  {
    forall x | x in a.Keys ensures a[x] == b[x] {
      var j :| 0 <= j < |p| && !p[j].Static? && p[j].name == x;
      var i := SomeLast(p, x, |p|);
    }
  }

  predicate DistinctParams(p: seq<Segment>) {
    forall i, j | 0 <= i < j < |p| && p[i].Param? && p[j].Param? :: p[i].name != p[j].name
  }

  lemma ParameterLast(p: seq<Segment>, i: nat)
    requires WildLast(p) && DistinctParams(p) && i < |p| && p[i].Param?
    ensures p[|p| - 1] == Wild(p[i].name) ==> LastOfName(p, |p| - 1)
    ensures p[|p| - 1] != Wild(p[i].name) ==> LastOfName(p, i)
  {
  }

  /** A parameter of a compiled pattern gets the segment at its place, exactly unless a wildcard of the
      same name ends the pattern and stands for something else. */
  lemma ParameterGets(p: seq<Segment>, s: seq<string>, params: map<string, string>, i: nat)
    requires WildLast(p) && DistinctParams(p) && Accepts(p, s) && Bound(p, s, params) && i < |p| && p[i].Param?
    ensures i < |s| && p[i].name in params && |p| - 1 <= |s|
    ensures params[p[i].name] == s[i] <==>
              (p[|p| - 1] == Wild(p[i].name) ==> JoinSlash(s[|p| - 1..]) == s[i])
  {
    AcceptsLength(p, s);
    ParameterLast(p, i);
  }

  lemma {:induction false} AcceptsLength(p: seq<Segment>, s: seq<string>)
    requires Accepts(p, s) && WildLast(p) && p != []
    ensures |p| - 1 <= |s| && (!p[|p| - 1].Wild? ==> |p| == |s|)
  {
    if |p| > 1 { AcceptsLength(p[1..], s[1..]); }
  }

  lemma JoinCons(first: string, rest: seq<string>)
    requires rest != []
    ensures JoinSlash([first] + rest) == first + "/" + JoinSlash(rest)
  {
    assert ([first] + rest)[1..] == rest;
  }

  lemma JoinLonger(c: char, parts: seq<string>)
    requires parts != []
    ensures JoinSlash([[c] + parts[0]] + parts[1..]) == [c] + JoinSlash(parts)
  {
    var longer := [[c] + parts[0]] + parts[1..];
    assert longer[1..] == parts[1..];
    if |parts| > 1 { assert [c] + parts[0] + "/" + JoinSlash(parts[1..]) == [c] + (parts[0] + "/" + JoinSlash(parts[1..])); }
  }

  /** Joining takes splitting back, on every text. */
  lemma {:induction false} JoinOfSplit(s: string)
    ensures JoinSlash(Split(s)) == s
  {
    if s != "" {
      JoinOfSplit(s[1..]);
      var rest := Split(s[1..]);
      assert s == [s[0]] + s[1..];
      if s[0] == '/' { JoinCons("", rest); } else { JoinLonger(s[0], rest); }
    }
  }

  lemma {:induction false} SplitHasNoSlash(s: string)
    ensures forall i | 0 <= i < |Split(s)| :: '/' !in Split(s)[i]
  {
    if s != "" { SplitHasNoSlash(s[1..]); }
  }

  lemma {:induction false} SplitOne(w: string)
    requires '/' !in w
    ensures Split(w) == [w]
  {
    if w != "" {
      SplitOne(w[1..]);
      assert w == [w[0]] + w[1..];
    }
  }

  lemma {:induction false} SplitBefore(w: string, rest: string)
    requires '/' !in w
    ensures Split(w + "/" + rest) == [w] + Split(rest)
  {
    var s := w + "/" + rest;
    if w == "" {
      assert s[1..] == rest;
    } else {
      SplitBefore(w[1..], rest);
      assert s[1..] == w[1..] + "/" + rest && w == [w[0]] + w[1..];
    }
  }

  lemma {:induction false} SplitOfPlain(parts: seq<string>)
    requires parts != [] && forall i | 0 <= i < |parts| :: '/' !in parts[i]
    ensures Split(JoinSlash(parts)) == parts
  {
    if |parts| == 1 {
      SplitOne(parts[0]);
    } else {
      SplitOfPlain(parts[1..]);
      SplitBefore(parts[0], JoinSlash(parts[1..]));
      assert parts == [parts[0]] + parts[1..];
    }
  }

  /** Splitting takes joining back exactly where no part has a slash in it. */
  lemma {:induction false} SplitOfJoin(parts: seq<string>)
    requires parts != []
    ensures Split(JoinSlash(parts)) == parts <==> forall i | 0 <= i < |parts| :: '/' !in parts[i]
  {
    SplitHasNoSlash(JoinSlash(parts));
    if forall i | 0 <= i < |parts| :: '/' !in parts[i] { SplitOfPlain(parts); }
  }

  // ----- ranking

  /** The order of rank lists: the first difference decides, and a longer list beats its prefix. */
  function Compare(a: seq<int>, b: seq<int>): int {
    if a == [] then (if b == [] then 0 else -1)
    else if b == [] then 1
    else if a[0] != b[0] then (if a[0] > b[0] then 1 else -1)
    else Compare(a[1..], b[1..])
  }

  method ComparePatternSpecificity(left: Pattern, right: Pattern) returns (r: int)
    ensures r == Compare(left.rank, right.rank)
  {
    var a, b := left.rank, right.rank;
    var length := if |b| < |a| then |b| else |a|;
    for index := 0 to length
      invariant Compare(a, b) == Compare(a[index..], b[index..])
    {
      if a[index] > b[index] {
        return 1;
      }
      if a[index] < b[index] {
        return -1;
      }
      assert a[index..][1..] == a[index + 1..] && b[index..][1..] == b[index + 1..];
    }
    if |a| > |b| {
      return 1;
    }
    if |a| < |b| {
      return -1;
    }
    return 0;
  }
}
