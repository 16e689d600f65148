/** The endpoint registry of core/engine/registry.go: building it from declarations, and choosing
    the route that serves a request. */
module RouteRegistry {
  import opened Wrappers
  import opened RoutePatterns
  import opened RouteShapes

  const ANY_METHOD := "*"

  /** A declared endpoint, after overrides have replaced their targets. */
  datatype Endpoint = Endpoint(name: string, path: string, methods: seq<string>, serverOnly: bool)

  datatype Route = Route(endpoint: Endpoint, pattern: Pattern, methods: seq<string>, order: nat)

  datatype RegistryError = InvalidEndpoint(name: string) | DuplicateEndpoint(name: string) | Conflicts(n: nat)

  // ----- methods

  function Upper(c: char): char {
    if 'a' <= c <= 'z' then (c as int - 'a' as int + 'A' as int) as char else c
  }

  function ToUpper(s: string): (r: string)
    ensures |r| == |s|
  {
    seq(|s|, i requires 0 <= i < |s| => Upper(s[i]))
  }

  function TrimSpace(s: string): string {
    if s != "" && s[0] == ' ' then TrimSpace(s[1..])
    else if s != "" && s[|s| - 1] == ' ' then TrimSpace(s[..|s| - 1])
    else s
  }

  function Canonical(methods: seq<string>): (r: seq<string>)
    ensures |r| == |methods|
  {
    seq(|methods|, i requires 0 <= i < |methods| => ToUpper(TrimSpace(methods[i])))
  }

  predicate ValidMethods(methods: seq<string>) {
    var m := Canonical(methods);
    && "" !in m
    && (forall i, j | 0 <= i < j < |m| :: m[i] != m[j])
    && (ANY_METHOD in m ==> |m| == 1)
  }

  /** The methods a declaration stands for; none declared means all of them. */
  function MethodsOf(methods: seq<string>): (r: seq<string>)
    ensures r != []
  {
    if methods == [] then [ANY_METHOD] else Canonical(methods)
  }

  predicate AllSpaces(s: string) {
    forall i | 0 <= i < |s| :: s[i] == ' '
  }

  /** Trimming takes the spaces around a text, and no more. */
  lemma {:induction false} TrimSpaceIs(s: string) returns (before: string, behind: string)
    ensures s == before + TrimSpace(s) + behind && AllSpaces(before) && AllSpaces(behind)
    ensures TrimSpace(s) != "" ==> TrimSpace(s)[0] != ' ' && TrimSpace(s)[|TrimSpace(s)| - 1] != ' '
  {
    before, behind := "", "";
    if s != "" && s[0] == ' ' {
      before, behind := TrimSpaceIs(s[1..]);
      before := " " + before;
      assert s == [s[0]] + s[1..];
    } else if s != "" && s[|s| - 1] == ' ' {
      before, behind := TrimSpaceIs(s[..|s| - 1]);
      behind := behind + " ";
      assert s == s[..|s| - 1] + [s[|s| - 1]];
    }
  }

  /** Two methods are told apart by nothing but the case of their letters. */
  lemma UpperIs(s: string, t: string)
    ensures ToUpper(ToUpper(s)) == ToUpper(s)
    ensures ToUpper(s) == ToUpper(t) <==>
              |s| == |t| && forall i | 0 <= i < |s| :: s[i] == t[i] || SameLetter(s[i], t[i])
  {
    if ToUpper(s) == ToUpper(t) {
      forall i | 0 <= i < |s| ensures s[i] == t[i] || SameLetter(s[i], t[i]) {
        assert ToUpper(s)[i] == ToUpper(t)[i];
      }
    }
  }

  /** A letter and its capital. */
  predicate SameLetter(a: char, b: char) {
    ('a' <= a <= 'z' && 'A' <= b <= 'Z' && a as int - 'a' as int == b as int - 'A' as int) ||
    ('a' <= b <= 'z' && 'A' <= a <= 'Z' && b as int - 'a' as int == a as int - 'A' as int)
  }

  method NormalizeMethods(methods: seq<string>) returns (r: Option<seq<string>>)
    ensures r.Some? <==> ValidMethods(methods)
    ensures r.Some? ==> r.value == MethodsOf(methods)
  {
    if |methods| == 0 {
      return Some([ANY_METHOD]);
    }
    ghost var m := Canonical(methods);
    var normalized: seq<string> := [];
    for index := 0 to |methods|
      invariant normalized == m[..index]
      invariant "" !in normalized
      invariant forall i, j | 0 <= i < j < index :: m[i] != m[j]
      invariant ANY_METHOD in normalized ==> |methods| == 1
    {
      var method' := ToUpper(TrimSpace(methods[index]));
      assert method' == m[index];
      if method' == "" || method' in normalized || (method' == ANY_METHOD && |methods| != 1) {
        return None;
      }
      normalized := normalized + [method'];
    }
    assert m[..|methods|] == m;
    return Some(normalized);
  }

  predicate Allows(methods: seq<string>, m: string) {
    ANY_METHOD in methods || m in methods
  }

  function Common(left: seq<string>, right: seq<string>): seq<string> {
    if left == [] then []
    else
      var last := left[|left| - 1];
      Common(left[..|left| - 1], right) + (if last in right then [last] else [])
  }

  function Intersect(left: seq<string>, right: seq<string>): seq<string> {
    if ANY_METHOD in left && ANY_METHOD in right then [ANY_METHOD]
    else if ANY_METHOD in left then right
    else if ANY_METHOD in right then left
    else Common(left, right)
  }

  lemma {:induction false} CommonMembers(left: seq<string>, right: seq<string>, m: string)
    ensures m in Common(left, right) <==> m in left && m in right
  {
    if left != [] {
      CommonMembers(left[..|left| - 1], right, m);
      assert left == left[..|left| - 1] + [left[|left| - 1]];
    }
  }

  /** Two method lists meet exactly when some request method is served by both. */
  lemma IntersectIsOverlap(left: seq<string>, right: seq<string>)
    requires left != [] && right != []
    ensures Intersect(left, right) != [] <==> exists m :: Allows(left, m) && Allows(right, m)
  {
    if ANY_METHOD in left || ANY_METHOD in right {
      assert ANY_METHOD in left && ANY_METHOD !in right ==> Allows(left, right[0]) && Allows(right, right[0]);
      assert ANY_METHOD !in left && ANY_METHOD in right ==> Allows(left, left[0]) && Allows(right, left[0]);
      assert ANY_METHOD in left && ANY_METHOD in right ==> Allows(left, ANY_METHOD) && Allows(right, ANY_METHOD);
    } else {
      if m :| Allows(left, m) && Allows(right, m) {
        CommonMembers(left, right, m);
      }
      if Common(left, right) != [] {
        var m := Common(left, right)[0];
        CommonMembers(left, right, m);
        assert Allows(left, m) && Allows(right, m);
      }
    }
  }

  // ----- building

  /** A declaration found valid: its segments and its normalized methods. */
  datatype Decl = Decl(endpoint: Endpoint, segments: seq<Segment>, methods: seq<string>)
  {
    function AsPattern(): Pattern { Pattern(Shape(segments), segments, Ranks(segments)) }
  }

  predicate ValidEndpoint(a: Alphabet, d: Endpoint) {
    && d.name != ""
    && (if d.path == "" then d.serverOnly else Compilable(a, d.path))
    && ValidMethods(d.methods)
  }

  /** The segments of a declared path. */
  function SegmentsOf(a: Alphabet, path: string): (p: seq<Segment>)
    requires Compilable(a, path)
    ensures |p| == |SplitPath(path)| && forall i | 0 <= i < |p| :: SegmentOf(a, SplitPath(path)[i]) == Ok(p[i])
  {
    CompilableSegments(a, SplitPath(path), |SplitPath(path)|);
    seq(|SplitPath(path)|, i requires 0 <= i < |SplitPath(path)| => SegmentOf(a, SplitPath(path)[i]).value)
  }

  lemma {:induction false} CompilableSegments(a: Alphabet, raws: seq<string>, n: nat)
    requires n <= |raws| && CompilableUpTo(a, raws, n)
    ensures forall i | 0 <= i < n :: SegmentOf(a, raws[i]).Ok?
  {
    if n > 0 { CompilableSegments(a, raws, n - 1); }
  }

  function Prepare(a: Alphabet, d: Endpoint): Option<Decl> {
    if !ValidEndpoint(a, d) then None
    else Some(Decl(d, if d.path == "" then [] else SegmentsOf(a, d.path), MethodsOf(d.methods)))
  }

  predicate AllValid(a: Alphabet, decls: seq<Endpoint>) {
    forall i | 0 <= i < |decls| :: Prepare(a, decls[i]).Some?
  }

  function Prepared(a: Alphabet, decls: seq<Endpoint>): (ds: seq<Decl>)
    requires AllValid(a, decls)
    ensures |ds| == |decls| && forall i | 0 <= i < |ds| :: Prepare(a, decls[i]) == Some(ds[i])
  {
    seq(|decls|, i requires 0 <= i < |decls| => Prepare(a, decls[i]).value)
  }

  predicate DistinctNames(decls: seq<Endpoint>) {
    forall i, j | 0 <= i < j < |decls| :: decls[i].name != decls[j].name
  }

  /** Two declarations occupy the same route. */
  predicate Clash(d: Decl, e: Decl) {
    && !d.endpoint.serverOnly && !e.endpoint.serverOnly
    && Shape(d.segments) == Shape(e.segments)
    && Intersect(d.methods, e.methods) != []
  }

  predicate NoClash(ds: seq<Decl>) {
    forall i, j | 0 <= i < j < |ds| :: !Clash(ds[i], ds[j])
  }

  /** Exactly the declarations that make a registry. */
  predicate Buildable(a: Alphabet, decls: seq<Endpoint>) {
    AllValid(a, decls) && DistinctNames(decls) && NoClash(Prepared(a, decls))
  }

  function RouteFor(d: Decl, order: nat): Route {
    Route(d.endpoint, d.AsPattern(), d.methods, order)
  }

  /** The routes of the declarations, in order of registration. */
  function RoutesOf(ds: seq<Decl>): seq<Route> {
    if ds == [] then []
    else
      var routes := RoutesOf(ds[..|ds| - 1]);
      var d := ds[|ds| - 1];
      if d.endpoint.serverOnly then routes else routes + [RouteFor(d, |routes|)]
  }

  lemma {:induction false} RouteOrigin(ds: seq<Decl>, k: nat) returns (i: nat)
    requires k < |RoutesOf(ds)|
    ensures i < |ds| && !ds[i].endpoint.serverOnly && RoutesOf(ds)[k] == RouteFor(ds[i], k)
  {
    var n := |ds| - 1;
    if k < |RoutesOf(ds[..n])| {
      i := RouteOrigin(ds[..n], k);
    } else {
      i := n;
    }
  }

  lemma {:induction false} RouteExists(ds: seq<Decl>, i: nat) returns (k: nat)
    requires i < |ds| && !ds[i].endpoint.serverOnly
    ensures k < |RoutesOf(ds)| && RoutesOf(ds)[k] == RouteFor(ds[i], k)
  {
    var n := |ds| - 1;
    if i < n {
      k := RouteExists(ds[..n], i);
    } else {
      k := |RoutesOf(ds[..n])|;
    }
  }

  method ValidateEndpoint(a: Alphabet, d: Endpoint) returns (r: Option<Decl>)
    ensures r == Prepare(a, d)
  {
    if d.name == "" || (d.path == "" && !d.serverOnly) {
      return None;
    }
    var segments := [];
    if d.path != "" {
      var compiled := CompileRoutePattern(a, d.path);
      if compiled.Err? {
        return None;
      }
      segments := compiled.value.segments;
      assert segments == SegmentsOf(a, d.path);
    }
    var methods := NormalizeMethods(d.methods);
    if methods.None? {
      return None;
    }
    return Some(Decl(d, segments, methods.value));
  }

  /** The first declarations, prepared one by one. */
  predicate PreparedSoFar(a: Alphabet, decls: seq<Endpoint>, ds: seq<Decl>) {
    |ds| <= |decls| && forall i | 0 <= i < |ds| :: Prepare(a, decls[i]) == Some(ds[i])
  }

  lemma PreparedNext(a: Alphabet, decls: seq<Endpoint>, ds: seq<Decl>, d: Decl)
    requires PreparedSoFar(a, decls, ds) && |ds| < |decls| && Prepare(a, decls[|ds|]) == Some(d)
    ensures PreparedSoFar(a, decls, ds + [d])
  {
  }

  lemma PreparedAll(a: Alphabet, decls: seq<Endpoint>, ds: seq<Decl>)
    requires PreparedSoFar(a, decls, ds) && |ds| == |decls|
    ensures AllValid(a, decls) && ds == Prepared(a, decls)
  {
  }

  lemma PreparedFails(a: Alphabet, decls: seq<Endpoint>, n: nat)
    requires n < |decls| && Prepare(a, decls[n]).None?
    ensures !AllValid(a, decls)
  {
  }

  function NamesOf(decls: seq<Endpoint>): set<string> {
    set i | 0 <= i < |decls| :: decls[i].name
  }

  lemma DistinctNext(decls: seq<Endpoint>, d: Endpoint)
    requires DistinctNames(decls) && d.name !in NamesOf(decls)
    ensures DistinctNames(decls + [d])
  {
    forall i | 0 <= i < |decls| ensures decls[i].name != d.name {
      assert decls[i].name in NamesOf(decls);
    }
  }

  lemma NamesNext(decls: seq<Endpoint>, d: Endpoint)
    ensures NamesOf(decls + [d]) == NamesOf(decls) + {d.name}
  {
    var all := decls + [d];
    assert all[|decls|] == d;
    assert forall i | 0 <= i < |decls| :: all[i] == decls[i];
  }

  lemma NameRead(decls: seq<Endpoint>, n: nat)
    requires n < |decls| && decls[n].name in NamesOf(decls[..n])
    ensures !DistinctNames(decls)
  {
  }

  method ValidateAll(a: Alphabet, decls: seq<Endpoint>) returns (r: Result<seq<Decl>, RegistryError>)
    ensures r.Ok? <==> AllValid(a, decls) && DistinctNames(decls)
    ensures r.Ok? ==> r.value == Prepared(a, decls)
    ensures r.Err? ==> !r.error.Conflicts?
  {
    var ds: seq<Decl> := [];
    var byName: set<string> := {};
    for n := 0 to |decls|
      invariant |ds| == n && PreparedSoFar(a, decls, ds)
      invariant DistinctNames(decls[..n]) && byName == NamesOf(decls[..n])
    {
      var valid := ValidateEndpoint(a, decls[n]);
      if valid.None? {
        PreparedFails(a, decls, n);
        return Err(InvalidEndpoint(decls[n].name));
      }
      if decls[n].name in byName {
        NameRead(decls, n);
        return Err(DuplicateEndpoint(decls[n].name));
      }
      assert decls[..n + 1] == decls[..n] + [decls[n]];
      PreparedNext(a, decls, ds, valid.value);
      DistinctNext(decls[..n], decls[n]);
      NamesNext(decls[..n], decls[n]);
      byName := byName + {decls[n].name};
      ds := ds + [valid.value];
    }
    assert decls[..|decls|] == decls;
    PreparedAll(a, decls, ds);
    return Ok(ds);
  }

  predicate Meets(r: Route, d: Decl) {
    r.pattern.shape == Shape(d.segments) && Intersect(r.methods, d.methods) != []
  }

  predicate MeetsSome(routes: seq<Route>, d: Decl) {
    exists k :: 0 <= k < |routes| && Meets(routes[k], d)
  }

  /** How often the routes meet the incoming declaration on a shape and a method. */
  method CountConflicts(routes: seq<Route>, d: Decl) returns (n: nat)
    ensures n > 0 <==> MeetsSome(routes, d)
  {
    n := 0;
    var shape := Shape(d.segments);
    for k := 0 to |routes|
      invariant n > 0 <==> exists j :: 0 <= j < k && Meets(routes[j], d)
    {
      if routes[k].pattern.shape == shape {
        n := n + |Intersect(routes[k].methods, d.methods)|;
      }
    }
  }

  lemma MeetsIsClash(ds: seq<Decl>, d: Decl)
    requires !d.endpoint.serverOnly
    ensures (exists k :: 0 <= k < |RoutesOf(ds)| && Meets(RoutesOf(ds)[k], d)) <==>
            exists i :: 0 <= i < |ds| && Clash(ds[i], d)
  {
    if k :| 0 <= k < |RoutesOf(ds)| && Meets(RoutesOf(ds)[k], d) {
      var i := RouteOrigin(ds, k);
      assert Clash(ds[i], d);
    }
    if i :| 0 <= i < |ds| && Clash(ds[i], d) {
      var k := RouteExists(ds, i);
      assert Meets(RoutesOf(ds)[k], d);
    }
  }

  lemma NoClashExtends(ds: seq<Decl>, d: Decl)
    ensures NoClash(ds + [d]) <==> NoClash(ds) && (d.endpoint.serverOnly || !MeetsSome(RoutesOf(ds), d))
  {
    var es := ds + [d];
    assert forall i | 0 <= i < |ds| :: es[i] == ds[i];
    assert es[|ds|] == d;
    if NoClash(es) {
      assert forall i, j | 0 <= i < j < |ds| :: !Clash(es[i], es[j]);
      assert forall i | 0 <= i < |ds| :: !Clash(es[i], es[|ds|]);
    }
    if !d.endpoint.serverOnly { MeetsIsClash(ds, d); }
  }

  /** No declaration meets the routes of those before it. */
  predicate ConflictFree(ds: seq<Decl>) {
    ds != [] ==>
      var d := ds[|ds| - 1];
      ConflictFree(ds[..|ds| - 1]) && (d.endpoint.serverOnly || !MeetsSome(RoutesOf(ds[..|ds| - 1]), d))
  }

  lemma {:induction false} ConflictFreeIsNoClash(ds: seq<Decl>)
    ensures ConflictFree(ds) <==> NoClash(ds)
  {
    if ds != [] {
      ConflictFreeIsNoClash(ds[..|ds| - 1]);
      NoClashExtends(ds[..|ds| - 1], ds[|ds| - 1]);
      assert ds == ds[..|ds| - 1] + [ds[|ds| - 1]];
    }
  }

  method BuildRoutes(ds: seq<Decl>) returns (routes: seq<Route>, conflicts: nat)
    ensures routes == RoutesOf(ds)
    ensures conflicts == 0 <==> NoClash(ds)
  {
    routes, conflicts := [], 0;
    for n := 0 to |ds|
      invariant routes == RoutesOf(ds[..n])
      invariant conflicts == 0 <==> ConflictFree(ds[..n])
    {
      assert ds[..n + 1][..n] == ds[..n];
      if !ds[n].endpoint.serverOnly {
        var found := CountConflicts(routes, ds[n]);
        conflicts := conflicts + found;
        routes := routes + [RouteFor(ds[n], |routes|)];
      }
    }
    assert ds[..|ds|] == ds;
    ConflictFreeIsNoClash(ds);
  }

  /** A registry is built from exactly the buildable declarations; conflicts are reported only once
      everything else is in order. */
  method NewRegistry(a: Alphabet, decls: seq<Endpoint>) returns (r: Result<seq<Route>, RegistryError>)
    ensures r.Ok? <==> Buildable(a, decls)
    ensures r.Ok? ==> r.value == RoutesOf(Prepared(a, decls))
    ensures r.Err? && r.error.Conflicts? <==>
              AllValid(a, decls) && DistinctNames(decls) && !NoClash(Prepared(a, decls))
  {
    var valid := ValidateAll(a, decls);
    if valid.Err? {
      return Err(valid.error);
    }
    var routes, conflicts := BuildRoutes(valid.value);
    if conflicts > 0 {
      return Err(Conflicts(conflicts));
    }
    return Ok(routes);
  }
}
