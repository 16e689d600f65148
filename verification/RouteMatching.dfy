/** Choosing the endpoint for a request: the most specific route wins, and in a registry without
    conflicts the order of registration never decides. */
module RouteMatching {
  import opened Wrappers
  import opened RoutePatterns
  import opened RouteShapes
  import opened RouteRegistry

  datatype Candidate = Candidate(route: Route, params: map<string, string>)

  datatype Outcome =
    | Matched(endpoint: Endpoint, params: map<string, string>)
    | MethodNotAllowed(allow: seq<string>)
    | NotFound
    | InvalidPath

  // ----- the request path

  function BeforeQuery(path: string): string {
    if path == "" || path[0] == '?' then "" else [path[0]] + BeforeQuery(path[1..])
  }

  function UnescapeAll(raws: seq<string>): Option<seq<string>> {
    if raws == [] then Some([])
    else match (UnescapeAll(raws[..|raws| - 1]), Unescape(raws[|raws| - 1]))
      case (Some(init), Some(last)) => Some(init + [last])
      case _ => None
  }

  function DecodedPath(rawPath: string): Option<seq<string>> {
    var path := BeforeQuery(rawPath);
    if path == "" || path[0] != '/' then None else UnescapeAll(SplitPath(path))
  }

  lemma {:induction false} UnescapeAllFails(raws: seq<string>, n: nat)
    requires n <= |raws| && UnescapeAll(raws[..n]).None?
    ensures UnescapeAll(raws).None?
    decreases |raws|
  {
    if n < |raws| {
      assert raws[..|raws| - 1][..n] == raws[..n];
      UnescapeAllFails(raws[..|raws| - 1], n);
    } else {
      assert raws[..n] == raws;
    }
  }

  method DecodeRequestPath(rawPath: string) returns (r: Option<seq<string>>)
    ensures r == DecodedPath(rawPath)
  {
    var path := BeforeQuery(rawPath);
    if path == "" || path[0] != '/' {
      return None;
    }
    var raws := SplitPath(path);
    var segments := [];
    for index := 0 to |raws|
      invariant UnescapeAll(raws[..index]) == Some(segments)
    {
      assert raws[..index + 1][..index] == raws[..index];
      var decoded := Unescape(raws[index]);
      if decoded.None? {
        UnescapeAllFails(raws, index + 1);
        return None;
      }
      segments := segments + [decoded.value];
    }
    assert raws[..|raws|] == raws;
    return Some(segments);
  }

  lemma {:induction false} EscapedAvoids(s: string, plain: set<char>, bad: char)
    requires Bytes(s) && bad !in plain && bad in {'/', '?'}
    ensures bad !in Escaped(s, plain)
  {
    if s != "" { EscapedAvoids(s[1..], plain, bad); }
  }

  /** The segments as a client writes them, percent-encoded one by one. */
  function EscapedAll(segments: seq<string>, plain: set<char>): (raws: seq<string>)
    requires forall i | 0 <= i < |segments| :: Bytes(segments[i])
    ensures |raws| == |segments| && forall i | 0 <= i < |segments| :: raws[i] == Escaped(segments[i], plain)
  {
    seq(|segments|, i requires 0 <= i < |segments| => Escaped(segments[i], plain))
  }

  lemma {:induction false} UnescapeAllIs(raws: seq<string>, segments: seq<string>)
    requires |raws| == |segments| && forall i | 0 <= i < |raws| :: Unescape(raws[i]) == Some(segments[i])
    ensures UnescapeAll(raws) == Some(segments)
  {
    if raws != [] {
      var n := |raws| - 1;
      UnescapeAllIs(raws[..n], segments[..n]);
      assert segments == segments[..n] + [segments[n]];
    }
  }

  lemma {:induction false} QueryIsCut(path: string, query: string)
    requires '?' !in path
    ensures BeforeQuery(path) == path && BeforeQuery(path + "?" + query) == path
  {
    if path == "" {
      assert path + "?" + query == "?" + query;
    } else {
      QueryIsCut(path[1..], query);
      assert (path + "?" + query)[1..] == path[1..] + "?" + query;
      assert path == [path[0]] + path[1..];
    }
  }

  lemma {:induction false} JoinAvoids(parts: seq<string>, bad: char)
    requires bad != '/' && forall i | 0 <= i < |parts| :: bad !in parts[i]
    ensures bad !in JoinSlash(parts)
  {
    if |parts| > 1 { JoinAvoids(parts[1..], bad); }
  }

  lemma {:induction false} JoinIsEmpty(parts: seq<string>)
    ensures JoinSlash(parts) == "" <==> parts == [] || parts == [""]
  {
  }

  /** Whatever segments a request has, and whatever query, the path decodes to those segments. */
  lemma PathRoundTrips(segments: seq<string>, plain: set<char>, query: string)
    requires IsRequest(segments) && (forall i | 0 <= i < |segments| :: Bytes(segments[i])) && '/' !in plain && '?' !in plain
    ensures var path := "/" + JoinSlash(EscapedAll(segments, plain));
            DecodedPath(path) == Some(segments) && DecodedPath(path + "?" + query) == Some(segments)
  {
    var raws := EscapedAll(segments, plain);
    var path := "/" + JoinSlash(raws);
    forall i | 0 <= i < |raws| ensures '/' !in raws[i] && '?' !in raws[i] && Unescape(raws[i]) == Some(segments[i]) {
      EscapedAvoids(segments[i], plain, '/');
      EscapedAvoids(segments[i], plain, '?');
      UnescapeOfEscaped(segments[i], plain);
    }
    JoinAvoids(raws, '?');
    QueryIsCut(path, query);
    JoinIsEmpty(raws);
    if raws != [] {
      RawIsNotEmpty(segments, plain);
      SplitOfPlain(raws);
      assert path[1..] == JoinSlash(raws);
    }
    UnescapeAllIs(raws, segments);
  }

  lemma RawIsNotEmpty(segments: seq<string>, plain: set<char>)
    requires IsRequest(segments) && forall i | 0 <= i < |segments| :: Bytes(segments[i])
    ensures EscapedAll(segments, plain) != [""]
  {
    var raws := EscapedAll(segments, plain);
    if |raws| == 1 { UnescapeOfEscaped(segments[0], plain); }
  }

  /** Where trailing slashes are skipped, one more makes no difference, in the request or in the pattern. */
  lemma TrailingSlash(p: seq<Segment>, s: seq<string>)
    requires (s != [] ==> s[|s| - 1] != "") && (p != [] ==> p[|p| - 1] != Static(""))
    ensures EffectivePath(s + [""], true) == EffectivePath(s, true) == s
    ensures EffectivePattern(p + [Static("")], true) == EffectivePattern(p, true) == p
    ensures Match(p, s + [""], true) == Match(p, s, true) == Match(p + [Static("")], s, true) == Match(p, s, false)
  {
    assert (s + [""])[..|s|] == s && (p + [Static("")])[..|p|] == p;
    SameMatch(p, s + [""], true, p, s, true);
    SameMatch(p + [Static("")], s, true, p, s, true);
    SameMatch(p, s, false, p, s, true);
  }

  lemma SameMatch(p: seq<Segment>, s: seq<string>, skip: bool, p': seq<Segment>, s': seq<string>, skip': bool)
    requires EffectivePattern(p, skip) == EffectivePattern(p', skip') && EffectivePath(s, skip) == EffectivePath(s', skip')
    ensures Match(p, s, skip) == Match(p', s', skip')
  {
  }

  // ----- candidates

  function Candidates(routes: seq<Route>, m: string, s: seq<string>, skip: bool): seq<Candidate> {
    if routes == [] then []
    else
      var r := routes[|routes| - 1];
      var params := Match(r.pattern.segments, s, skip);
      Candidates(routes[..|routes| - 1], m, s, skip) +
      (if params.Some? && Allows(r.methods, m) then [Candidate(r, params.value)] else [])
  }

  function AddMissing(allowed: seq<string>, methods: seq<string>): seq<string> {
    if methods == [] then allowed
    else
      var init := AddMissing(allowed, methods[..|methods| - 1]);
      var m := methods[|methods| - 1];
      if m != ANY_METHOD && m !in init then init + [m] else init
  }

  /** The methods of the routes that match the path but not the method, each once. */
  function Allowed(routes: seq<Route>, m: string, s: seq<string>, skip: bool): seq<string> {
    if routes == [] then []
    else
      var r := routes[|routes| - 1];
      var init := Allowed(routes[..|routes| - 1], m, s, skip);
      if Match(r.pattern.segments, s, skip).Some? && !Allows(r.methods, m) then AddMissing(init, r.methods) else init
  }

  /** The comparator of the sort: more specific first, earlier registration first among equals. */
  predicate Before(x: Candidate, y: Candidate) {
    var c := Compare(x.route.pattern.rank, y.route.pattern.rank);
    if c == 0 then x.route.order < y.route.order else c > 0
  }

  function Insert(l: seq<Candidate>, c: Candidate): seq<Candidate> {
    if l == [] || !Before(c, l[|l| - 1]) then l + [c]
    else Insert(l[..|l| - 1], c) + [l[|l| - 1]]
  }

  /** A stable sort by `Before`. */
  function StableSort(l: seq<Candidate>): (r: seq<Candidate>) {
    if l == [] then [] else Insert(StableSort(l[..|l| - 1]), l[|l| - 1])
  }

  lemma {:induction false} CompareReverse(a: seq<int>, b: seq<int>)
    ensures Compare(a, b) == -Compare(b, a)
  {
    if a != [] && b != [] { CompareReverse(a[1..], b[1..]); }
  }

  lemma {:induction false} CompareEqual(a: seq<int>, b: seq<int>)
    ensures Compare(a, b) == 0 <==> a == b
  {
    if a != [] && b != [] {
      CompareEqual(a[1..], b[1..]);
      assert a == [a[0]] + a[1..] && b == [b[0]] + b[1..];
    }
  }

  lemma {:induction false} CompareTransitive(a: seq<int>, b: seq<int>, c: seq<int>)
    requires Compare(a, b) >= 0 && Compare(b, c) >= 0
    ensures Compare(a, c) >= 0
  {
    if a != [] && b != [] && c != [] && a[0] == b[0] == c[0] {
      CompareTransitive(a[1..], b[1..], c[1..]);
    }
  }

  /** The first candidate is at least as specific as every other. */
  predicate Leads(l: seq<Candidate>) {
    forall i | 0 <= i < |l| :: Compare(l[0].route.pattern.rank, l[i].route.pattern.rank) >= 0
  }

  lemma {:induction false} InsertLeads(l: seq<Candidate>, c: Candidate)
    requires Leads(l)
    ensures Insert(l, c) != [] && Leads(Insert(l, c))
    ensures forall x :: x in Insert(l, c) <==> x in l || x == c
    ensures Insert(l, c)[0] == c || (l != [] && Insert(l, c)[0] == l[0])
  {
    if l == [] {
      CompareEqual(c.route.pattern.rank, c.route.pattern.rank);
    } else {
      var init, last := l[..|l| - 1], l[|l| - 1];
      assert l == init + [last];
      if Before(c, last) {
        InsertLeads(init, c);
      } else {
        CompareReverse(c.route.pattern.rank, last.route.pattern.rank);
        CompareTransitive(l[0].route.pattern.rank, last.route.pattern.rank, c.route.pattern.rank);
      }
    }
  }

  lemma {:induction false} StableSortLeads(l: seq<Candidate>)
    ensures Leads(StableSort(l))
    ensures forall x :: x in StableSort(l) <==> x in l
  {
    if l != [] {
      StableSortLeads(l[..|l| - 1]);
      InsertLeads(StableSort(l[..|l| - 1]), l[|l| - 1]);
      assert l == l[..|l| - 1] + [l[|l| - 1]];
    }
  }

  lemma {:induction false} CandidateMembers(routes: seq<Route>, m: string, s: seq<string>, skip: bool, c: Candidate)
    ensures c in Candidates(routes, m, s, skip) <==>
              c.route in routes && Allows(c.route.methods, m) && Match(c.route.pattern.segments, s, skip) == Some(c.params)
  {
    if routes != [] {
      CandidateMembers(routes[..|routes| - 1], m, s, skip, c);
      assert routes == routes[..|routes| - 1] + [routes[|routes| - 1]];
    }
  }

  // ----- which declaration serves a request

  predicate Fits(d: Decl, s: seq<string>, skip: bool) {
    !d.endpoint.serverOnly && Match(d.segments, s, skip).Some?
  }

  predicate Serves(d: Decl, m: string, s: seq<string>, skip: bool) {
    Fits(d, s, skip) && Allows(d.methods, m)
  }

  /** `d` serves the request and is at least as specific as every declaration that does. */
  predicate Best(ds: seq<Decl>, d: Decl, m: string, s: seq<string>, skip: bool) {
    && d in ds && Serves(d, m, s, skip)
    && forall i | 0 <= i < |ds| && Serves(ds[i], m, s, skip) :: Compare(Ranks(d.segments), Ranks(ds[i].segments)) >= 0
  }

  predicate SomeServes(ds: seq<Decl>, m: string, s: seq<string>, skip: bool) {
    exists i :: 0 <= i < |ds| && Serves(ds[i], m, s, skip)
  }

  lemma CandidateServes(ds: seq<Decl>, m: string, s: seq<string>, skip: bool, c: Candidate) returns (d: Decl)
    requires c in Candidates(RoutesOf(ds), m, s, skip)
    ensures d in ds && Serves(d, m, s, skip) && c.route.endpoint == d.endpoint
    ensures c.route.pattern == d.AsPattern() && Some(c.params) == Match(d.segments, s, skip)
  {
    CandidateMembers(RoutesOf(ds), m, s, skip, c);
    var k :| 0 <= k < |RoutesOf(ds)| && RoutesOf(ds)[k] == c.route;
    var i := RouteOrigin(ds, k);
    d := ds[i];
  }

  lemma ServesCandidate(ds: seq<Decl>, m: string, s: seq<string>, skip: bool, i: nat) returns (c: Candidate)
    requires i < |ds| && Serves(ds[i], m, s, skip)
    ensures c in Candidates(RoutesOf(ds), m, s, skip) && c.route.pattern == ds[i].AsPattern()
  {
    var k := RouteExists(ds, i);
    c := Candidate(RoutesOf(ds)[k], Match(ds[i].segments, s, skip).value);
    CandidateMembers(RoutesOf(ds), m, s, skip, c);
  }

  /** The head of the sorted candidates is the best declaration. */
  lemma HeadIsBest(ds: seq<Decl>, m: string, s: seq<string>, skip: bool) returns (d: Decl)
    requires Candidates(RoutesOf(ds), m, s, skip) != []
    ensures var l := StableSort(Candidates(RoutesOf(ds), m, s, skip));
            && l != [] && Best(ds, d, m, s, skip)
            && l[0].route.endpoint == d.endpoint && Some(l[0].params) == Match(d.segments, s, skip)
  {
    var cs := Candidates(RoutesOf(ds), m, s, skip);
    var l := StableSort(cs);
    StableSortLeads(cs);
    assert cs[0] in l;
    assert l[0] in cs;
    d := CandidateServes(ds, m, s, skip, l[0]);
    forall i | 0 <= i < |ds| && Serves(ds[i], m, s, skip)
      ensures Compare(Ranks(d.segments), Ranks(ds[i].segments)) >= 0
    {
      var c := ServesCandidate(ds, m, s, skip, i);
      var j :| 0 <= j < |l| && l[j] == c;
    }
  }

  // ----- no ties

  lemma {:induction false} SameRankSameShape(p: seq<Segment>, q: seq<Segment>, s: seq<string>)
    requires Ranks(p) == Ranks(q) && Accepts(p, s) && Accepts(q, s)
    requires forall i | 0 <= i < |p| - 1 :: !p[i].Wild?
    ensures SameShape(p, q)
  {
    assert |p| == |Ranks(p)| == |q|;
    if p != [] {
      assert Rank(p[0]) == Ranks(p)[0] == Ranks(q)[0] == Rank(q[0]);
      SegmentShape(p[0], q[0]);
      if p[0].Wild? {
        assert |p| == 1;
      } else {
        assert Ranks(p[1..]) == Ranks(p)[1..] && Ranks(q[1..]) == Ranks(q)[1..];
        SameRankSameShape(p[1..], q[1..], s[1..]);
        ShapeTail(p, q);
      }
    }
  }

  lemma {:induction false} AcceptedLength(p: seq<Segment>, s: seq<string>)
    requires Accepts(p, s) && forall i | 0 <= i < |p| :: !p[i].Wild?
    ensures |s| == |p|
  {
    if p != [] { AcceptedLength(p[1..], s[1..]); }
  }

  /** Two patterns of equal rank that match one request have one shape, with or without skipping
      trailing slashes. */
  lemma EqualRankSameShape(p: seq<Segment>, q: seq<Segment>, s: seq<string>, skip: bool)
    requires WellFormed(p) && WellFormed(q) && Ranks(p) == Ranks(q)
    requires Match(p, s, skip).Some? && Match(q, s, skip).Some?
    ensures SameShape(p, q)
  {
    var p', q', s' := EffectivePattern(p, skip), EffectivePattern(q, skip), EffectivePath(s, skip);
    assert |p| == |Ranks(p)| == |q|;
    if p' != p || q' != q {
      var n := |p| - 1;
      assert Rank(p[n]) == Ranks(p)[n] == Ranks(q)[n] == Rank(q[n]);
      AcceptedLength(p', s');
      AcceptedLength(q', s');
      assert p == p' + [p[n]] && q == q' + [q[n]];
      assert Ranks(p') == Ranks(p)[..n] && Ranks(q') == Ranks(q)[..n];
      SameRankSameShape(p', q', s');
    } else {
      SameRankSameShape(p, q, s');
    }
  }

  predicate Compiled(ds: seq<Decl>) {
    forall i | 0 <= i < |ds| :: WellFormed(ds[i].segments) && ds[i].methods != []
  }

  /** Two declarations that serve one request and rank equal are a conflict. */
  lemma TieIsClash(d: Decl, e: Decl, m: string, s: seq<string>, skip: bool)
    requires WellFormed(d.segments) && WellFormed(e.segments) && d.methods != [] && e.methods != []
    requires Serves(d, m, s, skip) && Serves(e, m, s, skip)
    requires Compare(Ranks(d.segments), Ranks(e.segments)) == 0
    ensures Clash(d, e)
  {
    CompareEqual(Ranks(d.segments), Ranks(e.segments));
    EqualRankSameShape(d.segments, e.segments, s, skip);
    assert ShapeParts(d.segments) == ShapeParts(e.segments);
    IntersectIsOverlap(d.methods, e.methods);
  }

  /** In a registry without conflicts no two declarations that serve a request rank equal. */
  lemma NoTies(ds: seq<Decl>, i: nat, j: nat, m: string, s: seq<string>, skip: bool)
    requires Compiled(ds) && NoClash(ds) && i < j < |ds|
    requires Serves(ds[i], m, s, skip) && Serves(ds[j], m, s, skip)
    ensures Compare(Ranks(ds[i].segments), Ranks(ds[j].segments)) != 0
  {
    if Compare(Ranks(ds[i].segments), Ranks(ds[j].segments)) == 0 {
      TieIsClash(ds[i], ds[j], m, s, skip);
    }
  }

  lemma BestIsUnique(ds: seq<Decl>, d: Decl, e: Decl, m: string, s: seq<string>, skip: bool)
    requires Compiled(ds) && NoClash(ds) && Best(ds, d, m, s, skip) && Best(ds, e, m, s, skip)
    ensures d == e
  {
    var i :| 0 <= i < |ds| && ds[i] == d;
    var j :| 0 <= j < |ds| && ds[j] == e;
    CompareReverse(Ranks(d.segments), Ranks(e.segments));
    if i < j { NoTies(ds, i, j, m, s, skip); }
    if j < i { NoTies(ds, j, i, m, s, skip); }
  }

  // ----- the answer to a request

  predicate SomeFits(ds: seq<Decl>, s: seq<string>, skip: bool) {
    exists i :: 0 <= i < |ds| && Fits(ds[i], s, skip)
  }

  predicate Offers(ds: seq<Decl>, s: seq<string>, skip: bool, x: string) {
    exists i :: 0 <= i < |ds| && Fits(ds[i], s, skip) && x in ds[i].methods
  }

  /** The declaration matches the request, and `params` binds each of its names to the text it stands
      for. */
  predicate Gives(d: Decl, s: seq<string>, skip: bool, params: map<string, string>) {
    Match(d.segments, s, skip) == Some(params) &&
    Bound(EffectivePattern(d.segments, skip), EffectivePath(s, skip), params)
  }

  lemma MatchGives(d: Decl, s: seq<string>, skip: bool)
    requires WellFormed(d.segments) && Match(d.segments, s, skip).Some?
    ensures Gives(d, s, skip, Match(d.segments, s, skip).value)
  {
    BindIsBound(EffectivePattern(d.segments, skip), EffectivePath(s, skip));
  }

  /** `o` is the answer the declarations call for: the best match, or the methods that would have
      matched, or nothing. */
  ghost predicate Answers(ds: seq<Decl>, m: string, s: seq<string>, skip: bool, o: Outcome) {
    match o
    case Matched(endpoint, params) =>
      exists d :: Best(ds, d, m, s, skip) && endpoint == d.endpoint && Gives(d, s, skip, params)
    case MethodNotAllowed(allow) =>
      && !SomeServes(ds, m, s, skip) && SomeFits(ds, s, skip)
      && (forall x :: x in allow <==> Offers(ds, s, skip, x))
      && forall i, j | 0 <= i < j < |allow| :: allow[i] != allow[j]
    case NotFound => !SomeFits(ds, s, skip)
    case InvalidPath => false
  }

  predicate AllDistinct(l: seq<string>) {
    forall i, j | 0 <= i < j < |l| :: l[i] != l[j]
  }

  lemma {:induction false} AddMissingMembers(allowed: seq<string>, methods: seq<string>)
    requires AllDistinct(allowed)
    ensures AllDistinct(AddMissing(allowed, methods))
    ensures forall x :: x in AddMissing(allowed, methods) <==> x in allowed || (x in methods && x != ANY_METHOD)
  {
    if methods != [] {
      AddMissingMembers(allowed, methods[..|methods| - 1]);
      assert methods == methods[..|methods| - 1] + [methods[|methods| - 1]];
    }
  }

  predicate Refuses(r: Route, m: string, s: seq<string>, skip: bool) {
    Match(r.pattern.segments, s, skip).Some? && !Allows(r.methods, m)
  }

  lemma {:induction false} AllowedMembers(routes: seq<Route>, m: string, s: seq<string>, skip: bool)
    ensures AllDistinct(Allowed(routes, m, s, skip))
    ensures forall x :: x in Allowed(routes, m, s, skip) <==>
              exists k :: 0 <= k < |routes| && Refuses(routes[k], m, s, skip) && x in routes[k].methods
  {
    if routes != [] {
      var n := |routes| - 1;
      AllowedMembers(routes[..n], m, s, skip);
      AddMissingMembers(Allowed(routes[..n], m, s, skip), routes[n].methods);
      forall x ensures x in Allowed(routes, m, s, skip) <==>
                exists k :: 0 <= k < |routes| && Refuses(routes[k], m, s, skip) && x in routes[k].methods
      {
        if x in Allowed(routes[..n], m, s, skip) {
          var k :| 0 <= k < n && Refuses(routes[..n][k], m, s, skip) && x in routes[..n][k].methods;
          assert Refuses(routes[k], m, s, skip) && x in routes[k].methods;
        }
        if k :| 0 <= k < |routes| && Refuses(routes[k], m, s, skip) && x in routes[k].methods {
          if k < n { assert routes[..n][k] == routes[k]; }
        }
      }
    }
  }

  /** What is left to answer when no route serves the request. */
  lemma NoCandidate(ds: seq<Decl>, m: string, s: seq<string>, skip: bool)
    requires Compiled(ds) && Candidates(RoutesOf(ds), m, s, skip) == []
    ensures !SomeServes(ds, m, s, skip)
    ensures forall x :: x in Allowed(RoutesOf(ds), m, s, skip) <==> Offers(ds, s, skip, x)
    ensures Allowed(RoutesOf(ds), m, s, skip) != [] <==> SomeFits(ds, s, skip)
    ensures AllDistinct(Allowed(RoutesOf(ds), m, s, skip))
  {
    var routes := RoutesOf(ds);
    var allowed := Allowed(routes, m, s, skip);
    AllowedMembers(routes, m, s, skip);
    if i :| 0 <= i < |ds| && Serves(ds[i], m, s, skip) {
      var c := ServesCandidate(ds, m, s, skip, i);
    }
    forall x ensures x in allowed <==> Offers(ds, s, skip, x) {
      if x in allowed {
        var k :| 0 <= k < |routes| && Refuses(routes[k], m, s, skip) && x in routes[k].methods;
        var i := RouteOrigin(ds, k);
        assert Fits(ds[i], s, skip) && x in ds[i].methods;
      }
      if i :| 0 <= i < |ds| && Fits(ds[i], s, skip) && x in ds[i].methods {
        var k := RouteExists(ds, i);
        assert !Serves(ds[i], m, s, skip);
        assert Refuses(routes[k], m, s, skip);
      }
    }
    if i :| 0 <= i < |ds| && Fits(ds[i], s, skip) {
      assert Offers(ds, s, skip, ds[i].methods[0]);
    }
    if allowed != [] { assert Offers(ds, s, skip, allowed[0]); }
  }

  /** Matching a request against the routes of compiled declarations. */
  method MatchRoute(ghost ds: seq<Decl>, routes: seq<Route>, verb: string, rawPath: string, skip: bool)
    returns (o: Outcome)
    requires routes == RoutesOf(ds) && Compiled(ds)
    ensures DecodedPath(rawPath).None? <==> o == InvalidPath
    ensures DecodedPath(rawPath).Some? ==> Answers(ds, ToUpper(verb), DecodedPath(rawPath).value, skip, o)
  {
    var decoded := DecodeRequestPath(rawPath);
    if decoded.None? {
      return InvalidPath;
    }
    var s := decoded.value;
    var m := ToUpper(verb);
    var candidates: seq<Candidate> := [];
    var allowed: seq<string> := [];
    for k := 0 to |routes|
      invariant candidates == Candidates(routes[..k], m, s, skip)
      invariant allowed == Allowed(routes[..k], m, s, skip)
    {
      assert routes[..k + 1][..k] == routes[..k];
      var params := MatchRequest(routes[k].pattern, s, skip);
      if params.Some? {
        if Allows(routes[k].methods, m) {
          candidates := candidates + [Candidate(routes[k], params.value)];
        } else {
          allowed := AddMissing(allowed, routes[k].methods);
        }
      }
    }
    assert routes[..|routes|] == routes;
    if |candidates| == 0 {
      NoCandidate(ds, m, s, skip);
      return if |allowed| > 0 then MethodNotAllowed(allowed) else NotFound;
    }
    ghost var d := HeadIsBest(ds, m, s, skip);
    MatchGives(d, s, skip);
    candidates := StableSort(candidates);
    return Matched(candidates[0].route.endpoint, candidates[0].params);
  }

  // ----- the order of declarations

  lemma WithoutOne<T>(s: seq<T>, p: nat)
    requires p < |s|
    ensures multiset(s[..p] + s[p + 1..]) == multiset(s) - multiset{s[p]}
  {
    assert s == s[..p] + [s[p]] + s[p + 1..];
  }

  lemma TwoPlaces<T>(s: seq<T>, t: seq<T>, i: nat, j: nat) returns (p: nat, q: nat)
    requires multiset(s) == multiset(t) && i < j < |t|
    ensures p < |s| && q < |s| && p != q && s[p] == t[i] && s[q] == t[j]
  {
    assert t[i] in multiset(s);
    p :| 0 <= p < |s| && s[p] == t[i];
    WithoutOne(s, p);
    WithoutOne(t, i);
    var rest := s[..p] + s[p + 1..];
    assert t[j] in multiset(rest) by {
      assert (t[..i] + t[i + 1..])[j - 1] == t[j];
      assert t[j] in multiset(t[..i] + t[i + 1..]);
    }
    var r :| 0 <= r < |rest| && rest[r] == t[j];
    q := if r < p then r else r + 1;
  }

  lemma ClashSymmetric(d: Decl, e: Decl)
    requires d.methods != [] && e.methods != []
    ensures Clash(d, e) <==> Clash(e, d)
  {
    IntersectIsOverlap(d.methods, e.methods);
    IntersectIsOverlap(e.methods, d.methods);
  }

  lemma PreparedCompiled(a: Alphabet, decls: seq<Endpoint>)
    requires AllValid(a, decls)
    ensures Compiled(Prepared(a, decls))
  {
    var ds := Prepared(a, decls);
    forall i | 0 <= i < |ds| ensures WellFormed(ds[i].segments) && ds[i].methods != [] {
      assert Prepare(a, decls[i]) == Some(ds[i]);
      if decls[i].path != "" { DeclaredIsWellFormed(a, decls[i].path); }
    }
  }

  lemma DeclaredIsWellFormed(a: Alphabet, path: string)
    requires Compilable(a, path)
    ensures WellFormed(SegmentsOf(a, path))
  {
    var raws := SplitPath(path);
    forall i | 0 <= i < |raws| - 1 ensures raws[i] != "" && !SegmentsOf(a, path)[i].Wild? {
      CompilablePiece(a, raws, |raws|, i);
    }
    CompiledIsWellFormed(a, raws, SegmentsOf(a, path));
  }

  lemma {:induction false} CompilablePiece(a: Alphabet, raws: seq<string>, n: nat, i: nat)
    requires i < n <= |raws| && CompilableUpTo(a, raws, n)
    ensures CompilableAt(a, raws, i)
  {
    if i < n - 1 { CompilablePiece(a, raws, n - 1, i); }
  }

  /** Whether a registry builds does not depend on the order of its declarations. */
  lemma BuildableInAnyOrder(a: Alphabet, decls: seq<Endpoint>, decls': seq<Endpoint>)
    requires Buildable(a, decls) && multiset(decls) == multiset(decls')
    ensures Buildable(a, decls')
  {
    forall i | 0 <= i < |decls'| ensures Prepare(a, decls'[i]).Some? {
      assert decls'[i] in multiset(decls);
    }
    var ds, ds' := Prepared(a, decls), Prepared(a, decls');
    PreparedCompiled(a, decls);
    forall i, j | 0 <= i < j < |decls'| ensures decls'[i].name != decls'[j].name && !Clash(ds'[i], ds'[j]) {
      var p, q := TwoPlaces(decls, decls', i, j);
      assert ds[p] == ds'[i] && ds[q] == ds'[j];
      ClashSymmetric(ds[p], ds[q]);
    }
  }

  predicate SameMembers(ds: seq<Decl>, ds': seq<Decl>) {
    (forall i | 0 <= i < |ds| :: ds[i] in ds') && (forall i | 0 <= i < |ds'| :: ds'[i] in ds)
  }

  lemma PreparedMembers(a: Alphabet, decls: seq<Endpoint>, decls': seq<Endpoint>)
    requires AllValid(a, decls) && AllValid(a, decls') && multiset(decls) == multiset(decls')
    ensures forall i | 0 <= i < |decls| :: Prepared(a, decls)[i] in Prepared(a, decls')
  {
    var ds, ds' := Prepared(a, decls), Prepared(a, decls');
    forall i | 0 <= i < |decls| ensures ds[i] in ds' {
      assert decls[i] in multiset(decls');
      var j :| 0 <= j < |decls'| && decls'[j] == decls[i];
      assert ds'[j] == ds[i];
    }
  }

  lemma SameOffers(ds: seq<Decl>, ds': seq<Decl>, m: string, s: seq<string>, skip: bool)
    requires forall i | 0 <= i < |ds| :: ds[i] in ds'
    ensures forall x :: Offers(ds, s, skip, x) ==> Offers(ds', s, skip, x)
    ensures SomeFits(ds, s, skip) ==> SomeFits(ds', s, skip)
    ensures SomeServes(ds, m, s, skip) ==> SomeServes(ds', m, s, skip)
  {
    forall x | Offers(ds, s, skip, x) ensures Offers(ds', s, skip, x) {
      var i :| 0 <= i < |ds| && Fits(ds[i], s, skip) && x in ds[i].methods;
      var j :| 0 <= j < |ds'| && ds'[j] == ds[i];
    }
    if i :| 0 <= i < |ds| && Fits(ds[i], s, skip) {
      var j :| 0 <= j < |ds'| && ds'[j] == ds[i];
    }
    if i :| 0 <= i < |ds| && Serves(ds[i], m, s, skip) {
      var j :| 0 <= j < |ds'| && ds'[j] == ds[i];
    }
  }

  predicate SameAnswer(o: Outcome, o': Outcome) {
    if o.MethodNotAllowed? && o'.MethodNotAllowed?
    then (forall i | 0 <= i < |o.allow| :: o.allow[i] in o'.allow) && forall i | 0 <= i < |o'.allow| :: o'.allow[i] in o.allow
    else o == o'
  }

  lemma AnswersAgree(ds: seq<Decl>, ds': seq<Decl>, m: string, s: seq<string>, skip: bool, o: Outcome, o': Outcome)
    requires Compiled(ds) && NoClash(ds) && SameMembers(ds, ds')
    requires Answers(ds, m, s, skip, o) && Answers(ds', m, s, skip, o')
    ensures SameAnswer(o, o')
  {
    SameOffers(ds, ds', m, s, skip);
    SameOffers(ds', ds, m, s, skip);
    if o.Matched? && o'.Matched? {
      var d :| Best(ds, d, m, s, skip) && o.endpoint == d.endpoint && Match(d.segments, s, skip) == Some(o.params);
      var d' :| Best(ds', d', m, s, skip) && o'.endpoint == d'.endpoint && Match(d'.segments, s, skip) == Some(o'.params);
      assert Best(ds, d', m, s, skip);
      BestIsUnique(ds, d, d', m, s, skip);
    } else if o.Matched? || o'.Matched? {
      BestServes(ds, m, s, skip, o);
      BestServes(ds', m, s, skip, o');
    }
  }

  lemma BestServes(ds: seq<Decl>, m: string, s: seq<string>, skip: bool, o: Outcome)
    requires Answers(ds, m, s, skip, o)
    ensures o.Matched? ==> SomeServes(ds, m, s, skip) && SomeFits(ds, s, skip)
  {
    if o.Matched? {
      var d :| Best(ds, d, m, s, skip);
      var i :| 0 <= i < |ds| && ds[i] == d;
      assert Serves(ds[i], m, s, skip) && Fits(ds[i], s, skip);
    }
  }

  /** Every permutation of the declarations of a registry answers every request alike: the same
      endpoint and parameters, or the same set of allowed methods, or nothing. */
  lemma OrderNeverDecides(a: Alphabet, decls: seq<Endpoint>, decls': seq<Endpoint>,
                          m: string, s: seq<string>, skip: bool, o: Outcome, o': Outcome)
    requires Buildable(a, decls) && multiset(decls) == multiset(decls')
    requires Answers(Prepared(a, decls), m, s, skip, o)
    ensures Buildable(a, decls')
    ensures Answers(Prepared(a, decls'), m, s, skip, o') ==> SameAnswer(o, o')
  {
    BuildableInAnyOrder(a, decls, decls');
    PreparedMembers(a, decls, decls');
    PreparedMembers(a, decls', decls);
    PreparedCompiled(a, decls);
    if Answers(Prepared(a, decls'), m, s, skip, o') {
      AnswersAgree(Prepared(a, decls), Prepared(a, decls'), m, s, skip, o, o');
    }
  }
}
