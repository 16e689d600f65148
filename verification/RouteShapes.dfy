/** What the shape and the rank of a pattern say about the requests it accepts. */
module RouteShapes {
  import opened RoutePatterns

  /** The decoded segment lists a request can have: "/" is the empty list, so a single empty segment
      never occurs. */
  predicate IsRequest(s: seq<string>) {
    s != [""]
  }

  /** Every request `p` accepts, `q` accepts. */
  ghost predicate Within(p: seq<Segment>, q: seq<Segment>) {
    forall s | IsRequest(s) :: Accepts(p, s) ==> Accepts(q, s)
  }

  // ----- inclusion, read off the segments

  predicate Covers(q: Segment, p: Segment) {
    match q
    case Static(value) => p == q
    case Param(_) => p.Param? || (p.Static? && p.value != "")
    case Wild(_) => true
  }

  predicate Below(p: seq<Segment>, q: seq<Segment>) {
    if q == [] then p == []
    else q[0].Wild? || (p != [] && !p[0].Wild? && Covers(q[0], p[0]) && Below(p[1..], q[1..]))
  }

  lemma {:induction false} BelowAccepts(p: seq<Segment>, q: seq<Segment>, s: seq<string>)
    requires Below(p, q) && Accepts(p, s)
    ensures Accepts(q, s)
  {
    if q != [] && !q[0].Wild? {
      BelowAccepts(p[1..], q[1..], s[1..]);
    }
  }

  function SampleSegment(p: Segment, filler: string): string {
    if p.Static? then p.value else filler
  }

  /** The shortest request of `p`, its parameters all `filler`. */
  function Sample(p: seq<Segment>, filler: string): seq<string> {
    if p == [] || p[0].Wild? then [] else [SampleSegment(p[0], filler)] + Sample(p[1..], filler)
  }

  lemma {:induction false} SampleAccepted(p: seq<Segment>, filler: string)
    requires filler != ""
    ensures Accepts(p, Sample(p, filler))
  {
    if p != [] && !p[0].Wild? { SampleAccepted(p[1..], filler); }
  }

  /** A request that `p` accepts and `q` does not. */
  function Refutation(p: seq<Segment>, q: seq<Segment>, filler: string): seq<string> {
    if q == [] then (if p != [] && p[0].Wild? then [filler] else Sample(p, filler))
    else if p == [] || p[0].Wild? then []
    else if !Covers(q[0], p[0]) then Sample(p, filler)
    else [SampleSegment(p[0], filler)] + Refutation(p[1..], q[1..], filler)
  }

  predicate Fresh(filler: string, q: seq<Segment>) {
    filler != "" && Static(filler) !in q
  }

  lemma {:induction false} Refuted(p: seq<Segment>, q: seq<Segment>, filler: string)
    requires !Below(p, q) && Fresh(filler, q)
    ensures Accepts(p, Refutation(p, q, filler)) && !Accepts(q, Refutation(p, q, filler))
  {
    if q == [] {
      SampleAccepted(p, filler);
    } else if p == [] || p[0].Wild? {
    } else if !Covers(q[0], p[0]) {
      SampleAccepted(p, filler);
      assert q[0] in q;
    } else {
      assert forall x :: x in q[1..] ==> x in q;
      Refuted(p[1..], q[1..], filler);
    }
  }

  lemma RefutationIsRequest(p: seq<Segment>, q: seq<Segment>, filler: string)
    requires WellFormed(p) && filler != ""
    ensures IsRequest(Refutation(p, q, filler))
  {
    if p != [] && !p[0].Wild? {
      assert SampleSegment(p[0], filler) != "" by {
        if |p| == 1 { assert p == [p[0]]; }
      }
      assert Refutation(p, q, filler)[0] == SampleSegment(p[0], filler);
    }
  }

  function Xs(n: nat): (s: string)
    ensures |s| == n
  {
    if n == 0 then "" else "x" + Xs(n - 1)
  }

  /** Some filler is fresh for any pattern: one longer than all its static segments. */
  lemma {:induction false} FreshExists(q: seq<Segment>) returns (n: nat)
    ensures forall m | m >= n :: Fresh(Xs(m), q)
  {
    if q == [] {
      n := 1;
    } else {
      n := FreshExists(q[1..]);
      if q[0].Static? && n <= |q[0].value| { n := |q[0].value| + 1; }
      forall m | m >= n ensures Fresh(Xs(m), q) {
        assert Fresh(Xs(m), q[1..]);
        assert forall x :: x in q <==> x == q[0] || x in q[1..];
      }
    }
  }

  /** Inclusion of accepted requests is the segment-wise order. */
  lemma WithinIsBelow(p: seq<Segment>, q: seq<Segment>)
    requires WellFormed(p)
    ensures Within(p, q) <==> Below(p, q)
  {
    if Below(p, q) {
      forall s | IsRequest(s) && Accepts(p, s) ensures Accepts(q, s) { BelowAccepts(p, q, s); }
    } else {
      var n := FreshExists(q);
      Refuted(p, q, Xs(n));
      RefutationIsRequest(p, q, Xs(n));
    }
  }

  // ----- shapes

  /** Two patterns differ at most in the names of their parameters. */
  predicate SameShape(p: seq<Segment>, q: seq<Segment>) {
    |p| == |q| && forall i | 0 <= i < |p| :: ShapePart(p[i]) == ShapePart(q[i])
  }

  lemma SegmentShape(p: Segment, q: Segment)
    ensures ShapePart(p) == ShapePart(q) <==>
              (p.Static? && p == q) || (p.Param? && q.Param?) || (p.Wild? && q.Wild?)
  {
    if p.Static? { assert ShapePart(p)[2..] == p.value; }
    if q.Static? { assert ShapePart(q)[2..] == q.value; }
  }

  lemma BelowBothWays(p: seq<Segment>, q: seq<Segment>)
    requires WellFormed(p) && WellFormed(q)
    ensures Below(p, q) && Below(q, p) <==> SameShape(p, q)
  {
    BelowBothWaysFrom(p, q, 0);
  }

  lemma BelowBothWaysFrom(p: seq<Segment>, q: seq<Segment>, k: nat)
    requires k <= |p| && k <= |q|
    requires forall i | 0 <= i < |p| - 1 :: !p[i].Wild?
    requires forall i | 0 <= i < |q| - 1 :: !q[i].Wild?
    ensures Below(p[k..], q[k..]) && Below(q[k..], p[k..]) <==> SameShape(p[k..], q[k..])
    decreases |p| - k
  {
    if k < |p| && k < |q| { SegmentShape(p[k], q[k]); }
    if k < |p| && k < |q| && !p[k].Wild? && !q[k].Wild? {
      BelowBothWaysFrom(p, q, k + 1);
      assert p[k..][1..] == p[k + 1..] && q[k..][1..] == q[k + 1..];
      ShapeTail(p[k..], q[k..]);
    } else if k < |p| && k < |q| {
      if SameShape(p[k..], q[k..]) { assert ShapePart(p[k..][0]) == ShapePart(q[k..][0]); }
    }
  }

  lemma ShapeTail(p: seq<Segment>, q: seq<Segment>)
    requires p != [] && q != []
    ensures SameShape(p, q) <==> ShapePart(p[0]) == ShapePart(q[0]) && SameShape(p[1..], q[1..])
  {
    if |p| == |q| && ShapePart(p[0]) == ShapePart(q[0]) && SameShape(p[1..], q[1..]) {
      forall i | 0 <= i < |p| ensures ShapePart(p[i]) == ShapePart(q[i]) {
        if i > 0 { assert p[i] == p[1..][i - 1] && q[i] == q[1..][i - 1]; }
      }
    }
    if SameShape(p, q) {
      forall i | 0 <= i < |p| - 1 ensures ShapePart(p[1..][i]) == ShapePart(q[1..][i]) {
        assert ShapePart(p[i + 1]) == ShapePart(q[i + 1]);
      }
    }
  }

  /** Neither a wildcard nor an empty segment before the last. */
  predicate Inner(p: seq<Segment>) {
    forall i | 0 <= i < |p| - 1 :: !p[i].Wild? && p[i] != Static("")
  }

  /** The text reads like the beginning of a shape key, or all of it. */
  predicate StartsParts(s: string) {
    "s:" <= s || s == ":" || s == "*" || (":\0" <= s && StartsParts(s[2..]))
  }

  /** A NUL in a static segment that reads like the end of the segment. */
  predicate Marked(v: string) {
    exists k | 0 <= k < |v| :: v[k] == '\0' && StartsParts(v[k + 1..])
  }

  predicate Unmarked(p: seq<Segment>) {
    forall i | 0 <= i < |p| && p[i].Static? :: !Marked(p[i].value)
  }

  lemma ShapeCons(p: seq<Segment>)
    requires p != []
    ensures |p| == 1 ==> Shape(p) == ShapePart(p[0])
    ensures |p| > 1 ==> Shape(p) == ShapePart(p[0]) + "\0" + Shape(p[1..])
  {
    assert ShapeParts(p)[1..] == ShapeParts(p[1..]);
  }

  /** Where a piece of a shape key ends with a part, it starts with one. */
  lemma {:induction false} PieceStarts(p: seq<Segment>, piece: string)
    requires p != [] && Inner(p) && piece <= Shape(p)
    requires |piece| == |Shape(p)| || Shape(p)[|piece|] == '\0'
    ensures StartsParts(piece)
  {
    ShapeCons(p);
    var s := Shape(p);
    match p[0]
    case Static(w) =>
      assert s[0] == 's' && s[1] == ':';
      assert piece == s[..|piece|];
    case Wild(_) => assert piece == s[..|piece|];
    case Param(_) =>
      assert piece == s[..|piece|];
      if |piece| > 1 {
        assert Shape(p[1..]) == s[2..] && piece[2..] == s[2..][..|piece| - 2];
        PieceStarts(p[1..], piece[2..]);
      }
  }

  /** A part that reaches beyond another of the same key. */
  lemma Reaches(s: string, x: string, y: string, tail: string)
    requires s == x + "\0" + tail && y <= s && |x| < |y| && (|y| == |s| || s[|y|] == '\0')
    ensures x <= y && y[|x|] == '\0' && y[|x| + 1..] <= tail
    ensures |y[|x| + 1..]| == |tail| || tail[|y[|x| + 1..]|] == '\0'
  {
    assert y == s[..|y|] && x == s[..|x|];
    assert tail == s[|x| + 1..];
    assert y[|x| + 1..] == tail[..|y| - |x| - 1];
  }

  lemma LongerIsStatic(p: seq<Segment>, q: seq<Segment>)
    requires p != [] && q != [] && Shape(p) == Shape(q) && |ShapePart(p[0])| < |ShapePart(q[0])|
    ensures |p| > 1 && p[0].Static? && q[0].Static?
  {
    PartOf(p);
    PartOf(q);
    ShapeCons(p);
    SameKind(p, q);
  }

  /** A first part that is longer than the other pattern's hides the end of that one. */
  lemma LongerIsMarked(p: seq<Segment>, q: seq<Segment>)
    requires p != [] && q != [] && Inner(p) && Shape(p) == Shape(q)
    requires |ShapePart(p[0])| < |ShapePart(q[0])|
    ensures q[0].Static? && Marked(q[0].value)
  {
    LongerIsStatic(p, q);
    ShapeCons(p);
    PartOf(q);
    HidesPart(p[1..], p[0].value, q[0].value, Shape(p));
  }

  lemma HidesPart(p: seq<Segment>, w: string, v: string, s: string)
    requires p != [] && Inner(p) && s == "s:" + w + "\0" + Shape(p) && "s:" + v <= s && |w| < |v|
    requires |"s:" + v| == |s| || s[|"s:" + v|] == '\0'
    ensures Marked(v)
  {
    Reaches(s, "s:" + w, "s:" + v, Shape(p));
    PieceStarts(p, ("s:" + v)[|w| + 3..]);
    MarkedAt(v, |w|);
  }

  lemma MarkedAt(v: string, k: nat)
    requires k < |v| && ("s:" + v)[k + 2] == '\0' && StartsParts(("s:" + v)[k + 3..])
    ensures Marked(v)
  {
    assert ("s:" + v)[k + 3..] == v[k + 1..];
  }

  /** The first part is where a shape key begins, up to a NUL or the end. */
  lemma PartOf(p: seq<Segment>)
    requires p != []
    ensures ShapePart(p[0]) <= Shape(p)
    ensures |ShapePart(p[0])| == |Shape(p)| || Shape(p)[|ShapePart(p[0])|] == '\0'
  {
    ShapeCons(p);
  }

  /** Equal shape keys mean equal shapes, as long as no NUL in a static segment reads like its end. */
  lemma {:induction false} ShapeKeyIsShape(p: seq<Segment>, q: seq<Segment>)
    requires Inner(p) && Inner(q) && Unmarked(p) && Unmarked(q)
    ensures Shape(p) == Shape(q) <==> SameShape(p, q)
  {
    if SameShape(p, q) { assert ShapeParts(p) == ShapeParts(q); }
    if Shape(p) == Shape(q) {
      if p != [] { ShapeCons(p); }
      if q != [] { ShapeCons(q); }
      if p != [] && q != [] {
        if |ShapePart(p[0])| < |ShapePart(q[0])| { LongerIsMarked(p, q); }
        if |ShapePart(q[0])| < |ShapePart(p[0])| { LongerIsMarked(q, p); }
        SameTails(p, q);
        if |p| > 1 { ShapeKeyIsShape(p[1..], q[1..]); }
        ShapeTail(p, q);
      }
    }
  }

  lemma SameTails(p: seq<Segment>, q: seq<Segment>)
    requires p != [] && q != [] && Shape(p) == Shape(q) && |ShapePart(p[0])| == |ShapePart(q[0])|
    ensures ShapePart(p[0]) == ShapePart(q[0]) && (|p| == 1 <==> |q| == 1)
    ensures |p| > 1 ==> Shape(p[1..]) == Shape(q[1..])
  {
    ShapeCons(p);
    ShapeCons(q);
    var s, n := Shape(p), |ShapePart(p[0])|;
    assert ShapePart(p[0]) == s[..n] && ShapePart(q[0]) == s[..n];
    if |p| > 1 && |q| > 1 { assert Shape(p[1..]) == s[n + 1..] && Shape(q[1..]) == s[n + 1..]; }
  }

  /** Equal shape keys hold exactly when two patterns accept the same requests. */
  lemma ShapeKeyIsMeaning(p: seq<Segment>, q: seq<Segment>)
    requires WellFormed(p) && WellFormed(q) && Unmarked(p) && Unmarked(q)
    ensures Shape(p) == Shape(q) <==> forall s | IsRequest(s) :: Accepts(p, s) <==> Accepts(q, s)
  {
    ShapeKeyIsShape(p, q);
    WithinIsBelow(p, q);
    WithinIsBelow(q, p);
    BelowBothWays(p, q);
  }

  // ----- which keys identify their pattern

  /** Every pattern with the key of `p` has its shape. */
  ghost predicate Identified(p: seq<Segment>) {
    forall q | WellFormed(q) && Shape(q) == Shape(p) :: SameShape(p, q)
  }

  predicate IsPart(s: string) {
    "s:" <= s || s == ":" || s == "*"
  }

  /** The value can be read as two segments. */
  predicate Splits(v: string) {
    exists k | 0 < k < |v| :: v[k] == '\0' && IsPart(v[k + 1..])
  }

  /** Parameters only, up to a last segment that cannot be read as two. */
  predicate Alone(p: seq<Segment>) {
    && (forall i | 0 <= i < |p| - 1 :: p[i].Param?)
    && (p != [] && p[|p| - 1].Static? ==> !Splits(p[|p| - 1].value))
  }

  /** `t` is at the end of `s`, behind a NUL or alone. */
  predicate EndsWith(s: string, t: string) {
    |t| <= |s| && s[|s| - |t|..] == t && (|t| < |s| ==> s[|s| - |t| - 1] == '\0')
  }

  lemma EndsBehind(x: string, s: string, t: string)
    requires EndsWith(s, t)
    ensures EndsWith(x + "\0" + s, t)
  {
    var all := x + "\0" + s;
    assert all[|x| + 1..] == s;
    assert all[|all| - |t|..] == s[|s| - |t|..];
  }

  lemma {:induction false} ShapeEnds(p: seq<Segment>)
    requires p != []
    ensures EndsWith(Shape(p), ShapePart(p[|p| - 1]))
  {
    ShapeCons(p);
    if |p| > 1 {
      ShapeEnds(p[1..]);
      EndsBehind(ShapePart(p[0]), Shape(p[1..]), ShapePart(p[|p| - 1]));
    }
  }

  lemma SplitsBehind(head: string, tail: string, t: string)
    requires head != "" && EndsWith(tail, t) && IsPart(t)
    ensures Splits(head + "\0" + tail)
  {
    var v := head + "\0" + tail;
    EndsBehind(head, tail, t);
    var k := |v| - |t| - 1;
    assert v[k + 1..] == t && v[k] == '\0';
  }

  lemma DropLead(v: string, head: string, tail: string)
    requires "s:" + v == ("s:" + head) + "\0" + tail
    ensures v == head + "\0" + tail
  {
    assert v == ("s:" + v)[2..];
    assert (("s:" + head) + "\0" + tail)[2..] == head + "\0" + tail;
  }

  lemma SplitAway(v: string, q: seq<Segment>)
    requires |q| > 1 && Inner(q) && q[0].Static? && "s:" + v == Shape(q)
    ensures Splits(v)
  {
    ShapeCons(q);
    DropLead(v, q[0].value, Shape(q[1..]));
    ShapeEnds(q[1..]);
    PartIsPart(q[|q| - 1]);
    SplitsBehind(q[0].value, Shape(q[1..]), ShapePart(q[|q| - 1]));
  }

  lemma PartIsPart(g: Segment)
    ensures IsPart(ShapePart(g))
  {
  }

  lemma SameKind(p: seq<Segment>, q: seq<Segment>)
    requires p != [] && q != [] && Shape(p) == Shape(q)
    ensures p[0].Static? <==> q[0].Static?
    ensures p[0].Param? <==> q[0].Param?
  {
    PartOf(p);
    PartOf(q);
    assert ShapePart(p[0])[0] == Shape(p)[0] == ShapePart(q[0])[0];
  }

  lemma SameStatic(p: seq<Segment>, q: seq<Segment>)
    requires |p| == 1 && p[0].Static? && Inner(q) && q != [] && Alone(p) && Shape(p) == Shape(q)
    ensures SameShape(p, q)
  {
    ShapeCons(p);
    ShapeCons(q);
    SameKind(p, q);
    if |q| > 1 { SplitAway(p[0].value, q); }
  }

  lemma ShapeIsEmpty(p: seq<Segment>)
    ensures Shape(p) == "" <==> p == []
  {
    if p != [] { PartOf(p); }
  }

  lemma {:induction false} AloneIsIdentified(p: seq<Segment>, q: seq<Segment>)
    requires Inner(p) && Inner(q) && Alone(p) && Shape(p) == Shape(q)
    ensures SameShape(p, q)
  {
    ShapeIsEmpty(p);
    ShapeIsEmpty(q);
    if p != [] {
      SameKind(p, q);
      if p[0].Static? {
        SameStatic(p, q);
      } else {
        SameTails(p, q);
        if |p| > 1 {
          assert Alone(p[1..]);
          AloneIsIdentified(p[1..], q[1..]);
        }
        ShapeTail(p, q);
      }
    }
  }

  lemma {:induction false} JoinMerges(a: seq<string>, x: string, y: string, b: seq<string>)
    ensures Join(a + [x, y] + b) == Join(a + [x + "\0" + y] + b)
  {
    var split, merged := a + [x, y] + b, a + [x + "\0" + y] + b;
    if a == [] {
      assert split[1..] == [y] + b && merged[1..] == b;
      if b != [] { assert ([y] + b)[1..] == b; }
    } else {
      JoinMerges(a[1..], x, y, b);
      assert split[1..] == a[1..] + [x, y] + b && merged[1..] == a[1..] + [x + "\0" + y] + b;
    }
  }

  lemma PartsAppend(a: seq<Segment>, b: seq<Segment>)
    ensures ShapeParts(a + b) == ShapeParts(a) + ShapeParts(b)
  {
  }

  /** Two parts in the middle read like one. */
  lemma ShapeMerges(a: seq<Segment>, x: Segment, y: Segment, b: seq<Segment>, merged: Segment)
    requires ShapePart(merged) == ShapePart(x) + "\0" + ShapePart(y)
    ensures Shape(a + [x, y] + b) == Shape(a + [merged] + b)
  {
    PartsAppend(a + [x, y], b);
    PartsAppend(a, [x, y]);
    PartsAppend(a + [merged], b);
    PartsAppend(a, [merged]);
    JoinMerges(ShapeParts(a), ShapePart(x), ShapePart(y), ShapeParts(b));
    assert ShapeParts([x, y]) == [ShapePart(x), ShapePart(y)] && ShapeParts([merged]) == [ShapePart(merged)];
  }

  /** A static segment and the next one read like one. */
  lemma MergedTwin(p: seq<Segment>, i: nat) returns (q: seq<Segment>)
    requires WellFormed(p) && i < |p| - 1 && p[i].Static?
    ensures WellFormed(q) && Shape(q) == Shape(p) && |q| == |p| - 1
  {
    var merged := Static(p[i].value + "\0" + ShapePart(p[i + 1]));
    q := p[..i] + [merged] + p[i + 2..];
    assert ShapePart(merged) == ("s:" + p[i].value) + "\0" + ShapePart(p[i + 1]);
    ShapeMerges(p[..i], p[i], p[i + 1], p[i + 2..], merged);
    assert p == p[..i] + [p[i], p[i + 1]] + p[i + 2..];
  }

  function PartSegment(t: string): (g: Segment)
    requires IsPart(t)
    ensures ShapePart(g) == t
  {
    if t == ":" then Param("x") else if t == "*" then Wild("x") else assert t == "s:" + t[2..]; Static(t[2..])
  }

  lemma CutValue(v: string, k: nat)
    requires k < |v| && v[k] == '\0'
    ensures "s:" + v == ("s:" + v[..k]) + "\0" + v[k + 1..]
  {
    assert v == v[..k] + "\0" + v[k + 1..];
  }

  /** A last segment that splits reads like two. */
  lemma SplitTwin(p: seq<Segment>, k: nat) returns (q: seq<Segment>)
    requires WellFormed(p) && p != [] && p[|p| - 1].Static? && 0 < k < |p[|p| - 1].value|
    requires p[|p| - 1].value[k] == '\0' && IsPart(p[|p| - 1].value[k + 1..])
    ensures WellFormed(q) && Shape(q) == Shape(p) && |q| == |p| + 1
  {
    var a, last := p[..|p| - 1], p[|p| - 1];
    var x, y := Static(last.value[..k]), PartSegment(last.value[k + 1..]);
    CutValue(last.value, k);
    ShapeMerges(a, x, y, [], last);
    q := a + [x, y];
    assert a + [x, y] + [] == q && a + [last] + [] == p;
    assert x.value != "";
  }

  /** Exactly which patterns have a key that no other shape has. */
  lemma IdentifiedIff(p: seq<Segment>)
    requires WellFormed(p)
    ensures Identified(p) <==> Alone(p)
  {
    if Alone(p) {
      forall q | WellFormed(q) && Shape(q) == Shape(p) ensures SameShape(p, q) {
        AloneIsIdentified(p, q);
      }
    } else if i :| 0 <= i < |p| - 1 && !p[i].Param? {
      var q := MergedTwin(p, i);
      assert !SameShape(p, q);
    } else {
      var v := p[|p| - 1].value;
      var k :| 0 < k < |v| && v[k] == '\0' && IsPart(v[k + 1..]);
      var q := SplitTwin(p, k);
      assert !SameShape(p, q);
    }
  }

  /** A static segment with NUL in it, as "%00" decodes to, can collide: the patterns "/a%00s:b" and
      "/a/b" have one shape key and no request in common. */
  lemma NulCollides(s: seq<string>)
    ensures var p, q := [Static("a\0s:b")], [Static("a"), Static("b")];
            && WellFormed(p) && WellFormed(q) && Shape(p) == Shape(q)
            && !(Accepts(p, s) && Accepts(q, s))
  {
    var p, q := [Static("a\0s:b")], [Static("a"), Static("b")];
    assert "s:" + "a\0s:b" == "s:a\0s:b";
    assert "s:" + "a" == "s:a" && "s:" + "b" == "s:b";
    assert ShapeParts(p) == ["s:a\0s:b"];
    assert ShapeParts(q) == ["s:a", "s:b"];
    assert ShapeParts(q)[1..] == ["s:b"];
    assert "s:a\0s:b" == "s:a" + "\0" + "s:b";
  }

  // ----- ranks

  /** The lengths differ by a final wildcard and nothing else. */
  predicate IsWithFinalWild(p: seq<Segment>, q: seq<Segment>) {
    Ranks(q) == Ranks(p) + [1]
  }

  lemma {:induction false} BelowRanks(p: seq<Segment>, q: seq<Segment>)
    requires Below(p, q) && !SameShape(p, q)
    requires forall i | 0 <= i < |p| - 1 :: !p[i].Wild?
    requires forall i | 0 <= i < |q| - 1 :: !q[i].Wild?
    ensures IsWithFinalWild(p, q) ==> Compare(Ranks(p), Ranks(q)) == -1
    ensures !IsWithFinalWild(p, q) ==> Compare(Ranks(p), Ranks(q)) == 1
  {
    var a, b := Ranks(p), Ranks(q);
    if q[0].Wild? {
      assert |q| == 1;
      if p == [] {
        assert a + [1] == b;
      } else {
        assert (a + [1])[0] == a[0];
      }
    } else if a[0] != b[0] {
      assert (a + [1])[0] == a[0];
    } else {
      SegmentShape(p[0], q[0]);
      ShapeTail(p, q);
      assert a[1..] == Ranks(p[1..]) && b[1..] == Ranks(q[1..]);
      assert a + [1] == [a[0]] + (a[1..] + [1]) && b == [b[0]] + b[1..];
      BelowRanks(p[1..], q[1..]);
      assert IsWithFinalWild(p, q) <==> IsWithFinalWild(p[1..], q[1..]);
    }
  }

  /** A pattern whose requests are a proper subset of another's outranks it, except exactly when the
      other has the same segment ranks and one final wildcard more; then the wildcard outranks. */
  lemma SubsetOutranks(p: seq<Segment>, q: seq<Segment>)
    requires WellFormed(p) && WellFormed(q)
    requires Within(p, q) && !Within(q, p)
    ensures Compare(Ranks(p), Ranks(q)) == if IsWithFinalWild(p, q) then -1 else 1
  {
    WithinIsBelow(p, q);
    WithinIsBelow(q, p);
    BelowBothWays(p, q);
    BelowRanks(p, q);
  }
}
