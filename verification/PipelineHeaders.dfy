/** Ordinary headers on their way through the endpoint pipeline: which stage decides their values
    (core/engine/dispatcher.go). */
module PipelineHeaders {
  import opened Wrappers
  import opened Headers
  import opened Pipeline

  /** The stage removes no value of that name. */
  predicate Spares(acts: seq<Act>, name: string) {
    acts == [] ||
    (!(acts[|acts| - 1].RemoveValues? && Fold(acts[|acts| - 1].name) == Fold(name)) && Spares(acts[..|acts| - 1], name))
  }

  /** What is pending under the name after the stage: setting replaces, adding adds. */
  function ActValues(acts: seq<Act>, name: string, have: seq<string>): seq<string> {
    if acts == [] then have
    else
      var before, a := ActValues(acts[..|acts| - 1], name, have), acts[|acts| - 1];
      if a.RemoveValues? || a.name == "" || Fold(a.name) != Fold(name) then before
      else if a.SetHeader? then [a.value] else before + [a.value]
  }

  /** The last of the groups that is not empty. */
  function Latest(groups: seq<seq<string>>): seq<string> {
    if groups == [] then []
    else if groups[|groups| - 1] != [] then groups[|groups| - 1]
    else Latest(groups[..|groups| - 1])
  }

  /** What is pending once the before hooks have run, up to the one that stops. */
  function BeforeValues(hooks: seq<BeforeHook>, name: string, pending: seq<string>): seq<string> {
    if hooks == [] then pending
    else
      var h := hooks[0];
      var probed := ActValues(h.probe, name, pending);
      match h.check
      case MatcherFails(_) => probed
      case Cancelled(_) => probed
      case Skips => BeforeValues(hooks[1..], name, probed)
      case Matches =>
        var acted := ActValues(h.acts, name, probed);
        if h.outcome.Stop? then acted else BeforeValues(hooks[1..], name, acted)
  }

  /** The headers of the response that stops the pipeline. */
  function StopHeaders(hooks: seq<BeforeHook>): seq<Field>
    requires Stops(hooks)
  {
    match hooks[0].check
    case MatcherFails(e) => e
    case Cancelled(e) => e
    case Skips => StopHeaders(hooks[1..])
    case Matches => if hooks[0].outcome.Stop? then hooks[0].outcome.headers else StopHeaders(hooks[1..])
  }

  /** What the after hooks bring, in groups: what is pending when a hook has run, and the headers of its
      response. */
  function AfterGroups(hooks: seq<AfterHook>, name: string, pending: seq<string>): seq<seq<string>> {
    if hooks == [] then []
    else
      var h := hooks[0];
      var probed := ActValues(h.probe, name, pending);
      match h.check
      case MatcherFails(e) => [probed, Values(e, name)]
      case Cancelled(e) => [probed, Values(e, name)]
      case Skips => AfterGroups(hooks[1..], name, probed)
      case Matches =>
        var acted := ActValues(h.acts, name, probed);
        match h.outcome
        case Nothing => [acted] + AfterGroups(hooks[1..], name, [])
        case Replace(e) => [acted, Values(e, name)] + AfterGroups(hooks[1..], name, [])
        case Escape(e) => [acted, Values(e, name)]
  }

  /** What the whole pipeline brings, in groups and in order. */
  function Groups(before: seq<BeforeHook>, endpoint: Endpoint, after: seq<AfterHook>, name: string, pending: seq<string>)
    : seq<seq<string>>
  {
    var started := BeforeValues(before, name, pending);
    if Stops(before) then [started, Values(StopHeaders(before), name)]
    else if endpoint.cancelled.Some? then [started, Values(endpoint.cancelled.value, name)]
    else
      var answered := [ActValues(endpoint.acts, name, started), Values(endpoint.headers, name)];
      if endpoint.escapes then answered else answered + AfterGroups(after, name, [])
  }

  predicate SparesBefore(hooks: seq<BeforeHook>, name: string) {
    forall i | 0 <= i < |hooks| :: Spares(hooks[i].probe, name) && Spares(hooks[i].acts, name)
  }

  predicate SparesAfter(hooks: seq<AfterHook>, name: string) {
    forall i | 0 <= i < |hooks| :: Spares(hooks[i].probe, name) && Spares(hooks[i].acts, name)
  }

  function Over(under: seq<string>, top: seq<string>): seq<string> {
    if top != [] then top else under
  }

  lemma {:induction false} LatestAppend(a: seq<seq<string>>, b: seq<seq<string>>)
    ensures Latest(a + b) == Over(Latest(a), Latest(b))
  {
    if b == [] {
      assert a + b == a;
    } else {
      var n := |b| - 1;
      LatestAppend(a, b[..n]);
      assert (a + b)[..|a + b| - 1] == a + b[..n];
    }
  }

  lemma LatestTwo(x: seq<string>, y: seq<string>, rest: seq<seq<string>>)
    ensures Latest([x]) == x && Latest([x, y]) == Over(x, y)
    ensures Latest([x] + rest) == Over(x, Latest(rest))
    ensures Latest([x, y] + rest) == Over(Over(x, y), Latest(rest))
  {
    assert [x][..0] == [] && [x, y][..1] == [x];
    LatestAppend([x], rest);
    LatestAppend([x, y], rest);
  }

  lemma {:induction false} HasValues(h: seq<Field>, name: string)
    requires Fold(name) != SET_COOKIE
    ensures Fold(name) in Overlaid(h) <==> Values(h, name) != []
  {
    if Fold(name) !in Overlaid(h) {
      NoValues(h, name);
    } else {
      var f :| f in h && !IsCookie(f) && Fold(f.name) == Fold(name);
      FieldHasValue(h, name, f);
    }
  }

  lemma {:induction false} FieldHasValue(h: seq<Field>, name: string, f: Field)
    requires f in h && Fold(f.name) == Fold(name)
    ensures Values(h, name) != []
  {
    if h[|h| - 1] != f { FieldHasValue(h[..|h| - 1], name, f); }
  }

  /** In a merge the right decides where it has a say. */
  lemma MergedValues(a: seq<Field>, b: seq<Field>, name: string)
    requires Fold(name) != SET_COOKIE
    ensures Values(Merge(a, b), name) == Over(Values(a, name), Values(b, name))
  {
    ValuesMerge(a, b, name);
    HasValues(b, name);
  }

  /** A response that replaces another keeps its ordinary headers, but for those that are pending or that it
      brings itself. */
  lemma PreservedValues(current: seq<Field>, pending: seq<Field>, replacement: seq<Field>, name: string)
    requires Fold(name) != SET_COOKIE
    ensures Values(Preserving(current, pending, replacement), name) ==
              Over(Over(Values(current, name), Values(pending, name)), Values(replacement, name))
  {
    MergedValues(current, pending, name);
    MergedValues(Merge(current, pending), replacement, name);
  }

  lemma {:induction false} ScrubSpares(h: seq<Field>, other: string, values: seq<string>, name: string)
    requires Fold(other) != Fold(name)
    ensures Values(Scrub(h, other, values), name) == Values(h, name)
  {
    if h != [] {
      var init, last := h[..|h| - 1], h[|h| - 1];
      ScrubSpares(init, other, values, name);
      ValuesConcat(Scrub(init, other, values), [last], name);
      ValuesConcat(init, [last], name);
      assert h == init + [last];
    }
  }

  lemma OneValue(name: string, value: string, other: string)
    ensures Values([Field(other, value)], name) == if Fold(other) == Fold(name) then [value] else []
  {
    assert [Field(other, value)][..0] == [];
  }

  lemma AddedValues(h: seq<Field>, other: string, value: string, name: string)
    ensures Values(h + [Field(other, value)], name) ==
              if Fold(other) == Fold(name) then Values(h, name) + [value] else Values(h, name)
  {
    ValuesConcat(h, [Field(other, value)], name);
    OneValue(name, value, other);
  }

  lemma SetValues(h: seq<Field>, other: string, value: string, name: string)
    ensures Values(Drop(h, {Fold(other)}) + [Field(other, value)], name) ==
              if Fold(other) == Fold(name) then [value] else Values(h, name)
  {
    AddedValues(Drop(h, {Fold(other)}), other, value, name);
    ValuesDrop(h, {Fold(other)}, name);
  }

  lemma PerformOneValues(c: Ctx, a: Act, name: string)
    requires !(a.RemoveValues? && Fold(a.name) == Fold(name))
    ensures Values(Perform(c, a).pending, name) == ActValues([a], name, Values(c.pending, name))
    ensures Perform(c, a).returned.Some? <==> c.returned.Some?
    ensures c.returned.Some? ==> Values(Perform(c, a).returned.value, name) == Values(c.returned.value, name)
  {
    assert [a][..0] == [];
    match a
    case AddHeader(other, value) => AddedValues(c.pending, other, value, name);
    case SetHeader(other, value) => SetValues(c.pending, other, value, name);
    case RemoveValues(other, values) =>
      ScrubSpares(c.pending, other, values, name);
      if c.returned.Some? { ScrubSpares(c.returned.value, other, values, name); }
  }

  lemma ActValuesLast(acts: seq<Act>, name: string, have: seq<string>)
    requires acts != []
    ensures ActValues(acts, name, have) ==
              ActValues([acts[|acts| - 1]], name, ActValues(acts[..|acts| - 1], name, have))
  {
    assert [acts[|acts| - 1]][..0] == [];
  }

  lemma {:induction false} PerformValues(c: Ctx, acts: seq<Act>, name: string)
    requires Spares(acts, name)
    ensures Values(PerformAll(c, acts).pending, name) == ActValues(acts, name, Values(c.pending, name))
    ensures PerformAll(c, acts).returned.Some? <==> c.returned.Some?
    ensures c.returned.Some? ==> Values(PerformAll(c, acts).returned.value, name) == Values(c.returned.value, name)
  {
    if acts != [] {
      var n := |acts| - 1;
      PerformValues(c, acts[..n], name);
      PerformOneValues(PerformAll(c, acts[..n]), acts[n], name);
      ActValuesLast(acts, name, Values(c.pending, name));
    }
  }

  lemma {:induction false} BeforeBrings(hooks: seq<BeforeHook>, c: Ctx, name: string)
    requires Fold(name) != SET_COOKIE && SparesBefore(hooks, name)
    ensures RunBefore(hooks, c).0.Some? <==> Stops(hooks)
    ensures !Stops(hooks) ==>
              Values(RunBefore(hooks, c).1.pending, name) == BeforeValues(hooks, name, Values(c.pending, name))
    ensures Stops(hooks) ==>
              Values(RunBefore(hooks, c).0.value, name) ==
                Over(BeforeValues(hooks, name, Values(c.pending, name)), Values(StopHeaders(hooks), name))
  {
    if hooks != [] {
      var h := hooks[0];
      var c1 := PerformAll(c, h.probe);
      PerformValues(c, h.probe, name);
      match h.check
      case MatcherFails(e) => MergedValues(c1.pending, e, name);
      case Cancelled(e) => MergedValues(c1.pending, e, name);
      case Skips => BeforeBrings(hooks[1..], c1, name);
      case Matches =>
        var c2 := PerformAll(c1, h.acts);
        PerformValues(c1, h.acts, name);
        if h.outcome.Stop? { MergedValues(c2.pending, h.outcome.headers, name); } else { BeforeBrings(hooks[1..], c2, name); }
    }
  }

  /** The response as hooks see it has the values of the response. */
  predicate Mirrors(response: seq<Field>, c: Ctx, name: string) {
    c.returned.Some? && Values(c.returned.value, name) == Values(response, name)
  }

  lemma {:induction false} AfterBrings(hooks: seq<AfterHook>, response: seq<Field>, c: Ctx, name: string)
    requires Fold(name) != SET_COOKIE && SparesAfter(hooks, name) && Mirrors(response, c, name)
    ensures Values(RunAfter(hooks, response, c).0, name) ==
              Over(Values(response, name), Latest(AfterGroups(hooks, name, Values(c.pending, name))))
    decreases hooks, 1
  {
    if hooks != [] {
      var h := hooks[0];
      var c1 := PerformAll(c, h.probe);
      PerformValues(c, h.probe, name);
      match h.check
      case MatcherFails(e) => FailureBrings(response, c1.pending, e, name);
      case Cancelled(e) => FailureBrings(response, c1.pending, e, name);
      case Skips => AfterBrings(hooks[1..], response, c1, name);
      case Matches =>
        PerformValues(c1, h.acts, name);
        ActedBrings(hooks, response, PerformAll(c1, h.acts), name);
    }
  }

  lemma FailureBrings(response: seq<Field>, pending: seq<Field>, e: seq<Field>, name: string)
    requires Fold(name) != SET_COOKIE
    ensures Values(Preserving(response, pending, e), name) ==
              Over(Values(response, name), Latest([Values(pending, name), Values(e, name)]))
  {
    PreservedValues(response, pending, e, name);
    LatestTwo(Values(pending, name), Values(e, name), []);
  }

  /** What is left once the first hook has matched and acted. */
  function ActedGroups(hooks: seq<AfterHook>, name: string, acted: seq<string>): seq<seq<string>>
    requires hooks != []
  {
    match hooks[0].outcome
    case Nothing => [acted] + AfterGroups(hooks[1..], name, [])
    case Replace(e) => [acted, Values(e, name)] + AfterGroups(hooks[1..], name, [])
    case Escape(e) => [acted, Values(e, name)]
  }

  lemma {:induction false} ActedBrings(hooks: seq<AfterHook>, response: seq<Field>, c2: Ctx, name: string)
    requires hooks != [] && Fold(name) != SET_COOKIE && SparesAfter(hooks, name) && Mirrors(response, c2, name)
    ensures Values(RunActed(hooks, response, c2).0, name) ==
              Over(Values(response, name), Latest(ActedGroups(hooks, name, Values(c2.pending, name))))
    decreases hooks, 0
  {
    var preserved, acted := c2.returned.value, Values(c2.pending, name);
    var rest := AfterGroups(hooks[1..], name, []);
    assert Values([], name) == [];
    match hooks[0].outcome
    case Nothing =>
      MergedValues(preserved, c2.pending, name);
      var r := Merge(preserved, c2.pending);
      AfterBrings(hooks[1..], r, Ctx([], Some(r)), name);
      LatestTwo(acted, [], rest);
    case Replace(e) =>
      PreservedValues(preserved, c2.pending, e, name);
      var r := Preserving(preserved, c2.pending, e);
      AfterBrings(hooks[1..], r, Ctx([], Some(r)), name);
      LatestTwo(acted, Values(e, name), rest);
    case Escape(e) =>
      PreservedValues(preserved, c2.pending, e, name);
      LatestTwo(acted, Values(e, name), []);
  }

  /** Over any hooks that remove nothing of that name, an ordinary header of the response has exactly the
      values that the last stage to bring it brought: setting replaces what is pending, adding adds to it,
      and a response or an error replaces both. */
  lemma LastStageDecides(before: seq<BeforeHook>, endpoint: Endpoint, after: seq<AfterHook>, c: Ctx, name: string)
    requires Fold(name) != SET_COOKIE
    requires SparesBefore(before, name) && Spares(endpoint.acts, name) && SparesAfter(after, name)
    ensures Values(Run(before, endpoint, after, c).0, name) ==
              Latest(Groups(before, endpoint, after, name, Values(c.pending, name)))
  {
    BeforeBrings(before, c, name);
    var started := BeforeValues(before, name, Values(c.pending, name));
    if Stops(before) {
      LatestTwo(started, Values(StopHeaders(before), name), []);
    } else {
      var c1 := RunBefore(before, c).1;
      if endpoint.cancelled.Some? {
        MergedValues(c1.pending, endpoint.cancelled.value, name);
        LatestTwo(started, Values(endpoint.cancelled.value, name), []);
      } else {
        EndpointBrings(c1, endpoint, after, name);
      }
    }
  }

  lemma EndpointBrings(c1: Ctx, endpoint: Endpoint, after: seq<AfterHook>, name: string)
    requires Fold(name) != SET_COOKIE && Spares(endpoint.acts, name) && SparesAfter(after, name)
    ensures var r := CombinePending(PerformAll(c1, endpoint.acts), endpoint.headers).0;
            var answered := [ActValues(endpoint.acts, name, Values(c1.pending, name)), Values(endpoint.headers, name)];
            && Values(r, name) == Latest(answered)
            && Values(RunAfter(after, r, Ctx([], Some(r))).0, name) == Latest(answered + AfterGroups(after, name, []))
  {
    PerformValues(c1, endpoint.acts, name);
    var c2 := PerformAll(c1, endpoint.acts);
    var acted := ActValues(endpoint.acts, name, Values(c1.pending, name));
    MergedValues(c2.pending, endpoint.headers, name);
    var r := CombinePending(c2, endpoint.headers).0;
    assert Values([], name) == [];
    AfterBrings(after, r, Ctx([], Some(r)), name);
    LatestTwo(acted, Values(endpoint.headers, name), AfterGroups(after, name, []));
  }
}
