/** Response headers on their way through the endpoint pipeline: core/engine/dispatcher.go and the
    context of core/engine/types.go.  A hook is what it does when its turn comes: what its matcher
    says, which headers it touches, what it returns.  Nothing is assumed of that, so a statement about
    every list of hooks is one about every behaviour. */
module Pipeline {
  import opened Wrappers
  import opened Headers

  datatype Act =
    | AddHeader(name: string, value: string)
    | SetHeader(name: string, value: string)
    | RemoveValues(name: string, values: seq<string>)

  /** What stands before a hook: its matcher fails, says no, or says yes; then the request may turn
      out to be cancelled.  Errors carry the headers of their response. */
  datatype Check = MatcherFails(headers: seq<Field>) | Skips | Cancelled(headers: seq<Field>) | Matches

  datatype BeforeOutcome = Continue | Stop(headers: seq<Field>)   // a response or an error

  datatype BeforeHook = BeforeHook(probe: seq<Act>, check: Check, acts: seq<Act>, outcome: BeforeOutcome)

  /** `escapes` marks an error that is not an API error: after hooks are skipped. */
  datatype Endpoint = Endpoint(cancelled: Option<seq<Field>>, acts: seq<Act>, headers: seq<Field>, escapes: bool)

  datatype AfterOutcome = Nothing | Replace(headers: seq<Field>) | Escape(headers: seq<Field>)

  datatype AfterHook = AfterHook(probe: seq<Act>, check: Check, acts: seq<Act>, outcome: AfterOutcome)

  /** The headers collected since the last response, and the last response as hooks see it. */
  datatype Ctx = Ctx(pending: seq<Field>, returned: Option<seq<Field>>)

  // ----- what a stage does to the context

  function Scrub(h: seq<Field>, name: string, values: seq<string>): seq<Field> {
    if h == [] then []
    else
      var init := Scrub(h[..|h| - 1], name, values);
      var last := h[|h| - 1];
      if Fold(last.name) == Fold(name) && last.value in values then init else init + [last]
  }

  function Perform(c: Ctx, a: Act): Ctx {
    match a
    case AddHeader(name, value) => if name == "" then c else c.(pending := c.pending + [Field(name, value)])
    case SetHeader(name, value) =>
      if name == "" then c else c.(pending := Drop(c.pending, {Fold(name)}) + [Field(name, value)])
    case RemoveValues(name, values) =>
      if name == "" || values == [] then c
      else Ctx(Scrub(c.pending, name, values),
               if c.returned.Some? then Some(Scrub(c.returned.value, name, values)) else None)
  }

  function PerformAll(c: Ctx, acts: seq<Act>): Ctx {
    if acts == [] then c else Perform(PerformAll(c, acts[..|acts| - 1]), acts[|acts| - 1])
  }

  // ----- the stages

  /** The response of a stopped stage: what was pending, overlaid with its headers. */
  function CombinePending(c: Ctx, headers: seq<Field>): (seq<Field>, Ctx) {
    (Merge(c.pending, headers), c.(pending := []))
  }

  function Preserving(current: seq<Field>, pending: seq<Field>, replacement: seq<Field>): seq<Field> {
    Merge(Merge(current, pending), replacement)
  }

  function RunBefore(hooks: seq<BeforeHook>, c: Ctx): (Option<seq<Field>>, Ctx) {
    if hooks == [] then (None, c)
    else
      var h := hooks[0];
      var c1 := PerformAll(c, h.probe);
      match h.check
      case MatcherFails(e) => (Some(CombinePending(c1, e).0), CombinePending(c1, e).1)
      case Skips => RunBefore(hooks[1..], c1)
      case Cancelled(e) => (Some(CombinePending(c1, e).0), CombinePending(c1, e).1)
      case Matches =>
        var c2 := PerformAll(c1, h.acts);
        match h.outcome
        case Continue => RunBefore(hooks[1..], c2)
        case Stop(r) => (Some(CombinePending(c2, r).0), CombinePending(c2, r).1)
  }

  function RunAfter(hooks: seq<AfterHook>, response: seq<Field>, c: Ctx): (seq<Field>, Ctx) {
    if hooks == [] then (response, c)
    else
      var h := hooks[0];
      var c1 := PerformAll(c, h.probe);
      match h.check
      case MatcherFails(e) => var r := Preserving(response, c1.pending, e); (r, Ctx([], Some(r)))
      case Skips => RunAfter(hooks[1..], response, c1)
      case Cancelled(e) => var r := Preserving(response, c1.pending, e); (r, Ctx([], Some(r)))
      case Matches =>
        var c2 := PerformAll(c1, h.acts);
        var preserved := if c2.returned.Some? then c2.returned.value else response;
        match h.outcome
        case Nothing => var r := Merge(preserved, c2.pending); RunAfter(hooks[1..], r, Ctx([], Some(r)))
        case Replace(e) => var r := Preserving(preserved, c2.pending, e); RunAfter(hooks[1..], r, Ctx([], Some(r)))
        case Escape(e) => var r := Preserving(preserved, c2.pending, e); (r, Ctx([], Some(r)))
  }

  /** The headers of the pipeline's response, and the context it leaves. */
  function Run(before: seq<BeforeHook>, endpoint: Endpoint, after: seq<AfterHook>, c: Ctx): (seq<Field>, Ctx) {
    var (stopped, c1) := RunBefore(before, c);
    if stopped.Some? then (stopped.value, c1)
    else if endpoint.cancelled.Some? then CombinePending(c1, endpoint.cancelled.value)
    else
      var (r, _) := CombinePending(PerformAll(c1, endpoint.acts), endpoint.headers);
      if endpoint.escapes then (r, Ctx([], Some(r))) else RunAfter(after, r, Ctx([], Some(r)))
  }

  // ----- the code

  class Context {
    var pending: seq<Field>
    var returned: Option<seq<Field>>

    constructor (pending: seq<Field>)
      ensures this.pending == pending && returned == None
    {
      this.pending := pending;
      returned := None;
    }

    function View(): Ctx
      reads this
    {
      Ctx(pending, returned)
    }

    method RemoveResponseHeaderValues(name: string, values: seq<string>)
      modifies this
      ensures View() == Perform(old(View()), RemoveValues(name, values))
    {
      if name == "" || |values| == 0 {
        return;
      }
      pending := Filter(pending, name, values);
      if returned.Some? {
        var filtered := Filter(returned.value, name, values);
        returned := Some(filtered);
      }
    }

    static method Filter(h: seq<Field>, name: string, values: seq<string>) returns (filtered: seq<Field>)
      ensures filtered == Scrub(h, name, values)
    {
      filtered := [];
      for i := 0 to |h|
        invariant filtered == Scrub(h[..i], name, values)
      {
        assert h[..i + 1][..i] == h[..i];
        if !(Fold(h[i].name) == Fold(name) && h[i].value in values) {
          filtered := filtered + [h[i]];
        }
      }
      assert h[..|h|] == h;
    }

    method Act(a: Act)
      modifies this
      ensures View() == Perform(old(View()), a)
    {
      match a
      case AddHeader(name, value) =>
        if name != "" {
          pending := pending + [Field(name, value)];
        }
      case SetHeader(name, value) =>
        if name != "" {
          pending := Drop(pending, {Fold(name)}) + [Field(name, value)];
        }
      case RemoveValues(name, values) =>
        RemoveResponseHeaderValues(name, values);
    }

    method ActAll(acts: seq<Act>)
      modifies this
      ensures View() == PerformAll(old(View()), acts)
    {
      for i := 0 to |acts|
        invariant View() == PerformAll(old(View()), acts[..i])
      {
        assert acts[..i + 1][..i] == acts[..i];
        Act(acts[i]);
      }
      assert acts[..|acts|] == acts;
    }

    method TakeResponseHeaders() returns (headers: seq<Field>)
      modifies this
      ensures headers == old(pending) && pending == [] && returned == old(returned)
    {
      headers := pending;
      pending := [];
    }
  }

  method RunBeforeHooks(ctx: Context, hooks: seq<BeforeHook>) returns (stopped: Option<seq<Field>>)
    modifies ctx
    ensures (stopped, ctx.View()) == RunBefore(hooks, old(ctx.View()))
  {
    var i := 0;
    while i < |hooks|
      invariant 0 <= i <= |hooks|
      invariant RunBefore(hooks, old(ctx.View())) == RunBefore(hooks[i..], ctx.View())
    {
      var hook := hooks[i];
      assert hooks[i..][1..] == hooks[i + 1..];
      ctx.ActAll(hook.probe);
      if hook.check.MatcherFails? || hook.check.Cancelled? {
        var headers := ctx.TakeResponseHeaders();
        return Some(Merge(headers, hook.check.headers));
      }
      if hook.check.Matches? {
        ctx.ActAll(hook.acts);
        if hook.outcome.Stop? {
          var headers := ctx.TakeResponseHeaders();
          return Some(Merge(headers, hook.outcome.headers));
        }
      }
      i := i + 1;
    }
    return None;
  }

  method RunAfterHooks(ctx: Context, hooks: seq<AfterHook>, start: seq<Field>) returns (response: seq<Field>)
    modifies ctx
    ensures (response, ctx.View()) == RunAfter(hooks, start, old(ctx.View()))
  {
    response := start;
    var i := 0;
    while i < |hooks|
      invariant 0 <= i <= |hooks|
      invariant RunAfter(hooks, start, old(ctx.View())) == RunAfter(hooks[i..], response, ctx.View())
    {
      var hook := hooks[i];
      assert hooks[i..][1..] == hooks[i + 1..];
      ctx.ActAll(hook.probe);
      if hook.check.MatcherFails? || hook.check.Cancelled? {
        var pending := ctx.TakeResponseHeaders();
        response := Preserving(response, pending, hook.check.headers);
        ctx.returned := Some(response);
        return;
      }
      if hook.check.Matches? {
        ctx.ActAll(hook.acts);
        var preserved := response;
        if ctx.returned.Some? {
          preserved := ctx.returned.value;
        }
        var pending := ctx.TakeResponseHeaders();
        match hook.outcome {
          case Nothing => response := Merge(preserved, pending);
          case Replace(headers) => response := Preserving(preserved, pending, headers);
          case Escape(headers) =>
            response := Preserving(preserved, pending, headers);
            ctx.returned := Some(response);
            return;
        }
        ctx.returned := Some(response);
      }
      i := i + 1;
    }
  }

  method RunEndpointPipeline(ctx: Context, before: seq<BeforeHook>, endpoint: Endpoint, after: seq<AfterHook>)
    returns (response: seq<Field>)
    modifies ctx
    ensures (response, ctx.View()) == Run(before, endpoint, after, old(ctx.View()))
  {
    var stopped := RunBeforeHooks(ctx, before);
    if stopped.Some? {
      return stopped.value;
    }
    if endpoint.cancelled.Some? {
      var headers := ctx.TakeResponseHeaders();
      return Merge(headers, endpoint.cancelled.value);
    }
    ctx.ActAll(endpoint.acts);
    var headers := ctx.TakeResponseHeaders();
    response := Merge(headers, endpoint.headers);
    ctx.returned := Some(response);
    if !endpoint.escapes {
      response := RunAfterHooks(ctx, after, response);
    }
  }

  // ----- cookies

  function OwnCookies(a: Act): seq<string> {
    if a.AddHeader? && Fold(a.name) == SET_COOKIE then [a.value] else []
  }

  /** The cookies a stage adds by itself. */
  function ActCookies(acts: seq<Act>): seq<string> {
    if acts == [] then [] else ActCookies(acts[..|acts| - 1]) + OwnCookies(acts[|acts| - 1])
  }

  /** A stage that takes no cookie back. */
  predicate Additive(acts: seq<Act>) {
    forall i | 0 <= i < |acts| :: acts[i].AddHeader? || Fold(acts[i].name) != SET_COOKIE
  }

  lemma {:induction false} ScrubElse(h: seq<Field>, name: string, values: seq<string>)
    requires Fold(name) != SET_COOKIE
    ensures Cookies(Scrub(h, name, values)) == Cookies(h)
  {
    if h != [] {
      var n := |h| - 1;
      ScrubElse(h[..n], name, values);
      CookiesConcat(Scrub(h[..n], name, values), [h[n]]);
      assert [h[n]][..0] == [];
    }
  }

  function Keep(cookies: seq<string>, values: seq<string>): seq<string> {
    if cookies == [] then []
    else
      var init := Keep(cookies[..|cookies| - 1], values);
      if cookies[|cookies| - 1] in values then init else init + [cookies[|cookies| - 1]]
  }

  /** Removing cookie values takes exactly those lines, and leaves the others in order. */
  lemma {:induction false} ScrubCookies(h: seq<Field>, name: string, values: seq<string>)
    requires Fold(name) == SET_COOKIE
    ensures Cookies(Scrub(h, name, values)) == Keep(Cookies(h), values)
  {
    if h != [] {
      var n := |h| - 1;
      ScrubCookies(h[..n], name, values);
      CookiesConcat(Scrub(h[..n], name, values), [h[n]]);
      assert [h[n]][..0] == [];
      if IsCookie(h[n]) {
        assert Cookies(h)[..|Cookies(h)| - 1] == Cookies(h[..n]);
      }
    }
  }

  lemma PerformOne(c: Ctx, a: Act)
    requires a.AddHeader? || Fold(a.name) != SET_COOKIE
    ensures Cookies(Perform(c, a).pending) == Cookies(c.pending) + OwnCookies(a)
    ensures Perform(c, a).returned.Some? <==> c.returned.Some?
    ensures c.returned.Some? ==> Cookies(Perform(c, a).returned.value) == Cookies(c.returned.value)
  {
    match a
    case AddHeader(name, value) =>
      CookiesConcat(c.pending, [Field(name, value)]);
      assert [Field(name, value)][..0] == [];
    case SetHeader(name, value) =>
      CookiesConcat(Drop(c.pending, {Fold(name)}), [Field(name, value)]);
      assert [Field(name, value)][..0] == [];
      CookiesSurviveDrop(c.pending, {Fold(name)});
    case RemoveValues(name, values) =>
      ScrubElse(c.pending, name, values);
      if c.returned.Some? { ScrubElse(c.returned.value, name, values); }
  }

  lemma {:induction false} PerformCookies(c: Ctx, acts: seq<Act>)
    requires Additive(acts)
    ensures Cookies(PerformAll(c, acts).pending) == Cookies(c.pending) + ActCookies(acts)
    ensures PerformAll(c, acts).returned.Some? <==> c.returned.Some?
    ensures c.returned.Some? ==> Cookies(PerformAll(c, acts).returned.value) == Cookies(c.returned.value)
  {
    if acts != [] {
      var n := |acts| - 1;
      PerformCookies(c, acts[..n]);
      PerformOne(PerformAll(c, acts[..n]), acts[n]);
      Regroup(Cookies(c.pending), ActCookies(acts[..n]), OwnCookies(acts[n]));
    }
  }

  /** All the cookies of a response and of what is still pending. */
  function AllCookies(response: seq<Field>, c: Ctx): seq<string> {
    Cookies(response) + Cookies(c.pending)
  }

  /** The cookies `sofar`, then what the before hooks contribute, up to the one that stops. */
  function BeforeCookies(hooks: seq<BeforeHook>, sofar: seq<string>): seq<string> {
    if hooks == [] then sofar
    else
      var h := hooks[0];
      var probed := sofar + ActCookies(h.probe);
      match h.check
      case MatcherFails(e) => probed + Cookies(e)
      case Skips => BeforeCookies(hooks[1..], probed)
      case Cancelled(e) => probed + Cookies(e)
      case Matches =>
        var acted := probed + ActCookies(h.acts);
        match h.outcome
        case Continue => BeforeCookies(hooks[1..], acted)
        case Stop(r) => acted + Cookies(r)
  }

  predicate Stops(hooks: seq<BeforeHook>) {
    hooks != [] &&
    match hooks[0].check
    case MatcherFails(_) => true
    case Skips => Stops(hooks[1..])
    case Cancelled(_) => true
    case Matches => hooks[0].outcome.Stop? || Stops(hooks[1..])
  }

  function AfterCookies(hooks: seq<AfterHook>, sofar: seq<string>): seq<string> {
    if hooks == [] then sofar
    else
      var h := hooks[0];
      var probed := sofar + ActCookies(h.probe);
      match h.check
      case MatcherFails(e) => probed + Cookies(e)
      case Skips => AfterCookies(hooks[1..], probed)
      case Cancelled(e) => probed + Cookies(e)
      case Matches =>
        var acted := probed + ActCookies(h.acts);
        match h.outcome
        case Nothing => AfterCookies(hooks[1..], acted)
        case Replace(e) => AfterCookies(hooks[1..], acted + Cookies(e))
        case Escape(e) => acted + Cookies(e)
  }

  /** The cookies `sofar`, then what every stage that runs contributes, in the order they run. */
  function StageCookies(before: seq<BeforeHook>, endpoint: Endpoint, after: seq<AfterHook>, sofar: seq<string>)
    : seq<string>
  {
    var started := BeforeCookies(before, sofar);
    if Stops(before) then started
    else if endpoint.cancelled.Some? then started + Cookies(endpoint.cancelled.value)
    else
      var handled := started + ActCookies(endpoint.acts) + Cookies(endpoint.headers);
      if endpoint.escapes then handled else AfterCookies(after, handled)
  }

  predicate AdditiveBefore(hooks: seq<BeforeHook>) {
    forall i | 0 <= i < |hooks| :: Additive(hooks[i].probe) && Additive(hooks[i].acts)
  }

  predicate AdditiveAfter(hooks: seq<AfterHook>) {
    forall i | 0 <= i < |hooks| :: Additive(hooks[i].probe) && Additive(hooks[i].acts)
  }

  lemma CombineCookies(c: Ctx, headers: seq<Field>)
    ensures Cookies(CombinePending(c, headers).0) == Cookies(c.pending) + Cookies(headers)
    ensures AllCookies(CombinePending(c, headers).0, CombinePending(c, headers).1) == Cookies(c.pending) + Cookies(headers)
  {
    CookiesMerge(c.pending, headers);
    assert Cookies([]) == [];
  }

  lemma {:induction false} BeforeCookiesAdd(hooks: seq<BeforeHook>, c: Ctx)
    requires AdditiveBefore(hooks)
    ensures RunBefore(hooks, c).0.Some? <==> Stops(hooks)
    ensures RunBefore(hooks, c).0.None? ==>
              Cookies(RunBefore(hooks, c).1.pending) == BeforeCookies(hooks, Cookies(c.pending))
    ensures RunBefore(hooks, c).0.Some? ==>
              AllCookies(RunBefore(hooks, c).0.value, RunBefore(hooks, c).1) == BeforeCookies(hooks, Cookies(c.pending))
  {
    if hooks != [] {
      var h := hooks[0];
      var c1 := PerformAll(c, h.probe);
      PerformCookies(c, h.probe);
      match h.check
      case MatcherFails(e) => CombineCookies(c1, e);
      case Cancelled(e) => CombineCookies(c1, e);
      case Skips => BeforeCookiesAdd(hooks[1..], c1);
      case Matches =>
        var c2 := PerformAll(c1, h.acts);
        PerformCookies(c1, h.acts);
        if h.outcome.Stop? { CombineCookies(c2, h.outcome.headers); } else { BeforeCookiesAdd(hooks[1..], c2); }
    }
  }

  /** A stage adds its cookies behind all that are there, and leaves those of the response alone. */
  lemma StageAdds(response: seq<Field>, c: Ctx, acts: seq<Act>)
    requires Additive(acts) && Reflects(response, c)
    ensures AllCookies(response, PerformAll(c, acts)) == AllCookies(response, c) + ActCookies(acts)
    ensures Reflects(response, PerformAll(c, acts))
  {
    PerformCookies(c, acts);
    Regroup(Cookies(response), Cookies(c.pending), ActCookies(acts));
  }

  lemma Regroup(a: seq<string>, b: seq<string>, c: seq<string>)
    ensures a + (b + c) == a + b + c
  {
  }

  /** The response as hooks see it has the cookies of the response. */
  predicate Reflects(response: seq<Field>, c: Ctx) {
    c.returned.Some? && Cookies(c.returned.value) == Cookies(response)
  }

  /** A response settled from what is there and `e`, with nothing pending. */
  lemma SettledCookies(response: seq<Field>, c: Ctx, preserved: seq<Field>, e: seq<Field>)
    requires Cookies(preserved) == Cookies(response)
    ensures var r := Preserving(preserved, c.pending, e);
            AllCookies(r, Ctx([], Some(r))) == AllCookies(response, c) + Cookies(e)
    ensures var r := Merge(preserved, c.pending);
            AllCookies(r, Ctx([], Some(r))) == AllCookies(response, c)
  {
    CookiesMerge(preserved, c.pending);
    CookiesMerge(Merge(preserved, c.pending), e);
    assert Cookies([]) == [];
  }

  lemma {:induction false} AfterCookiesAdd(hooks: seq<AfterHook>, response: seq<Field>, c: Ctx)
    requires AdditiveAfter(hooks) && Reflects(response, c)
    ensures AllCookies(RunAfter(hooks, response, c).0, RunAfter(hooks, response, c).1) ==
              AfterCookies(hooks, AllCookies(response, c))
    decreases hooks, 1
  {
    if hooks != [] {
      var h := hooks[0];
      var c1 := PerformAll(c, h.probe);
      StageAdds(response, c, h.probe);
      match h.check
      case MatcherFails(e) => SettledCookies(response, c1, response, e);
      case Cancelled(e) => SettledCookies(response, c1, response, e);
      case Skips => AfterCookiesAdd(hooks[1..], response, c1);
      case Matches => MatchedCookiesAdd(hooks, response, c1);
    }
  }

  /** What is left of the pipeline once the first hook has matched, in context `c1`. */
  function RunMatched(hooks: seq<AfterHook>, response: seq<Field>, c1: Ctx): (seq<Field>, Ctx)
    requires hooks != []
  {
    var h := hooks[0];
    var c2 := PerformAll(c1, h.acts);
    var preserved := if c2.returned.Some? then c2.returned.value else response;
    match h.outcome
    case Nothing => var r := Merge(preserved, c2.pending); RunAfter(hooks[1..], r, Ctx([], Some(r)))
    case Replace(e) => var r := Preserving(preserved, c2.pending, e); RunAfter(hooks[1..], r, Ctx([], Some(r)))
    case Escape(e) => var r := Preserving(preserved, c2.pending, e); (r, Ctx([], Some(r)))
  }

  function MatchedCookies(hooks: seq<AfterHook>, probed: seq<string>): seq<string>
    requires hooks != []
  {
    var acted := probed + ActCookies(hooks[0].acts);
    match hooks[0].outcome
    case Nothing => AfterCookies(hooks[1..], acted)
    case Replace(e) => AfterCookies(hooks[1..], acted + Cookies(e))
    case Escape(e) => acted + Cookies(e)
  }

  lemma {:induction false} MatchedCookiesAdd(hooks: seq<AfterHook>, response: seq<Field>, c1: Ctx)
    requires hooks != [] && AdditiveAfter(hooks) && Reflects(response, c1)
    ensures AllCookies(RunMatched(hooks, response, c1).0, RunMatched(hooks, response, c1).1) ==
              MatchedCookies(hooks, AllCookies(response, c1))
    decreases hooks, 0
  {
    var h := hooks[0];
    var c2 := PerformAll(c1, h.acts);
    StageAdds(response, c1, h.acts);
    var preserved := c2.returned.value;
    match h.outcome
    case Nothing =>
      SettledCookies(response, c2, preserved, []);
      var r := Merge(preserved, c2.pending);
      AfterCookiesAdd(hooks[1..], r, Ctx([], Some(r)));
    case Replace(e) =>
      SettledCookies(response, c2, preserved, e);
      var r := Preserving(preserved, c2.pending, e);
      AfterCookiesAdd(hooks[1..], r, Ctx([], Some(r)));
    case Escape(e) => SettledCookies(response, c2, preserved, e);
  }

  /** Over any lists of hooks that take no cookie back, the Set-Cookie lines of the response, and of
      what stays pending, are exactly what was pending before and what every stage contributed, in
      order: none is lost, doubled or moved. */
  lemma CookiesAreConcatenated(before: seq<BeforeHook>, endpoint: Endpoint, after: seq<AfterHook>, c: Ctx)
    requires AdditiveBefore(before) && Additive(endpoint.acts) && AdditiveAfter(after)
    ensures AllCookies(Run(before, endpoint, after, c).0, Run(before, endpoint, after, c).1) ==
              StageCookies(before, endpoint, after, Cookies(c.pending))
  {
    BeforeCookiesAdd(before, c);
    if !Stops(before) {
      var c1 := RunBefore(before, c).1;
      if endpoint.cancelled.Some? {
        CombineCookies(c1, endpoint.cancelled.value);
      } else {
        PerformCookies(c1, endpoint.acts);
        var c2 := PerformAll(c1, endpoint.acts);
        CombineCookies(c2, endpoint.headers);
        var r := CombinePending(c2, endpoint.headers).0;
        var c3 := Ctx([], Some(r));
        assert AllCookies(r, c3) == Cookies(r) by { assert Cookies([]) == []; }
        if !endpoint.escapes { AfterCookiesAdd(after, r, c3); }
      }
    }
  }

  lemma ScrubbedContext(c: Ctx, acts: seq<Act>, name: string, values: seq<string>, v: string)
    requires c.returned.Some? && Fold(name) == SET_COOKIE && v in values
    ensures var after := PerformAll(c, acts + [RemoveValues(name, values)]);
            after.returned.Some? && v !in Cookies(after.returned.value) && v !in Cookies(after.pending)
  {
    var all := acts + [RemoveValues(name, values)];
    assert all[..|all| - 1] == acts;
    var c2 := PerformAll(c, acts);
    PerformKeepsReturned(c, acts);
    assert name != "" && values != [];
    ScrubCookies(c2.pending, name, values);
    ScrubCookies(c2.returned.value, name, values);
    KeepDrops(Cookies(c2.pending), values, v);
    KeepDrops(Cookies(c2.returned.value), values, v);
  }

  /** What a stage does not bring: no act adds or sets the cookie, no response or error carries it. */
  predicate ActsLack(acts: seq<Act>, v: string) {
    acts == [] || (v !in Brought(acts[|acts| - 1]) && ActsLack(acts[..|acts| - 1], v))
  }

  function Brought(a: Act): seq<string> {
    if !a.RemoveValues? && Fold(a.name) == SET_COOKIE then [a.value] else []
  }

  predicate CheckLacks(check: Check, v: string) {
    match check
    case MatcherFails(e) => v !in Cookies(e)
    case Cancelled(e) => v !in Cookies(e)
    case Skips => true
    case Matches => true
  }

  predicate OutcomeLacks(outcome: AfterOutcome, v: string) {
    match outcome
    case Nothing => true
    case Replace(e) => v !in Cookies(e)
    case Escape(e) => v !in Cookies(e)
  }

  predicate Lacks(h: AfterHook, v: string) {
    ActsLack(h.probe, v) && CheckLacks(h.check, v) && ActsLack(h.acts, v) && OutcomeLacks(h.outcome, v)
  }

  predicate AllLack(hooks: seq<AfterHook>, v: string) {
    hooks == [] || (Lacks(hooks[0], v) && AllLack(hooks[1..], v))
  }

  /** The cookie is neither pending nor in the response as hooks see it. */
  predicate Clean(c: Ctx, v: string) {
    v !in Cookies(c.pending) && c.returned.Some? && v !in Cookies(c.returned.value)
  }

  lemma {:induction false} DropLacks(h: seq<Field>, names: set<string>, v: string)
    requires v !in Cookies(h)
    ensures v !in Cookies(Drop(h, names))
  {
    if h != [] {
      var init, last := h[..|h| - 1], h[|h| - 1];
      DropLacks(init, names, v);
      CookiesConcat(Drop(init, names), [last]);
      assert [last][..0] == [];
    }
  }

  lemma {:induction false} ScrubLacks(h: seq<Field>, name: string, values: seq<string>, v: string)
    requires v !in Cookies(h)
    ensures v !in Cookies(Scrub(h, name, values))
  {
    if h != [] {
      var init, last := h[..|h| - 1], h[|h| - 1];
      ScrubLacks(init, name, values, v);
      CookiesConcat(Scrub(init, name, values), [last]);
      assert [last][..0] == [];
    }
  }

  lemma PerformOneClean(c: Ctx, a: Act, v: string)
    requires Clean(c, v) && v !in Brought(a)
    ensures Clean(Perform(c, a), v)
  {
    match a
    case AddHeader(name, value) =>
      CookiesConcat(c.pending, [Field(name, value)]);
      assert [Field(name, value)][..0] == [];
    case SetHeader(name, value) =>
      DropLacks(c.pending, {Fold(name)}, v);
      CookiesConcat(Drop(c.pending, {Fold(name)}), [Field(name, value)]);
      assert [Field(name, value)][..0] == [];
    case RemoveValues(name, values) =>
      ScrubLacks(c.pending, name, values, v);
      ScrubLacks(c.returned.value, name, values, v);
  }

  lemma {:induction false} PerformClean(c: Ctx, acts: seq<Act>, v: string)
    requires Clean(c, v) && ActsLack(acts, v)
    ensures Clean(PerformAll(c, acts), v)
  {
    if acts != [] {
      PerformClean(c, acts[..|acts| - 1], v);
      PerformOneClean(PerformAll(c, acts[..|acts| - 1]), acts[|acts| - 1], v);
    }
  }

  lemma {:induction false} PerformAppend(c: Ctx, acts: seq<Act>, more: seq<Act>)
    ensures PerformAll(c, acts + more) == PerformAll(PerformAll(c, acts), more)
  {
    if more == [] {
      assert acts + more == acts;
    } else {
      PerformAppend(c, acts, more[..|more| - 1]);
      assert (acts + more)[..|acts + more| - 1] == acts + more[..|more| - 1];
    }
  }

  /** Once removed, by whatever comes first, and not brought again, the cookie is gone. */
  lemma RemovedIsClean(c: Ctx, acts: seq<Act>, name: string, values: seq<string>, more: seq<Act>, v: string)
    requires c.returned.Some? && Fold(name) == SET_COOKIE && v in values && ActsLack(more, v)
    ensures Clean(PerformAll(c, acts + [RemoveValues(name, values)] + more), v)
  {
    ScrubbedContext(c, acts, name, values, v);
    PerformAppend(c, acts + [RemoveValues(name, values)], more);
    PerformClean(PerformAll(c, acts + [RemoveValues(name, values)]), more, v);
  }

  lemma MergedLack(a: seq<Field>, b: seq<Field>, e: seq<Field>, v: string)
    ensures v in Cookies(Merge(a, b)) <==> v in Cookies(a) || v in Cookies(b)
    ensures v in Cookies(Preserving(a, b, e)) <==> v in Cookies(a) || v in Cookies(b) || v in Cookies(e)
  {
    CookiesMerge(a, b);
    CookiesMerge(Merge(a, b), e);
  }

  lemma {:induction false} StaysGone(hooks: seq<AfterHook>, response: seq<Field>, c: Ctx, v: string)
    requires v !in Cookies(response) && Clean(c, v) && AllLack(hooks, v)
    ensures v !in Cookies(RunAfter(hooks, response, c).0) && Clean(RunAfter(hooks, response, c).1, v)
    decreases hooks, 1
  {
    if hooks != [] {
      var h := hooks[0];
      var c1 := PerformAll(c, h.probe);
      PerformClean(c, h.probe, v);
      assert Cookies([]) == [];
      match h.check
      case MatcherFails(e) => MergedLack(response, c1.pending, e, v);
      case Cancelled(e) => MergedLack(response, c1.pending, e, v);
      case Skips => StaysGone(hooks[1..], response, c1, v);
      case Matches =>
        PerformClean(c1, h.acts, v);
        MatchedStaysGone(hooks, response, PerformAll(c1, h.acts), v);
    }
  }

  /** What is left of the pipeline once the first hook has matched and acted, in context `c2`. */
  function RunActed(hooks: seq<AfterHook>, response: seq<Field>, c2: Ctx): (seq<Field>, Ctx)
    requires hooks != []
  {
    var preserved := if c2.returned.Some? then c2.returned.value else response;
    match hooks[0].outcome
    case Nothing => var r := Merge(preserved, c2.pending); RunAfter(hooks[1..], r, Ctx([], Some(r)))
    case Replace(e) => var r := Preserving(preserved, c2.pending, e); RunAfter(hooks[1..], r, Ctx([], Some(r)))
    case Escape(e) => var r := Preserving(preserved, c2.pending, e); (r, Ctx([], Some(r)))
  }

  lemma {:induction false} MatchedStaysGone(hooks: seq<AfterHook>, response: seq<Field>, c2: Ctx, v: string)
    requires hooks != [] && Clean(c2, v) && OutcomeLacks(hooks[0].outcome, v) && AllLack(hooks[1..], v)
    ensures v !in Cookies(RunActed(hooks, response, c2).0) && Clean(RunActed(hooks, response, c2).1, v)
    decreases hooks, 0
  {
    var preserved := c2.returned.value;
    assert Cookies([]) == [];
    match hooks[0].outcome
    case Nothing =>
      MergedLack(preserved, c2.pending, [], v);
      var r := Merge(preserved, c2.pending);
      StaysGone(hooks[1..], r, Ctx([], Some(r)), v);
    case Replace(e) =>
      MergedLack(preserved, c2.pending, e, v);
      var r := Preserving(preserved, c2.pending, e);
      StaysGone(hooks[1..], r, Ctx([], Some(r)), v);
    case Escape(e) => MergedLack(preserved, c2.pending, e, v);
  }

  /** A cookie that an after hook removes is gone from the final response and from what stays pending,
      whoever set it before, whatever the hook returns and whichever hooks follow, unless one of them
      brings it back. */
  lemma ScrubbedIsGone(response: seq<Field>, c: Ctx, h: AfterHook, rest: seq<AfterHook>,
                       acts: seq<Act>, name: string, values: seq<string>, more: seq<Act>, v: string)
    requires c.returned.Some? && h.check.Matches? && Fold(name) == SET_COOKIE && v in values
    requires h.acts == acts + [RemoveValues(name, values)] + more && ActsLack(more, v)
    requires OutcomeLacks(h.outcome, v) && AllLack(rest, v)
    ensures v !in Cookies(RunAfter([h] + rest, response, c).0) && Clean(RunAfter([h] + rest, response, c).1, v)
  {
    var c1 := PerformAll(c, h.probe);
    PerformKeepsReturned(c, h.probe);
    RemovedIsClean(c1, acts, name, values, more, v);
    var hooks := [h] + rest;
    assert hooks[0] == h && hooks[1..] == rest;
    MatchedStaysGone(hooks, response, PerformAll(c1, h.acts), v);
    assert RunAfter(hooks, response, c) == RunActed(hooks, response, PerformAll(c1, h.acts));
  }

  /** Some hook goes on to run before the pipeline ends: all before it say no. */
  predicate Heeded(hooks: seq<AfterHook>) {
    hooks != [] &&
    match hooks[0].check
    case Matches => true
    case Skips => Heeded(hooks[1..])
    case MatcherFails(_) => false
    case Cancelled(_) => false
  }

  lemma {:induction false} RemovalHeeded(hooks: seq<AfterHook>, response: seq<Field>, c: Ctx, v: string)
    requires v in Cookies(response) && Clean(c, v) && AllLack(hooks, v)
    ensures v in Cookies(RunAfter(hooks, response, c).0) <==> !Heeded(hooks)
  {
    if hooks != [] {
      var h := hooks[0];
      var c1 := PerformAll(c, h.probe);
      PerformClean(c, h.probe, v);
      match h.check
      case MatcherFails(e) => MergedLack(response, c1.pending, e, v);
      case Cancelled(e) => MergedLack(response, c1.pending, e, v);
      case Skips => RemovalHeeded(hooks[1..], response, c1, v);
      case Matches =>
        PerformClean(c1, h.acts, v);
        MatchedStaysGone(hooks, response, PerformAll(c1, h.acts), v);
    }
  }

  /** A removal by a matcher is lost with the matcher's answer: the cookie leaves the response exactly if
      that hook, or a later one that the pipeline gets to, matches. */
  lemma MatcherRemoval(response: seq<Field>, c: Ctx, h: AfterHook, rest: seq<AfterHook>,
                       acts: seq<Act>, name: string, values: seq<string>, more: seq<Act>, v: string)
    requires c.returned.Some? && v in Cookies(response) && Fold(name) == SET_COOKIE && v in values
    requires h.probe == acts + [RemoveValues(name, values)] + more && ActsLack(more, v)
    requires CheckLacks(h.check, v) && ActsLack(h.acts, v) && OutcomeLacks(h.outcome, v) && AllLack(rest, v)
    ensures v in Cookies(RunAfter([h] + rest, response, c).0) <==> !Heeded([h] + rest)
  {
    var c1 := PerformAll(c, h.probe);
    RemovedIsClean(c, acts, name, values, more, v);
    var hooks := [h] + rest;
    assert hooks[0] == h && hooks[1..] == rest;
    match h.check
    case MatcherFails(e) => MergedLack(response, c1.pending, e, v);
    case Cancelled(e) => MergedLack(response, c1.pending, e, v);
    case Skips => RemovalHeeded(rest, response, c1, v);
    case Matches =>
      PerformClean(c1, h.acts, v);
      MatchedStaysGone(hooks, response, PerformAll(c1, h.acts), v);
  }

  lemma {:induction false} PerformKeepsReturned(c: Ctx, acts: seq<Act>)
    requires c.returned.Some?
    ensures PerformAll(c, acts).returned.Some?
  {
    if acts != [] { PerformKeepsReturned(c, acts[..|acts| - 1]); }
  }

  lemma {:induction false} KeepDrops(cookies: seq<string>, values: seq<string>, v: string)
    requires v in values
    ensures v !in Keep(cookies, values)
  {
    if cookies != [] { KeepDrops(cookies[..|cookies| - 1], values, v); }
  }
}
