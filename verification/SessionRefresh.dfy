/** The sliding expiry of core/core_routes.go: reading a session past its update age moves its
    expiry forward.  `Access` is what one request does; `GetSession` is the code that does it. */
module SessionRefresh {
  import opened Wrappers
  import opened SessionStates
  import opened SessionCoherence
  import opened SessionRevocation
  import SessionStore

  /** Durations in milliseconds; `stamp` is the text of a moment. */
  datatype Options = Options(
    lifetime: int, updateAge: int, disableRefresh: bool, deferRefresh: bool, stamp: int -> string)

  datatype Request = Request(post: bool, dontRemember: bool, disableRefresh: bool, skipRefresh: bool)

  datatype Outcome = MethodNotAllowed | NoSession | Unauthorized | Found(session: Session, needsRefresh: bool)

  predicate Due(o: Options, session: Session, now: int) {
    now >= session.expiresAt - o.lifetime + o.updateAge
  }

  function Renewal(o: Options, now: int): Change {
    Change(Some(now + o.lifetime), map["updatedAt" := o.stamp(now)])
  }

  /** Whether a request that finds `session` running writes a new expiry. */
  predicate Renews(o: Options, r: Request, session: Session, now: int) {
    && !r.dontRemember && !r.disableRefresh && (o.deferRefresh ==> r.post)
    && Due(o, session, now) && !o.disableRefresh && !r.skipRefresh
  }

  predicate Refused(o: Options, r: Request) {
    r.post && !o.deferRefresh
  }

  function Access(c: Config, o: Options, s: State, t: string, r: Request): (State, Outcome) {
    var found := Find(c, s, t);
    if Refused(o, r) then (s, MethodNotAllowed)
    else if found.None? then (s, NoSession)
    else
      var session := found.value.session;
      if session.expiresAt < s.now then
        (if !o.deferRefresh || r.post then Delete(c, s, t) else s, NoSession)
      else if Renews(o, r, session, s.now) then
        var updated := Updated(c, s, t, Renewal(o, s.now));
        (Update(c, s, t, Renewal(o, s.now)),
         if updated.None? then Unauthorized else Found(updated.value, false))
      else
        var deferred := !r.dontRemember && !r.disableRefresh && o.deferRefresh && !r.post;
        (s, Found(session, deferred && Due(o, session, s.now) && !o.disableRefresh && !r.skipRefresh))
  }

  method GetSession(store: SessionStore.Store, o: Options, t: string, r: Request) returns (outcome: Outcome)
    modifies store
    ensures (store.View(), outcome) == Access(store.config, o, old(store.View()), t, r)
  {
    if r.post && !o.deferRefresh {
      return MethodNotAllowed;
    }
    var stored := store.FindStoredSession(t);
    if stored.None? {
      return NoSession;
    }
    var session := stored.value.session;
    if session.expiresAt < store.now {
      if !o.deferRefresh || r.post {
        store.DeleteStoredSession(t);
      }
      return NoSession;
    }
    if r.dontRemember || r.disableRefresh {
      return Found(session, false);
    }
    var dueAt := session.expiresAt - o.lifetime + o.updateAge;
    var needsRefresh := !(store.now < dueAt) && !o.disableRefresh && !r.skipRefresh;
    if o.deferRefresh && !r.post {
      return Found(session, needsRefresh);
    }
    if needsRefresh {
      var updated := store.UpdateStoredSession(t, Renewal(o, store.now));
      if updated.None? {
        return Unauthorized;
      }
      session := updated.value;
    }
    return Found(session, false);
  }

  // ----- visits

  /** A request that neither defers nor suppresses the refresh. */
  const PLAIN := Request(false, false, false, false)

  predicate Sliding(o: Options) {
    0 < o.updateAge <= o.lifetime && !o.disableRefresh && !o.deferRefresh
  }

  /** The session looked at: its token and its user.  `profile` says whether user records may change
      between two reads. */
  datatype Subject = Subject(token: string, user: string, profile: bool)

  /** An operation that is not about the session: time passing, work on other tokens, the revocation of
      another user, or a change of a user record. */
  predicate Unrelated(op: Op, j: Subject) {
    match op
    case CreateOp(x, _) => x != j.token
    case UpdateOp(x, _) => x != j.token
    case DeleteOp(x) => x != j.token
    case DeleteManyOp(xs) => j.token !in xs
    case DeleteUserOp(u, _) => u != j.user
    case UpdateUserOp(_) => j.profile
    case TickOp(_) => true
  }

  /** What happens between two requests of the session's owner. */
  predicate Between(ops: seq<Op>, j: Subject) {
    forall i | 0 <= i < |ops| :: Unrelated(ops[i], j)
  }

  /** The state after each of `visits` has run its operations and then read the session. */
  function Visit(c: Config, o: Options, s: State, t: string, visits: seq<seq<Op>>): State {
    if visits == [] then s
    else
      var s1 := Visit(c, o, s, t, visits[..|visits| - 1]);
      Access(c, o, Run(c, s1, visits[|visits| - 1]), t, PLAIN).0
  }

  /** Every visit does only unrelated work and comes at most `bound` after the one before. */
  predicate Punctual(c: Config, o: Options, s: State, j: Subject, visits: seq<seq<Op>>, bound: int) {
    visits != [] ==>
    var s1 := Visit(c, o, s, j.token, visits[..|visits| - 1]);
    && Punctual(c, o, s, j, visits[..|visits| - 1], bound)
    && Between(visits[|visits| - 1], j)
    && Run(c, s1, visits[|visits| - 1]).now - s1.now <= bound
  }

  /** Every visit finds the session. */
  predicate AllFound(c: Config, o: Options, s: State, t: string, visits: seq<seq<Op>>) {
    visits != [] ==>
    && AllFound(c, o, s, t, visits[..|visits| - 1])
    && Access(c, o, Run(c, Visit(c, o, s, t, visits[..|visits| - 1]), visits[|visits| - 1]), t, PLAIN).1.Found?
  }

  /** A cached session leaves the store before it expires, by what the lifetime has over whole seconds;
      a change of the user record rewrites it and can cost up to a second. */
  function CopySlack(o: Options, j: Subject): int {
    if j.profile then SECOND - 1 else o.lifetime % SECOND
  }

  /** With the database to fall back on, this does not matter. */
  function Slack(c: Config, o: Options, j: Subject): int {
    if c.ReadsDatabase() then 0 else CopySlack(o, j)
  }

  // ----- the session as it is held

  predicate RowHeld(c: Config, s: State, j: Subject, e: int) {
    && (c.DatabaseStores() ==>
          j.token in s.rows && s.rows[j.token].expiresAt == e && s.rows[j.token].userId == j.user)
    && (c.ReadsDatabase() ==> j.user in s.users)
  }

  predicate IsCopy(p: Payload, j: Subject, e: int) {
    p.session.expiresAt == e && p.session.userId == j.user && p.user.Some?
  }

  /** The cached copy, if it can still be read, is the session expiring at `e`; and where nothing else
      holds the session, it can be read until `slack` before that. */
  predicate CopyHeld(c: Config, o: Options, s: State, j: Subject, e: int) {
    c.secondary ==>
      && (o.lifetime < SECOND ==> j.token !in s.payloads)
      && (Present(s, j.token) ==> IsCopy(s.payloads[j.token].value, j, e))
      && (!c.ReadsDatabase() && o.lifetime >= SECOND ==> Lasts(s, j.token, e - CopySlack(o, j)))
  }

  predicate Lasts(s: State, t: string, moment: int) {
    s.now < moment ==> t in s.payloads && Reaches(s.payloads[t].deadline, moment)
  }

  predicate Reaches(d: Deadline, moment: int) {
    d.Never? || moment <= d.ms
  }

  predicate NotIn(l: seq<Entry>, t: string) {
    l == [] || (l[|l| - 1].token != t && NotIn(l[..|l| - 1], t))
  }

  /** No other user's list mentions the token. */
  predicate Unlisted(s: State, j: Subject) {
    forall u | u in s.lists && u != j.user :: NotIn(s.lists[u].value, j.token)
  }

  /** The session's expiry was last written as `e`. */
  predicate Held(c: Config, o: Options, s: State, j: Subject, e: int) {
    j.token != "" && j.user != "" && RowHeld(c, s, j, e) && CopyHeld(c, o, s, j, e) && Unlisted(s, j)
  }

  // ----- what other work leaves alone

  predicate Untouched(s: State, s': State, t: string) {
    && (t in s'.payloads <==> t in s.payloads)
    && (t in s.payloads ==> s'.payloads[t] == s.payloads[t])
    && s'.now == s.now
  }

  lemma UntouchedCopy(c: Config, o: Options, s: State, s': State, j: Subject, e: int)
    requires CopyHeld(c, o, s, j, e) && Untouched(s, s', j.token)
    ensures CopyHeld(c, o, s', j, e)
  {
  }

  lemma StoreListedElsewhere(c: Config, s: State, p: Payload, x: string, u: string, e: int, l: seq<Entry>, t: string)
    requires x != t && l != []
    ensures Untouched(s, StoreListed(c, s, p, x, u, e, l), t)
    ensures StoreListed(c, s, p, x, u, e, l).rows == s.rows && StoreListed(c, s, p, x, u, e, l).users == s.users
  {
  }

  /** A store under another token leaves what is held under `t` alone. */
  lemma StoreElsewhere(c: Config, s: State, p: Payload, x: string, u: string, e: int, t: string)
    requires x != t
    ensures Untouched(s, StorePayload(c, s, p, x, u, e), t)
    ensures StorePayload(c, s, p, x, u, e).rows == s.rows && StorePayload(c, s, p, x, u, e).users == s.users
  {
    if c.secondary && x != "" && u != "" && TTL(e, s.now) > 0 {
      StoreListedElsewhere(c, s, p, x, u, e, StableSort(Keep(LoadList(s, u), s.now, x) + [Entry(x, e)]), t);
    }
  }

  lemma {:induction false} KeptNotIn(l: seq<Entry>, now: int, x: string, t: string)
    requires NotIn(l, t)
    ensures NotIn(Keep(l, now, x), t)
  {
    if l != [] {
      KeptNotIn(l[..|l| - 1], now, x, t);
      var kept := Keep(l[..|l| - 1], now, x);
      assert kept + [] == kept && (kept + [l[|l| - 1]])[..|kept|] == kept;
    }
  }

  lemma {:induction false} InsertedNotIn(l: seq<Entry>, e: Entry, t: string)
    requires NotIn(l, t) && e.token != t
    ensures NotIn(Insert(l, e), t)
  {
    if l == [] || l[|l| - 1].expiresAt <= e.expiresAt {
      assert (l + [e])[..|l|] == l;
    } else {
      InsertedNotIn(l[..|l| - 1], e, t);
      var shorter := Insert(l[..|l| - 1], e);
      assert (shorter + [l[|l| - 1]])[..|shorter|] == shorter;
    }
  }

  lemma {:induction false} SortedNotIn(l: seq<Entry>, t: string)
    requires NotIn(l, t)
    ensures NotIn(StableSort(l), t)
  {
    if l != [] {
      SortedNotIn(l[..|l| - 1], t);
      InsertedNotIn(StableSort(l[..|l| - 1]), l[|l| - 1], t);
    }
  }

  lemma RewrittenNotIn(l: seq<Entry>, now: int, x: string, e: Entry, t: string)
    requires NotIn(l, t) && e.token != t
    ensures NotIn(StableSort(Keep(l, now, x) + [e]), t)
  {
    var kept := Keep(l, now, x);
    KeptNotIn(l, now, x, t);
    assert (kept + [e])[..|kept|] == kept;
    SortedNotIn(kept + [e], t);
  }

  lemma {:induction false} NotInTokens(l: seq<Entry>, t: string)
    requires NotIn(l, t)
    ensures t !in TokensOf(l)
  {
    if l != [] {
      NotInTokens(l[..|l| - 1], t);
      forall i | 0 <= i < |l|
        ensures l[i].token != t
      {
        if i < |l| - 1 { assert l[..|l| - 1][i].token in TokensOf(l[..|l| - 1]); }
      }
    }
  }

  lemma PutListUnlisted(c: Config, s: State, u: string, l: seq<Entry>, ttl: int, j: Subject)
    requires Unlisted(s, j) && (u != j.user ==> NotIn(l, j.token))
    ensures Unlisted(PutList(c, s, u, l, ttl), j)
  {
  }

  lemma StoreUnlisted(c: Config, s: State, p: Payload, x: string, u: string, e: int, j: Subject)
    requires Unlisted(s, j) && (x != j.token || u == j.user)
    ensures Unlisted(StorePayload(c, s, p, x, u, e), j)
  {
    var l := StableSort(Keep(LoadList(s, u), s.now, x) + [Entry(x, e)]);
    if u != j.user { RewrittenNotIn(LoadList(s, u), s.now, x, Entry(x, e), j.token); }
    PutListUnlisted(c, s, u, l, (l[|l| - 1].expiresAt - s.now) / SECOND, j);
  }

  lemma UnlistUnlisted(c: Config, s: State, u: string, x: string, j: Subject)
    requires Unlisted(s, j)
    ensures Unlisted(Unlist(c, s, u, x), j)
  {
    var kept := Keep(LoadList(s, u), s.now, x);
    if kept != [] {
      var l := StableSort(kept);
      if u != j.user {
        KeptNotIn(LoadList(s, u), s.now, x, j.token);
        SortedNotIn(kept, j.token);
      }
      PutListUnlisted(c, s, u, l, (l[|l| - 1].expiresAt - s.now) / SECOND, j);
    }
  }

  lemma CreateElsewhere(c: Config, o: Options, s: State, j: Subject, e: int, x: string, session: Session)
    requires Held(c, o, s, j, e) && x != j.token
    ensures Held(c, o, Create(c, s, x, session), j, e) && Create(c, s, x, session).now == s.now
  {
    if !CreateFails(c, s, x) {
      var s1 := if c.DatabaseStores() then s.(rows := s.rows[x := session]) else s;
      var p := Payload(session, UserOf(s, session.userId));
      StoreElsewhere(c, s1, p, x, session.userId, session.expiresAt, j.token);
      StoreUnlisted(c, s1, p, x, session.userId, session.expiresAt, j);
      UntouchedCopy(c, o, s, StorePayload(c, s1, p, x, session.userId, session.expiresAt), j, e);
    }
  }

  lemma UpdateElsewhere(c: Config, o: Options, s: State, j: Subject, e: int, x: string, change: Change)
    requires Held(c, o, s, j, e) && x != j.token
    ensures Held(c, o, Update(c, s, x, change), j, e) && Update(c, s, x, change).now == s.now
  {
    if c.secondary && Load(s, x).Some? {
      var cached := Load(s, x).value;
      var updated := Apply(cached.session, change);
      StoreElsewhere(c, s, Payload(updated, cached.user), x, updated.userId, updated.expiresAt, j.token);
      StoreUnlisted(c, s, Payload(updated, cached.user), x, updated.userId, updated.expiresAt, j);
    }
    UntouchedCopy(c, o, s, Update(c, s, x, change), j, e);
  }

  lemma DeleteElsewhere(c: Config, o: Options, s: State, j: Subject, e: int, x: string)
    requires Held(c, o, s, j, e) && x != j.token
    ensures Held(c, o, Delete(c, s, x), j, e) && Delete(c, s, x).now == s.now
  {
    if c.secondary && Load(s, x).Some? { UnlistUnlisted(c, s, Load(s, x).value.session.userId, x, j); }
    UntouchedCopy(c, o, s, Delete(c, s, x), j, e);
  }

  lemma DeleteManyElsewhere(c: Config, o: Options, s: State, j: Subject, e: int, xs: seq<string>)
    requires Held(c, o, s, j, e) && j.token !in xs
    ensures Held(c, o, DeleteMany(c, s, xs), j, e) && DeleteMany(c, s, xs).now == s.now
  {
    UntouchedCopy(c, o, s, DeleteMany(c, s, xs), j, e);
  }

  /** Revoking another user's sessions spares this one, as no list of theirs mentions it. */
  lemma DeleteUserElsewhere(c: Config, o: Options, s: State, j: Subject, e: int, u: string, force: bool)
    requires Held(c, o, s, j, e) && u != j.user
    ensures Held(c, o, DeleteUser(c, s, u, force), j, e) && DeleteUser(c, s, u, force).now == s.now
  {
    NotInTokens(LoadList(s, u), j.token);
    UntouchedCopy(c, o, s, DeleteUser(c, s, u, force), j, e);
  }

  lemma RewriteUser(c: Config, o: Options, s: State, j: Subject, e: int, user: User)
    requires CopyHeld(c, o, s, j, e) && c.secondary && j.profile && Load(s, j.token).Some?
    ensures var p := Payload(Load(s, j.token).value.session, Some(user));
            CopyHeld(c, o, PutPayload(c, s, j.token, p, TTL(p.session.expiresAt, s.now)), j, e)
  {
  }

  lemma {:induction false} RefreshHeld(c: Config, o: Options, s: State, j: Subject, e: int, l: seq<Entry>, user: User)
    requires CopyHeld(c, o, s, j, e) && c.secondary && j.profile
    ensures CopyHeld(c, o, Refresh(c, s, l, user), j, e)
    ensures var s' := Refresh(c, s, l, user);
            s'.rows == s.rows && s'.users == s.users && s'.now == s.now && s'.lists == s.lists
  {
    if l != [] {
      var s1 := Refresh(c, s, l[..|l| - 1], user);
      var x := l[|l| - 1];
      RefreshHeld(c, o, s, j, e, l[..|l| - 1], user);
      if x.expiresAt > s.now && Load(s1, x.token).Some? {
        if x.token == j.token {
          RewriteUser(c, o, s1, j, e, user);
        } else {
          UntouchedCopy(c, o, s1, Refresh(c, s, l, user), j, e);
        }
      }
    }
  }

  lemma UpdateUserHeld(c: Config, o: Options, s: State, j: Subject, e: int, user: User)
    requires Held(c, o, s, j, e) && j.profile
    ensures Held(c, o, UpdateUser(c, s, user), j, e) && UpdateUser(c, s, user).now == s.now
  {
    var s1 := s.(users := s.users[user.id := user]);
    assert CopyHeld(c, o, s1, j, e) by { UntouchedCopy(c, o, s, s1, j, e); }
    if c.secondary { RefreshHeld(c, o, s1, j, e, LoadList(s1, user.id), user); }
  }

  lemma StepHeld(c: Config, o: Options, s: State, j: Subject, e: int, op: Op)
    requires Held(c, o, s, j, e) && Unrelated(op, j)
    ensures Held(c, o, Step(c, s, op), j, e) && Step(c, s, op).now >= s.now
  {
    match op
    case CreateOp(x, session) => CreateElsewhere(c, o, s, j, e, x, session);
    case UpdateOp(x, change) => UpdateElsewhere(c, o, s, j, e, x, change);
    case DeleteOp(x) => DeleteElsewhere(c, o, s, j, e, x);
    case DeleteManyOp(xs) => DeleteManyElsewhere(c, o, s, j, e, xs);
    case DeleteUserOp(u, force) => DeleteUserElsewhere(c, o, s, j, e, u, force);
    case UpdateUserOp(user) => UpdateUserHeld(c, o, s, j, e, user);
    case TickOp(_) =>
  }

  lemma {:induction false} RunHeld(c: Config, o: Options, s: State, j: Subject, e: int, ops: seq<Op>)
    requires Held(c, o, s, j, e) && Between(ops, j)
    ensures Held(c, o, Run(c, s, ops), j, e) && Run(c, s, ops).now >= s.now
  {
    if ops != [] {
      RunHeld(c, o, s, j, e, ops[..|ops| - 1]);
      StepHeld(c, o, Run(c, s, ops[..|ops| - 1]), j, e, ops[|ops| - 1]);
    }
  }

  // ----- writing the session

  lemma StoreListedWrites(c: Config, s: State, p: Payload, t: string, u: string, e: int, l: seq<Entry>)
    requires l != [] && TTL(e, s.now) > 0
    ensures var s' := StoreListed(c, s, p, t, u, e, l);
            && s'.payloads == s.payloads[t := Cell(p, At(s.now + TTL(e, s.now) * SECOND))]
            && s'.rows == s.rows && s'.users == s.users && s'.now == s.now
  {
  }

  /** What a store writes under the token. */
  lemma StoreWrites(c: Config, s: State, p: Payload, t: string, u: string, e: int)
    requires c.secondary && t != "" && u != "" && e - s.now >= SECOND
    ensures TTL(e, s.now) > 0 && TTL(e, s.now) == (e - s.now) / SECOND
    ensures var s' := StorePayload(c, s, p, t, u, e);
            && s'.payloads == s.payloads[t := Cell(p, At(s.now + TTL(e, s.now) * SECOND))]
            && s'.rows == s.rows && s'.users == s.users && s'.now == s.now
  {
    StoreListedWrites(c, s, p, t, u, e, StableSort(Keep(LoadList(s, u), s.now, t) + [Entry(t, e)]));
  }

  /** A store with the full lifetime makes a copy that lasts. */
  lemma StoreRenews(c: Config, o: Options, s: State, p: Payload, j: Subject)
    requires c.secondary && j.token != "" && j.user != "" && IsCopy(p, j, s.now + o.lifetime) && o.lifetime >= SECOND
    ensures CopyHeld(c, o, StorePayload(c, s, p, j.token, j.user, s.now + o.lifetime), j, s.now + o.lifetime)
  {
    StoreWrites(c, s, p, j.token, j.user, s.now + o.lifetime);
  }

  predicate SameRows(s: State, s': State) {
    s'.rows == s.rows && s'.users == s.users && s'.now == s.now
  }

  lemma StoreKeepsRows(c: Config, s: State, p: Payload, t: string, u: string, e: int)
    ensures SameRows(s, StorePayload(c, s, p, t, u, e))
  {
  }

  /** A session of a known user, created with the full lifetime, is held. */
  lemma CreateHeld(c: Config, o: Options, s: State, j: Subject, session: Session)
    requires j.token != "" && j.user != "" && session.userId == j.user && j.user in s.users
    requires j.token !in s.rows && j.token !in s.payloads && Unlisted(s, j) && o.lifetime > 0
    requires session.expiresAt == s.now + o.lifetime
    ensures Held(c, o, Create(c, s, j.token, session), j, s.now + o.lifetime)
    ensures Create(c, s, j.token, session).now == s.now
  {
    var s1 := if c.DatabaseStores() then s.(rows := s.rows[j.token := session]) else s;
    StoreHeld(c, o, s1, Payload(session, UserOf(s, session.userId)), j);
  }

  lemma StoreHeld(c: Config, o: Options, s: State, p: Payload, j: Subject)
    requires j.token != "" && j.user != "" && j.token !in s.payloads && Unlisted(s, j) && o.lifetime > 0
    requires IsCopy(p, j, s.now + o.lifetime) && RowHeld(c, s, j, s.now + o.lifetime)
    ensures Held(c, o, StorePayload(c, s, p, j.token, j.user, s.now + o.lifetime), j, s.now + o.lifetime)
    ensures StorePayload(c, s, p, j.token, j.user, s.now + o.lifetime).now == s.now
  {
    CreateCopy(c, o, s, p, j);
    StoreUnlisted(c, s, p, j.token, j.user, s.now + o.lifetime, j);
    StoreRow(c, s, p, j.token, j.user, s.now + o.lifetime, j, s.now + o.lifetime);
  }

  lemma StoreRow(c: Config, s: State, p: Payload, t: string, u: string, expiresAt: int, j: Subject, e: int)
    requires RowHeld(c, s, j, e)
    ensures RowHeld(c, StorePayload(c, s, p, t, u, expiresAt), j, e)
    ensures StorePayload(c, s, p, t, u, expiresAt).now == s.now
  {
    StoreKeepsRows(c, s, p, t, u, expiresAt);
  }

  lemma CreateCopy(c: Config, o: Options, s: State, p: Payload, j: Subject)
    requires j.token != "" && j.user != "" && j.token !in s.payloads && o.lifetime > 0
    requires IsCopy(p, j, s.now + o.lifetime)
    ensures CopyHeld(c, o, StorePayload(c, s, p, j.token, j.user, s.now + o.lifetime), j, s.now + o.lifetime)
  {
    if c.secondary && o.lifetime >= SECOND { StoreRenews(c, o, s, p, j); }
  }

  /** The payload with which a read renews the cached session. */
  function Renewed(o: Options, s: State, t: string): Payload
    requires Load(s, t).Some?
  {
    Payload(Apply(Load(s, t).value.session, Renewal(o, s.now)), Load(s, t).value.user)
  }

  lemma UpdateHeld(c: Config, o: Options, s: State, j: Subject, e: int)
    requires Sliding(o) && Held(c, o, s, j, e) && Find(c, s, j.token).Some?
    ensures var s' := Update(c, s, j.token, Renewal(o, s.now));
            Held(c, o, s', j, s.now + o.lifetime) && s'.now == s.now
    ensures Updated(c, s, j.token, Renewal(o, s.now)).Some?
  {
    if c.secondary && Load(s, j.token).Some? {
      UpdateCached(c, o, s, j, e);
    } else {
      UpdateRow(c, o, s, j, e);
    }
  }

  /** Once the copy is renewed, the row follows. */
  function WithRow(c: Config, o: Options, s: State, s1: State, t: string): State {
    if c.DatabaseStores() && t in s.rows then s1.(rows := s.rows[t := Apply(s.rows[t], Renewal(o, s.now))]) else s1
  }

  lemma CachedCopy(c: Config, o: Options, s: State, j: Subject, e: int, p: Payload)
    requires Sliding(o) && Held(c, o, s, j, e) && c.secondary && Load(s, j.token).Some? && p == Renewed(o, s, j.token)
    ensures var s1 := StorePayload(c, s, p, j.token, j.user, s.now + o.lifetime);
            CopyHeld(c, o, WithRow(c, o, s, s1, j.token), j, s.now + o.lifetime)
  {
    var s1 := StorePayload(c, s, p, j.token, j.user, s.now + o.lifetime);
    StoreRenews(c, o, s, p, j);
    UntouchedCopy(c, o, s1, WithRow(c, o, s, s1, j.token), j, s.now + o.lifetime);
  }

  lemma CachedLists(c: Config, o: Options, s: State, j: Subject, p: Payload)
    requires Unlisted(s, j)
    ensures var s1 := StorePayload(c, s, p, j.token, j.user, s.now + o.lifetime);
            Unlisted(WithRow(c, o, s, s1, j.token), j)
  {
    StoreUnlisted(c, s, p, j.token, j.user, s.now + o.lifetime, j);
    RowLists(c, o, s, StorePayload(c, s, p, j.token, j.user, s.now + o.lifetime), j);
  }

  lemma RowLists(c: Config, o: Options, s: State, s1: State, j: Subject)
    requires Unlisted(s1, j)
    ensures Unlisted(WithRow(c, o, s, s1, j.token), j)
  {
  }

  lemma CachedRow(c: Config, o: Options, s: State, j: Subject, e: int, p: Payload)
    requires RowHeld(c, s, j, e)
    ensures var s' := WithRow(c, o, s, StorePayload(c, s, p, j.token, j.user, s.now + o.lifetime), j.token);
            RowHeld(c, s', j, s.now + o.lifetime) && s'.now == s.now
  {
    StoreKeepsRows(c, s, p, j.token, j.user, s.now + o.lifetime);
  }

  lemma UpdateStores(c: Config, s: State, t: string, change: Change, updated: Session)
    requires c.secondary && Load(s, t).Some? && updated == Apply(Load(s, t).value.session, change)
    ensures var s1 := StorePayload(c, s, Payload(updated, Load(s, t).value.user), t, updated.userId, updated.expiresAt);
            Update(c, s, t, change) ==
              if c.DatabaseStores() && t in s.rows then s1.(rows := s.rows[t := Apply(s.rows[t], change)]) else s1
  {
  }

  lemma UpdateIs(c: Config, o: Options, s: State, j: Subject, e: int)
    requires c.secondary && Load(s, j.token).Some? && IsCopy(Load(s, j.token).value, j, e)
    ensures Update(c, s, j.token, Renewal(o, s.now)) ==
              WithRow(c, o, s, StorePayload(c, s, Renewed(o, s, j.token), j.token, j.user, s.now + o.lifetime), j.token)
  {
    UpdateStores(c, s, j.token, Renewal(o, s.now), Renewed(o, s, j.token).session);
  }

  lemma UpdateCached(c: Config, o: Options, s: State, j: Subject, e: int)
    requires Sliding(o) && Held(c, o, s, j, e) && c.secondary && Load(s, j.token).Some?
    ensures var s' := Update(c, s, j.token, Renewal(o, s.now));
            Held(c, o, s', j, s.now + o.lifetime) && s'.now == s.now
  {
    var p := Renewed(o, s, j.token);
    CachedCopy(c, o, s, j, e, p);
    CachedLists(c, o, s, j, p);
    CachedRow(c, o, s, j, e, p);
    UpdateIs(c, o, s, j, e);
  }

  lemma UpdateRow(c: Config, o: Options, s: State, j: Subject, e: int)
    requires Sliding(o) && Held(c, o, s, j, e) && Find(c, s, j.token).Some?
    requires !(c.secondary && Load(s, j.token).Some?)
    ensures var s' := Update(c, s, j.token, Renewal(o, s.now));
            Held(c, o, s', j, s.now + o.lifetime) && s'.now == s.now
    ensures Updated(c, s, j.token, Renewal(o, s.now)).Some?
  {
  }

  lemma FoundIsHeld(c: Config, o: Options, s: State, j: Subject, e: int)
    requires Held(c, o, s, j, e)
    ensures Find(c, s, j.token).Some? ==> Find(c, s, j.token).value.session.expiresAt == e
    ensures c.ReadsDatabase() ==> Find(c, s, j.token).Some?
    ensures o.lifetime >= SECOND && s.now < e - CopySlack(o, j) ==> Find(c, s, j.token).Some?
  {
  }

  /** A read of a held session that comes before its expiry, slack deducted, finds it, and leaves it
      expiring no sooner than lifetime minus update age from now. */
  lemma AccessHeld(c: Config, o: Options, s: State, j: Subject, e: int)
    requires Sliding(o) && Held(c, o, s, j, e)
    requires s.now < e - Slack(c, o, j) || (c.ReadsDatabase() && s.now == e)
    requires c.ReadsDatabase() || o.lifetime >= SECOND
    ensures var (s', outcome) := Access(c, o, s, j.token, PLAIN);
            && outcome.Found? && s'.now == s.now
            && var e' := if s.now >= e - o.lifetime + o.updateAge then s.now + o.lifetime else e;
               Held(c, o, s', j, e') && e' >= s.now + o.lifetime - o.updateAge
  {
    FoundIsHeld(c, o, s, j, e);
    if s.now >= e - o.lifetime + o.updateAge { UpdateHeld(c, o, s, j, e); }
  }

  // ----- runs of visits

  /** Whether a plain read in state `s` writes a new expiry. */
  predicate Writes(c: Config, o: Options, s: State, t: string) {
    var found := Find(c, s, t);
    found.Some? && s.now <= found.value.session.expiresAt && Due(o, found.value.session, s.now)
  }

  /** The moments at which the expiry was written, from `start` on. */
  function WriteTimes(c: Config, o: Options, s: State, t: string, start: int, visits: seq<seq<Op>>): (ws: seq<int>)
    ensures ws != []
  {
    if visits == [] then [start]
    else
      var n := |visits| - 1;
      var ws := WriteTimes(c, o, s, t, start, visits[..n]);
      var arrival := Run(c, Visit(c, o, s, t, visits[..n]), visits[n]);
      if Writes(c, o, arrival, t) then ws + [arrival.now] else ws
  }

  function Last(ws: seq<int>): int
    requires ws != []
  {
    ws[|ws| - 1]
  }

  /** Held, written at `written`, and last read less than the update age after that. */
  predicate Tracked(c: Config, o: Options, s: State, j: Subject, written: int) {
    Held(c, o, s, j, written + o.lifetime) && written <= s.now < written + o.updateAge
  }

  lemma AccessKeeps(c: Config, o: Options, s: State, j: Subject, written: int)
    requires Sliding(o) && Held(c, o, s, j, written + o.lifetime) && written <= s.now
    requires s.now <= written + o.lifetime - 1 - Slack(c, o, j) || (c.ReadsDatabase() && s.now == written + o.lifetime)
    requires c.ReadsDatabase() || o.lifetime >= SECOND
    ensures Access(c, o, s, j.token, PLAIN).1.Found?
    ensures Tracked(c, o, Access(c, o, s, j.token, PLAIN).0, j, if Writes(c, o, s, j.token) then s.now else written)
  {
    FoundIsHeld(c, o, s, j, written + o.lifetime);
    AccessHeld(c, o, s, j, written + o.lifetime);
  }

  lemma VisitKeeps(c: Config, o: Options, s: State, j: Subject, written: int, ops: seq<Op>)
    requires Sliding(o) && Tracked(c, o, s, j, written) && Between(ops, j)
    requires Run(c, s, ops).now - s.now <= o.lifetime - o.updateAge - Slack(c, o, j)
    ensures Access(c, o, Run(c, s, ops), j.token, PLAIN).1.Found?
    ensures Tracked(c, o, Access(c, o, Run(c, s, ops), j.token, PLAIN).0, j,
                    if Writes(c, o, Run(c, s, ops), j.token) then Run(c, s, ops).now else written)
  {
    RunHeld(c, o, s, j, written + o.lifetime, ops);
    AccessKeeps(c, o, Run(c, s, ops), j, written);
  }

  /** Gaps of at most lifetime minus update age never lose the session: whatever is done to other
      sessions and to user records in between, every read of such a run finds it, and leaves it at least
      lifetime minus update age to go. */
  lemma {:induction false} ShortGapsKeep(c: Config, o: Options, s: State, j: Subject, visits: seq<seq<Op>>)
    requires Sliding(o) && Held(c, o, s, j, s.now + o.lifetime)
    requires Punctual(c, o, s, j, visits, o.lifetime - o.updateAge - Slack(c, o, j))
    ensures AllFound(c, o, s, j.token, visits)
    ensures Tracked(c, o, Visit(c, o, s, j.token, visits), j, Last(WriteTimes(c, o, s, j.token, s.now, visits)))
    ensures var s' := Visit(c, o, s, j.token, visits);
            exists e :: Held(c, o, s', j, e) && e >= s'.now + o.lifetime - o.updateAge
  {
    var w := Last(WriteTimes(c, o, s, j.token, s.now, visits));
    if visits != [] {
      var init, ops := visits[..|visits| - 1], visits[|visits| - 1];
      ShortGapsKeep(c, o, s, j, init);
      var s1 := Visit(c, o, s, j.token, init);
      VisitKeeps(c, o, s1, j, Last(WriteTimes(c, o, s, j.token, s.now, init)), ops);
      assert Visit(c, o, s, j.token, visits) == Access(c, o, Run(c, s1, ops), j.token, PLAIN).0;
    }
    assert Held(c, o, Visit(c, o, s, j.token, visits), j, w + o.lifetime);
  }

  /** A gap longer than the lifetime always loses the session. */
  lemma LongGapLoses(c: Config, o: Options, s: State, j: Subject, written: int, ops: seq<Op>)
    requires Sliding(o) && Held(c, o, s, j, written + o.lifetime) && written <= s.now
    requires Between(ops, j) && Run(c, s, ops).now - s.now > o.lifetime
    ensures Access(c, o, Run(c, s, ops), j.token, PLAIN).1 == NoSession
    ensures Lost(c, Access(c, o, Run(c, s, ops), j.token, PLAIN).0, j.token)
  {
    RunHeld(c, o, s, j, written + o.lifetime, ops);
    FoundIsHeld(c, o, Run(c, s, ops), j, written + o.lifetime);
  }

  /** Nothing of `t` is left for a lookup. */
  predicate Lost(c: Config, s: State, t: string) {
    (c.secondary ==> !Present(s, t)) && (c.ReadsDatabase() ==> t !in s.rows)
  }

  lemma {:induction false} RefreshLost(c: Config, s: State, l: seq<Entry>, user: User, t: string)
    requires !Present(s, t)
    ensures !Present(Refresh(c, s, l, user), t)
    ensures Refresh(c, s, l, user).rows == s.rows && Refresh(c, s, l, user).now == s.now
  {
    if l != [] { RefreshLost(c, s, l[..|l| - 1], user, t); }
  }

  lemma StepLost(c: Config, s: State, j: Subject, op: Op)
    requires Lost(c, s, j.token) && Unrelated(op, j)
    ensures Lost(c, Step(c, s, op), j.token) && Step(c, s, op).now >= s.now
  {
    match op
    case CreateOp(x, session) =>
      var s1 := if c.DatabaseStores() then s.(rows := s.rows[x := session]) else s;
      StoreElsewhere(c, s1, Payload(session, UserOf(s, session.userId)), x, session.userId, session.expiresAt, j.token);
    case UpdateOp(x, change) =>
      if c.secondary && Load(s, x).Some? {
        var cached := Load(s, x).value;
        var updated := Apply(cached.session, change);
        StoreElsewhere(c, s, Payload(updated, cached.user), x, updated.userId, updated.expiresAt, j.token);
      }
    case DeleteOp(_) =>
    case DeleteManyOp(_) =>
    case DeleteUserOp(_, _) =>
    case UpdateUserOp(user) =>
      var s1 := s.(users := s.users[user.id := user]);
      if c.secondary { RefreshLost(c, s1, LoadList(s1, user.id), user, j.token); }
    case TickOp(_) =>
  }

  lemma {:induction false} RunLost(c: Config, s: State, j: Subject, ops: seq<Op>)
    requires Lost(c, s, j.token) && Between(ops, j)
    ensures Lost(c, Run(c, s, ops), j.token) && Run(c, s, ops).now >= s.now
  {
    if ops != [] {
      RunLost(c, s, j, ops[..|ops| - 1]);
      StepLost(c, Run(c, s, ops[..|ops| - 1]), j, ops[|ops| - 1]);
    }
  }

  /** After any read a held session is held on, its expiry counted from the last write, or lost. */
  lemma AccessTracks(c: Config, o: Options, s: State, j: Subject, written: int)
    requires Sliding(o) && Held(c, o, s, j, written + o.lifetime) && written <= s.now
    ensures var s' := Access(c, o, s, j.token, PLAIN).0;
            && s'.now == s.now
            && (Writes(c, o, s, j.token) ==>
                  s.now >= written + o.updateAge && Held(c, o, s', j, s.now + o.lifetime))
            && (!Writes(c, o, s, j.token) ==> Held(c, o, s', j, written + o.lifetime) || Lost(c, s', j.token))
  {
    FoundIsHeld(c, o, s, j, written + o.lifetime);
    if Writes(c, o, s, j.token) { UpdateHeld(c, o, s, j, written + o.lifetime); }
  }

  predicate Apart(ws: seq<int>, age: int) {
    forall i | 0 < i < |ws| :: ws[i] - ws[i - 1] >= age
  }

  lemma AppendApart(ws: seq<int>, w: int, age: int)
    requires ws != [] && Apart(ws, age) && w - Last(ws) >= age
    ensures Apart(ws + [w], age)
  {
    var r := ws + [w];
    forall i | 0 < i < |r| ensures r[i] - r[i - 1] >= age {
      if i < |ws| { assert ws[i] - ws[i - 1] >= age; }
    }
  }

  predicate HeldOrLost(c: Config, o: Options, s: State, j: Subject, written: int) {
    written <= s.now && (Lost(c, s, j.token) || Held(c, o, s, j, written + o.lifetime))
  }

  lemma VisitTracks(c: Config, o: Options, s: State, j: Subject, written: int, ops: seq<Op>)
    requires Sliding(o) && HeldOrLost(c, o, s, j, written) && Between(ops, j)
    ensures Writes(c, o, Run(c, s, ops), j.token) ==> Run(c, s, ops).now >= written + o.updateAge
    ensures HeldOrLost(c, o, Access(c, o, Run(c, s, ops), j.token, PLAIN).0, j,
                       if Writes(c, o, Run(c, s, ops), j.token) then Run(c, s, ops).now else written)
  {
    if Lost(c, s, j.token) {
      RunLost(c, s, j, ops);
    } else {
      RunHeld(c, o, s, j, written + o.lifetime, ops);
      AccessTracks(c, o, Run(c, s, ops), j, written);
    }
  }

  /** Over any run of visits, however long the gaps, two writes of the expiry are at least the
      update age apart. */
  lemma {:induction false} WritesAreApart(c: Config, o: Options, s: State, j: Subject, visits: seq<seq<Op>>)
    requires Sliding(o) && Held(c, o, s, j, s.now + o.lifetime)
    requires forall i | 0 <= i < |visits| :: Between(visits[i], j)
    ensures Apart(WriteTimes(c, o, s, j.token, s.now, visits), o.updateAge)
    ensures HeldOrLost(c, o, Visit(c, o, s, j.token, visits), j, Last(WriteTimes(c, o, s, j.token, s.now, visits)))
  {
    if visits != [] {
      var init, ops := visits[..|visits| - 1], visits[|visits| - 1];
      WritesAreApart(c, o, s, j, init);
      var s1 := Visit(c, o, s, j.token, init);
      var ws := WriteTimes(c, o, s, j.token, s.now, init);
      VisitTracks(c, o, s1, j, Last(ws), ops);
      if Writes(c, o, Run(c, s1, ops), j.token) { AppendApart(ws, Run(c, s1, ops).now, o.updateAge); }
    }
  }

  // ----- the slack is needed

  predicate IsNew(o: Options, s: State, j: Subject, session: Session) {
    && Sliding(o) && o.lifetime >= SECOND && !j.profile
    && j.token != "" && j.user != "" && session.userId == j.user && j.user in s.users
    && j.token !in s.rows && j.token !in s.payloads && Unlisted(s, j)
    && session.expiresAt == s.now + o.lifetime
  }

  /** How long a new session lasts if nothing happens: with a database to read, for its lifetime; else
      for the whole seconds of it. */
  lemma NewSessionLasts(c: Config, o: Options, s: State, j: Subject, session: Session, ms: nat)
    requires IsNew(o, s, j, session)
    ensures Access(c, o, Step(c, Create(c, s, j.token, session), TickOp(ms)), j.token, PLAIN).1.Found?
            <==> if c.ReadsDatabase() then ms <= o.lifetime else ms < o.lifetime - o.lifetime % SECOND
  {
    var ends := if c.ReadsDatabase() then o.lifetime else o.lifetime - o.lifetime % SECOND - 1;
    if ms <= ends {
      NewIsFound(c, o, s, j, session, ms);
    } else {
      NewIsGone(c, o, s, j, session, ms);
    }
  }

  lemma NewIsFound(c: Config, o: Options, s: State, j: Subject, session: Session, ms: nat)
    requires IsNew(o, s, j, session)
    requires if c.ReadsDatabase() then ms <= o.lifetime else ms < o.lifetime - o.lifetime % SECOND
    ensures Access(c, o, Step(c, Create(c, s, j.token, session), TickOp(ms)), j.token, PLAIN).1.Found?
  {
    CreateHeld(c, o, s, j, session);
    TickedFound(c, o, Create(c, s, j.token, session), j, s.now + o.lifetime, ms);
  }

  lemma NewIsGone(c: Config, o: Options, s: State, j: Subject, session: Session, ms: nat)
    requires IsNew(o, s, j, session)
    requires if c.ReadsDatabase() then ms > o.lifetime else ms >= o.lifetime - o.lifetime % SECOND
    ensures Access(c, o, Step(c, Create(c, s, j.token, session), TickOp(ms)), j.token, PLAIN).1 == NoSession
  {
    if c.ReadsDatabase() {
      CreateHeld(c, o, s, j, session);
      TickedGone(c, o, Create(c, s, j.token, session), j, s.now + o.lifetime, ms);
    } else {
      NewIsEvicted(c, o, s, j.token, session, ms);
    }
  }

  lemma NewIsEvicted(c: Config, o: Options, s: State, t: string, session: Session, ms: nat)
    requires Sliding(o) && o.lifetime >= SECOND && !c.ReadsDatabase() && t != "" && session.userId != "" && t !in s.rows
    requires session.expiresAt == s.now + o.lifetime && ms >= o.lifetime - o.lifetime % SECOND
    ensures Access(c, o, Step(c, Create(c, s, t, session), TickOp(ms)), t, PLAIN).1 == NoSession
  {
    CreatedCell(c, s, t, session);
    TickedEvicted(c, o, Create(c, s, t, session), t, ms);
  }

  lemma TickedEvicted(c: Config, o: Options, s: State, t: string, ms: nat)
    requires Sliding(o) && !c.ReadsDatabase() && t in s.payloads
    requires s.payloads[t].deadline.At? && s.payloads[t].deadline.ms <= s.now + ms
    ensures Access(c, o, Step(c, s, TickOp(ms)), t, PLAIN).1 == NoSession
  {
  }

  lemma TickedFound(c: Config, o: Options, s: State, j: Subject, e: int, ms: nat)
    requires Sliding(o) && o.lifetime >= SECOND && Held(c, o, s, j, e)
    requires s.now + ms < e - Slack(c, o, j) || (c.ReadsDatabase() && s.now + ms == e)
    ensures Access(c, o, Step(c, s, TickOp(ms)), j.token, PLAIN).1.Found?
  {
    StepHeld(c, o, s, j, e, TickOp(ms));
    AccessHeld(c, o, Step(c, s, TickOp(ms)), j, e);
  }

  lemma TickedGone(c: Config, o: Options, s: State, j: Subject, e: int, ms: nat)
    requires Held(c, o, s, j, e) && s.now + ms > e
    ensures Access(c, o, Step(c, s, TickOp(ms)), j.token, PLAIN).1 == NoSession
  {
    StepHeld(c, o, s, j, e, TickOp(ms));
    FoundIsHeld(c, o, Step(c, s, TickOp(ms)), j, e);
  }

  lemma CreatedCell(c: Config, s: State, t: string, session: Session)
    requires c.secondary && t != "" && session.userId != "" && session.expiresAt - s.now >= SECOND && t !in s.rows
    ensures Create(c, s, t, session).now == s.now && t in Create(c, s, t, session).payloads
    ensures Create(c, s, t, session).payloads[t] ==
              Cell(Payload(session, UserOf(s, session.userId)),
                   At(s.now + (session.expiresAt - s.now) / SECOND * SECOND))
  {
    var s1 := if c.DatabaseStores() then s.(rows := s.rows[t := session]) else s;
    StoreWrites(c, s1, Payload(session, UserOf(s, session.userId)), t, session.userId, session.expiresAt);
  }

  /** A change of the user record a millisecond after the session was created costs the rest of a
      second. */
  lemma ProfileChangeCosts(c: Config, o: Options, s: State, j: Subject, session: Session, user: User)
    requires c.secondary && !c.ReadsDatabase() && Sliding(o) && o.lifetime >= 2 * SECOND && o.lifetime % SECOND == 0
    requires j.token != "" && j.user != "" && session.userId == j.user == user.id && j.user in s.users
    requires Initial(s) && j.token !in s.rows && session.expiresAt == s.now + o.lifetime
    ensures var s1 := Step(c, Create(c, s, j.token, session), TickOp(1));
            var s3 := Step(c, UpdateUser(c, s1, user), TickOp(o.lifetime - SECOND));
            s3.now == s.now + o.lifetime - (SECOND - 1) && Access(c, o, s3, j.token, PLAIN).1 == NoSession
  {
    var s0 := Create(c, s, j.token, session);
    CreatedCell(c, s, j.token, session);
    CreatedList(c, s, j.token, session);
    RewrittenEvicted(c, o, Step(c, s0, TickOp(1)), j.token, session, user, o.lifetime - SECOND);
  }

  lemma RewrittenEvicted(c: Config, o: Options, s: State, t: string, session: Session, user: User, ms: nat)
    requires Sliding(o) && c.secondary && !c.ReadsDatabase() && Load(s, t).Some? && Load(s, t).value.session == session
    requires LoadList(s, user.id) == [Entry(t, session.expiresAt)] && session.expiresAt - s.now >= SECOND
    requires ms >= (session.expiresAt - s.now) / SECOND * SECOND
    ensures Access(c, o, Step(c, UpdateUser(c, s, user), TickOp(ms)), t, PLAIN).1 == NoSession
    ensures Step(c, UpdateUser(c, s, user), TickOp(ms)).now == s.now + ms
  {
    Rewritten(c, s, t, session, user);
    TickedEvicted(c, o, UpdateUser(c, s, user), t, ms);
  }

  /** A change of the user record rewrites the copy for the whole seconds that are left. */
  lemma Rewritten(c: Config, s: State, t: string, session: Session, user: User)
    requires c.secondary && Load(s, t).Some? && Load(s, t).value.session == session
    requires LoadList(s, user.id) == [Entry(t, session.expiresAt)] && session.expiresAt - s.now >= SECOND
    ensures t in UpdateUser(c, s, user).payloads && UpdateUser(c, s, user).now == s.now
    ensures UpdateUser(c, s, user).payloads[t].deadline == At(s.now + (session.expiresAt - s.now) / SECOND * SECOND)
  {
    var s1 := s.(users := s.users[user.id := user]);
    var l := LoadList(s1, user.id);
    assert l == [Entry(t, session.expiresAt)] && l[..0] == [];
    assert Refresh(c, s1, l[..0], user) == s1;
  }

  lemma CreatedList(c: Config, s: State, t: string, session: Session)
    requires c.secondary && t != "" && session.userId != "" && session.expiresAt - s.now >= SECOND
    requires t !in s.rows && Initial(s)
    ensures Create(c, s, t, session).lists ==
              map[session.userId := Cell([Entry(t, session.expiresAt)],
                                         At(s.now + (session.expiresAt - s.now) / SECOND * SECOND))]
    ensures Create(c, s, t, session).now == s.now
  {
    var s1 := if c.DatabaseStores() then s.(rows := s.rows[t := session]) else s;
    StoreFirst(c, s1, Payload(session, UserOf(s, session.userId)), t, session.userId, session.expiresAt);
  }
}
