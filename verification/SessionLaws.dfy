/** What one session operation means to whoever looks afterwards: creating, updating and reading a
    session, changing a user record, and listing. */
module SessionLaws {
  import opened Wrappers
  import opened SessionStates
  import opened SessionCoherence
  import opened SessionRefresh

  /** The key-value store takes a session of this token, user and expiry. */
  predicate Storable(s: State, t: string, u: string, expiresAt: int) {
    t != "" && u != "" && expiresAt - s.now >= SECOND
  }

  lemma StoreSkips(c: Config, s: State, p: Payload, t: string, u: string, e: int)
    requires !(c.secondary && Storable(s, t, u, e))
    ensures StorePayload(c, s, p, t, u, e) == s
  {
  }

  lemma StoredIsLoaded(c: Config, s: State, p: Payload, t: string, u: string, e: int)
    requires c.secondary && Storable(s, t, u, e) && p.user.Some?
    ensures Find(c, StorePayload(c, s, p, t, u, e), t) == Some(p)
  {
    StoreWrites(c, s, p, t, u, e);
  }

  /** A created session is found, with the user on record. */
  lemma CreatedIsFound(c: Config, s: State, t: string, session: Session)
    requires !CreateFails(c, s, t) && session.userId in s.users
    requires c.secondary ==>
               Storable(s, t, session.userId, session.expiresAt) || (c.ReadsDatabase() && Load(s, t).None?)
    ensures Find(c, Create(c, s, t, session), t) == Some(Payload(session, Some(s.users[session.userId])))
  {
    var s1 := if c.DatabaseStores() then s.(rows := s.rows[t := session]) else s;
    var p := Payload(session, UserOf(s, session.userId));
    if c.secondary && Storable(s, t, session.userId, session.expiresAt) {
      StoredIsLoaded(c, s1, p, t, session.userId, session.expiresAt);
    } else {
      StoreSkips(c, s1, p, t, session.userId, session.expiresAt);
    }
  }

  /** The expiry after an update. */
  function NewExpiry(session: Session, change: Change): int {
    if change.expiresAt.Some? then change.expiresAt.value else session.expiresAt
  }

  /** `after` is `before` with the changed columns, and nothing else changed. */
  ghost predicate IsChanged(before: Session, change: Change, after: Session) {
    && after.userId == before.userId && after.expiresAt == NewExpiry(before, change)
    && (forall k :: k in after.fields <==> k in before.fields || k in change.fields)
    && (forall k | k in change.fields :: after.fields[k] == change.fields[k])
    && (forall k | k in before.fields && k !in change.fields :: after.fields[k] == before.fields[k])
  }

  /** An updated session is found as it was, with the changed columns and the same user.  That is what the
      caller gets, unless the database holds sessions: then the caller gets its row, changed alike, or nothing
      exactly if there is no row. */
  lemma UpdatedIsFound(c: Config, s: State, t: string, change: Change)
    requires Find(c, s, t).Some?
    requires c.secondary && Load(s, t).Some? ==>
               Storable(s, t, Find(c, s, t).value.session.userId, NewExpiry(Find(c, s, t).value.session, change))
    ensures var before, after := Find(c, s, t).value, Find(c, Update(c, s, t, change), t);
            after.Some? && IsChanged(before.session, change, after.value.session) && after.value.user == before.user
    ensures Updated(c, s, t, change).None? <==> c.DatabaseStores() && t !in s.rows
    ensures !(c.DatabaseStores() && c.secondary && Load(s, t).Some?) && Updated(c, s, t, change).Some? ==>
              Updated(c, s, t, change).value == Find(c, Update(c, s, t, change), t).value.session
    ensures c.DatabaseStores() && t in s.rows ==> IsChanged(s.rows[t], change, Updated(c, s, t, change).value)
  {
    if c.secondary && Load(s, t).Some? {
      var cached := Load(s, t).value;
      var updated := Apply(cached.session, change);
      StoreWrites(c, s, Payload(updated, cached.user), t, updated.userId, updated.expiresAt);
    }
  }

  lemma FindUntouched(c: Config, s: State, s': State, t: string)
    requires Untouched(s, s', t) && s'.users == s.users && (t in s'.rows <==> t in s.rows)
    requires t in s.rows ==> s'.rows[t] == s.rows[t]
    ensures Find(c, s', t) == Find(c, s, t)
  {
  }

  lemma CreateLeaves(c: Config, s: State, x: string, session: Session, t: string)
    requires x != t
    ensures Find(c, Create(c, s, x, session), t) == Find(c, s, t)
  {
    if !CreateFails(c, s, x) {
      var s1 := if c.DatabaseStores() then s.(rows := s.rows[x := session]) else s;
      StoreElsewhere(c, s1, Payload(session, UserOf(s, session.userId)), x, session.userId, session.expiresAt, t);
      FindUntouched(c, s, Create(c, s, x, session), t);
    }
  }

  lemma UpdateLeaves(c: Config, s: State, x: string, change: Change, t: string)
    requires x != t
    ensures Find(c, Update(c, s, x, change), t) == Find(c, s, t)
  {
    if c.secondary && Load(s, x).Some? {
      var cached := Load(s, x).value;
      var updated := Apply(cached.session, change);
      StoreElsewhere(c, s, Payload(updated, cached.user), x, updated.userId, updated.expiresAt, t);
    }
    FindUntouched(c, s, Update(c, s, x, change), t);
  }

  lemma DeleteLeaves(c: Config, s: State, x: string, t: string)
    requires x != t
    ensures Find(c, Delete(c, s, x), t) == Find(c, s, t)
  {
    FindUntouched(c, s, Delete(c, s, x), t);
  }

  lemma DeleteManyLeaves(c: Config, s: State, xs: seq<string>, t: string)
    requires t !in xs
    ensures Find(c, DeleteMany(c, s, xs), t) == Find(c, s, t)
  {
    FindUntouched(c, s, DeleteMany(c, s, xs), t);
  }

  /** The operation is about tokens other than `t`. */
  predicate Elsewhere(op: Op, t: string) {
    match op
    case CreateOp(x, _) => x != t
    case UpdateOp(x, _) => x != t
    case DeleteOp(x) => x != t
    case DeleteManyOp(xs) => t !in xs
    case DeleteUserOp(_, _) => false
    case UpdateUserOp(_) => false
    case TickOp(_) => false
  }

  /** What is done to other tokens does not change what a lookup of this one finds. */
  lemma OthersUnchanged(c: Config, s: State, op: Op, t: string)
    requires Elsewhere(op, t)
    ensures Find(c, Step(c, s, op), t) == Find(c, s, t)
  {
    match op
    case CreateOp(x, session) => CreateLeaves(c, s, x, session, t);
    case UpdateOp(x, change) => UpdateLeaves(c, s, x, change, t);
    case DeleteOp(x) => DeleteLeaves(c, s, x, t);
    case DeleteManyOp(xs) => DeleteManyLeaves(c, s, xs, t);
  }

  /** Revoking a user is not felt by sessions of others: one that is found, and is not on the user's live
      list, stays as it is. */
  lemma OtherUsersUnchanged(c: Config, s: State, u: string, force: bool, t: string)
    requires t !in TokensOf(LoadList(s, u)) && (t in s.rows ==> s.rows[t].userId != u)
    ensures Find(c, DeleteUser(c, s, u, force), t) == Find(c, s, t)
  {
    FindUntouched(c, s, DeleteUser(c, s, u, force), t);
  }

  // ----- a change of the user record

  lemma {:induction false} RefreshGives(c: Config, s: State, l: seq<Entry>, user: User, t: string)
    requires Load(s, t).Some? && Load(s, t).value.session.expiresAt - s.now >= SECOND
    ensures Refresh(c, s, l, user).now == s.now
    ensures Load(Refresh(c, s, l, user), t) ==
              Some(Payload(Load(s, t).value.session,
                           if t in RunningTokens(l, s.now) then Some(user) else Load(s, t).value.user))
  {
    if l != [] {
      var n := |l| - 1;
      RefreshGives(c, s, l[..n], user, t);
      RunningLast(l, s.now);
    }
  }

  lemma RunningLast(l: seq<Entry>, now: int)
    requires l != []
    ensures RunningTokens(l, now) ==
              RunningTokens(l[..|l| - 1], now) + if l[|l| - 1].expiresAt > now then {l[|l| - 1].token} else {}
  {
    var init := l[..|l| - 1];
    assert forall i | 0 <= i < |init| :: init[i] == l[i];
    forall x | x in RunningTokens(init, now) ensures x in RunningTokens(l, now) {
      var i :| 0 <= i < |init| && init[i].expiresAt > now && init[i].token == x;
      assert l[i].token == x;
    }
    forall x | x in RunningTokens(l, now)
      ensures x in RunningTokens(init, now) || (l[|l| - 1].expiresAt > now && x == l[|l| - 1].token)
    {
      var i :| 0 <= i < |l| && l[i].expiresAt > now && l[i].token == x;
      if i < |init| { assert init[i].token == x; }
    }
  }

  /** A cached session keeps its record; its user becomes the new one exactly if it is a running line of
      the user's live list. */
  lemma UserChangeGives(c: Config, s: State, user: User, t: string)
    requires c.secondary && Load(s, t).Some? && Load(s, t).value.session.expiresAt - s.now >= SECOND
    ensures Load(UpdateUser(c, s, user), t) ==
              Some(Payload(Load(s, t).value.session,
                           if t in RunningTokens(LoadList(s, user.id), s.now) then Some(user) else Load(s, t).value.user))
  {
    var s1 := s.(users := s.users[user.id := user]);
    assert LoadList(s1, user.id) == LoadList(s, user.id) && Load(s1, t) == Load(s, t);
    RefreshGives(c, s1, LoadList(s1, user.id), user, t);
  }

  lemma {:induction false} RefreshKeepsRows(c: Config, s: State, l: seq<Entry>, user: User)
    ensures var s' := Refresh(c, s, l, user); s'.rows == s.rows && s'.users == s.users && s'.now == s.now
  {
    if l != [] { RefreshKeepsRows(c, s, l[..|l| - 1], user); }
  }

  /** After any history, a change of a user record reaches every lookup of the user's sessions that have a
      second or more to go. */
  lemma UserChangeReachesAll(c: Config, s0: State, ops: seq<Op>, user: User, t: string)
    requires Initial(s0)
    requires var found := Find(c, Run(c, s0, ops), t);
             found.Some? && found.value.session.userId == user.id &&
             found.value.session.expiresAt - Run(c, s0, ops).now >= SECOND
    ensures var s := Run(c, s0, ops);
            Find(c, UpdateUser(c, s, user), t) == Some(Payload(Find(c, s, t).value.session, Some(user)))
  {
    var s := Run(c, s0, ops);
    if c.secondary && Load(s, t).Some? {
      RunCoherent(c, s0, ops);
      ListedTokens(s, t);
      var session := Load(s, t).value.session;
      assert t in RunningTokens(LoadList(s, user.id), s.now) by {
        var l := LoadList(s, user.id);
        var i :| 0 <= i < |l| && l[i] == Entry(t, session.expiresAt);
        assert l[i].token == t;
      }
      UserChangeGives(c, s, user, t);
    } else {
      RowUser(c, s, user, t);
    }
  }

  lemma RowUser(c: Config, s: State, user: User, t: string)
    requires Find(c, s, t).Some? && Find(c, s, t).value.session.userId == user.id && !(c.secondary && Load(s, t).Some?)
    ensures Find(c, UpdateUser(c, s, user), t) == Some(Payload(Find(c, s, t).value.session, Some(user)))
  {
    var s1 := s.(users := s.users[user.id := user]);
    if c.secondary {
      RefreshKeepsRows(c, s1, LoadList(s1, user.id), user);
      RefreshUnseen(c, s1, LoadList(s1, user.id), user, t);
    }
  }

  lemma {:induction false} RefreshUnseen(c: Config, s: State, l: seq<Entry>, user: User, t: string)
    requires Load(s, t).None?
    ensures Load(Refresh(c, s, l, user), t).None? && Refresh(c, s, l, user).now == s.now
  {
    if l != [] { RefreshUnseen(c, s, l[..|l| - 1], user, t); }
  }

  // ----- listing

  /** The lines `at` of the list, in order, each of another token, running and with its session there. */
  predicate Shows(s: State, l: seq<Entry>, onlyActive: bool, at: seq<nat>, sessions: seq<Session>) {
    && |sessions| == |at|
    && (forall i, j | 0 <= i < j < |at| :: at[i] < at[j])
    && (forall i | 0 <= i < |at| ::
          && at[i] < |l| && l[at[i]].expiresAt > s.now && l[at[i]].token !in RunningTokens(l[..at[i]], s.now)
          && Load(s, l[at[i]].token).Some? && sessions[i] == Load(s, l[at[i]].token).value.session
          && (onlyActive ==> sessions[i].expiresAt > s.now))
  }

  /** The session of `t` is there, and running where only such sessions are asked for. */
  predicate Shown(s: State, t: string, onlyActive: bool) {
    Load(s, t).Some? && (onlyActive ==> Load(s, t).value.session.expiresAt > s.now)
  }

  /** Every running token whose session is to be shown is at one of the lines `at`. */
  predicate ShowsAll(s: State, l: seq<Entry>, onlyActive: bool, at: seq<nat>) {
    && (forall i | 0 <= i < |at| :: at[i] < |l|)
    && (forall t | t in RunningTokens(l, s.now) && Shown(s, t, onlyActive) ::
          exists i :: 0 <= i < |at| && l[at[i]].token == t)
  }

  /** The list shows a running line's session exactly once if the session is there, in the order of the lines,
      and nothing else. */
  lemma {:induction false} ListedShows(s: State, l: seq<Entry>, onlyActive: bool) returns (at: seq<nat>)
    ensures Shows(s, l, onlyActive, at, Listed(s, l, onlyActive)) && ShowsAll(s, l, onlyActive, at)
  {
    at := [];
    if l != [] {
      var n := |l| - 1;
      var before := ListedShows(s, l[..n], onlyActive);
      ShowsMore(s, l, onlyActive, before, Listed(s, l[..n], onlyActive));
      var adds := l[n].expiresAt > s.now && l[n].token !in RunningTokens(l[..n], s.now) && Shown(s, l[n].token, onlyActive);
      at := before + if adds then [n] else [];
      ShowsAllMore(s, l, onlyActive, before, at, adds);
    }
  }

  lemma ShowsAllMore(s: State, l: seq<Entry>, onlyActive: bool, before: seq<nat>, at: seq<nat>, adds: bool)
    requires l != [] && ShowsAll(s, l[..|l| - 1], onlyActive, before)
    requires at == before + if adds then [|l| - 1] else []
    requires adds == (l[|l| - 1].expiresAt > s.now && l[|l| - 1].token !in RunningTokens(l[..|l| - 1], s.now) &&
                     Shown(s, l[|l| - 1].token, onlyActive))
    ensures ShowsAll(s, l, onlyActive, at)
  {
    RunningLast(l, s.now);
    var init := l[..|l| - 1];
    forall t | t in RunningTokens(l, s.now) && Shown(s, t, onlyActive)
      ensures exists i :: 0 <= i < |at| && l[at[i]].token == t
    {
      if t in RunningTokens(init, s.now) {
        var i :| 0 <= i < |before| && init[before[i]].token == t;
        assert at[i] == before[i] && l[at[i]].token == t;
      } else {
        assert at[|before|] == |l| - 1;
      }
    }
  }

  lemma ShowsMore(s: State, l: seq<Entry>, onlyActive: bool, at: seq<nat>, sessions: seq<Session>)
    requires l != [] && Shows(s, l[..|l| - 1], onlyActive, at, sessions)
    ensures Shows(s, l, onlyActive, at, sessions)
  {
    var init := l[..|l| - 1];
    forall i | 0 <= i < |at| ensures init[..at[i]] == l[..at[i]] && init[at[i]] == l[at[i]] {
    }
  }

  lemma UnlistGives(c: Config, s: State, u: string, t: string, e: Entry)
    ensures u in Unlist(c, s, u, t).lists ==>
              (e in Unlist(c, s, u, t).lists[u].value <==> e in LoadList(s, u) && e.expiresAt > s.now && e.token != t)
  {
    var kept := Keep(LoadList(s, u), s.now, t);
    KeepMembers(LoadList(s, u), s.now, t);
    if kept != [] {
      StableSortSorts(kept);
      var l := StableSort(kept);
      PutListGives(c, s, u, l, (l[|l| - 1].expiresAt - s.now) / SECOND);
    }
  }

  lemma PutListGives(c: Config, s: State, u: string, l: seq<Entry>, ttl: int)
    ensures u in PutList(c, s, u, l, ttl).lists ==> PutList(c, s, u, l, ttl).lists[u].value == l
  {
  }

  lemma UnlistSpares(c: Config, s: State, u: string, t: string, v: string)
    requires v != u
    ensures LoadList(Unlist(c, s, u, t), v) == LoadList(s, v)
  {
  }

  /** Deleting a token takes its lines off its user's list and keeps the other running lines, and no other
      list notices. */
  lemma DeletedIsUnlisted(c: Config, s: State, t: string, u: string, e: Entry)
    requires c.secondary && Load(s, t).Some?
    ensures u == Load(s, t).value.session.userId && u in Delete(c, s, t).lists ==>
              (e in Delete(c, s, t).lists[u].value <==> e in LoadList(s, u) && e.expiresAt > s.now && e.token != t)
    ensures u != Load(s, t).value.session.userId ==> LoadList(Delete(c, s, t), u) == LoadList(s, u)
  {
    var owner := Load(s, t).value.session.userId;
    UnlistGives(c, s, owner, t, e);
    if u != owner { UnlistSpares(c, s, owner, t, u); }
    var s0 := Unlist(c, s, owner, t);
    assert Delete(c, s, t).lists == s0.lists && Delete(c, s, t).now == s0.now;
  }

  /** What is cached is found whatever the database holds; and where the database is not read, it never
      matters. */
  lemma CacheDecides(c: Config, s: State, t: string, rows: map<string, Session>, users: map<string, User>)
    requires (c.secondary && Load(s, t).Some?) || !c.ReadsDatabase()
    ensures Find(c, s.(rows := rows, users := users), t) == Find(c, s, t)
  {
  }

  // ----- reading

  /** The request is answered from a session that is there and running. */
  predicate Answered(c: Config, o: Options, s: State, t: string, r: Request) {
    !(r.post && !o.deferRefresh) && Find(c, s, t).Some? && Find(c, s, t).value.session.expiresAt >= s.now
  }

  /** Old enough for a refresh that neither the options nor the request suppress. */
  predicate Wanted(o: Options, session: Session, r: Request, now: int) {
    now - (session.expiresAt - o.lifetime) >= o.updateAge &&
    !(o.disableRefresh || r.disableRefresh || r.skipRefresh || r.dontRemember)
  }

  /** A request that must not refresh, or need not yet, gets the session and changes nothing. */
  lemma QuietRead(c: Config, o: Options, s: State, t: string, r: Request)
    requires Answered(c, o, s, t, r) && !Wanted(o, Find(c, s, t).value.session, r, s.now)
    ensures Access(c, o, s, t, r) == (s, Found(Find(c, s, t).value.session, false))
  {
  }

  /** Where the refresh is deferred, a request that is no POST reports that one is wanted and changes
      nothing. */
  lemma DeferredRead(c: Config, o: Options, s: State, t: string, r: Request)
    requires Answered(c, o, s, t, r) && o.deferRefresh && !r.post
    ensures Access(c, o, s, t, r) ==
              (s, Found(Find(c, s, t).value.session, Wanted(o, Find(c, s, t).value.session, r, s.now)))
  {
  }

  /** A wanted refresh that is not deferred returns a session that expires a lifetime from now, or refuses
      exactly if the database should hold the session and does not. */
  lemma RefreshingRead(c: Config, o: Options, s: State, t: string, r: Request)
    requires Answered(c, o, s, t, r) && Wanted(o, Find(c, s, t).value.session, r, s.now) && (o.deferRefresh ==> r.post)
    ensures Access(c, o, s, t, r).1 == Unauthorized <==> c.DatabaseStores() && t !in s.rows
    ensures Access(c, o, s, t, r).1 != Unauthorized ==>
              && Access(c, o, s, t, r).1.Found? && !Access(c, o, s, t, r).1.needsRefresh
              && Access(c, o, s, t, r).1.session.expiresAt == s.now + o.lifetime
  {
  }

  /** What a lookup finds after a read: the same session, expiring a lifetime from now exactly if a refresh
      was wanted and not deferred, and else when it did. */
  lemma ExpiryAfterRead(c: Config, o: Options, s: State, t: string, r: Request)
    requires Answered(c, o, s, t, r)
    requires c.secondary && Load(s, t).Some? ==>
               t != "" && Load(s, t).value.session.userId != "" && o.lifetime >= SECOND
    ensures var before, after := Find(c, s, t).value, Find(c, Access(c, o, s, t, r).0, t);
            && after.Some? && after.value.session.userId == before.session.userId && after.value.user == before.user
            && after.value.session.expiresAt ==
                 if Wanted(o, before.session, r, s.now) && (o.deferRefresh ==> r.post)
                 then s.now + o.lifetime else before.session.expiresAt
  {
    var session := Find(c, s, t).value.session;
    if Wanted(o, session, r, s.now) && (o.deferRefresh ==> r.post) {
      UpdatedIsFound(c, s, t, Renewal(o, s.now));
    }
  }

  /** A request for a session that is not there, or over, gets none; the token of one that is over is then
      gone, except that a deferred request that is no POST leaves everything as it is. */
  lemma FruitlessRead(c: Config, o: Options, s: State, t: string, r: Request)
    requires !(r.post && !o.deferRefresh)
    requires Find(c, s, t).Some? ==> Find(c, s, t).value.session.expiresAt < s.now
    ensures Access(c, o, s, t, r).1 == NoSession
    ensures Find(c, s, t).None? || (o.deferRefresh && !r.post) ==> Access(c, o, s, t, r).0 == s
    ensures !(o.deferRefresh && !r.post) ==> Find(c, Access(c, o, s, t, r).0, t).None?
  {
  }

  /** A POST is refused where the refresh is not deferred. */
  lemma RefusedRead(c: Config, o: Options, s: State, t: string, r: Request)
    ensures Access(c, o, s, t, r).1 == MethodNotAllowed <==> r.post && !o.deferRefresh
    ensures r.post && !o.deferRefresh ==> Access(c, o, s, t, r).0 == s
  {
  }
}
