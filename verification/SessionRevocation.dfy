/** What revoking sessions guarantees, in every configuration and after every history. */
module SessionRevocation {
  import opened Wrappers
  import opened SessionStates
  import opened SessionCoherence

  /** Revoking one token: it is not found afterwards. */
  lemma DeleteRevokes(c: Config, s: State, t: string)
    ensures Find(c, Delete(c, s, t), t).None?
    ensures Gone(c, Delete(c, s, t), t)
  {
  }

  /** Revoking several tokens: none is found afterwards. */
  lemma DeleteManyRevokes(c: Config, s: State, tokens: seq<string>, t: string)
    requires t in tokens
    ensures Find(c, DeleteMany(c, s, tokens), t).None?
  {
    var s' := DeleteMany(c, s, tokens);
    assert c.secondary && Present(s, t) ==> t !in s'.payloads;
    assert Present(s', t) ==> Present(s, t);
  }

  /** Revoking all sessions of a user, after any history: no lookup returns a session of that user
      that has at least one second left, with or without forcing the database. */
  lemma DeleteUserRevokes(c: Config, s0: State, ops: seq<Op>, u: string, force: bool, t: string)
    requires Initial(s0)
    ensures var s' := DeleteUser(c, Run(c, s0, ops), u, force);
            Find(c, s', t).Some? && Find(c, s', t).value.session.userId == u ==>
              Find(c, s', t).value.session.expiresAt - s'.now < SECOND
  {
    var s := Run(c, s0, ops);
    RunCoherent(c, s0, ops);
    var s' := DeleteUser(c, s, u, force);
    if c.secondary && Load(s', t).Some? {
      var session := Load(s', t).value.session;
      assert Present(s, t) && s.payloads[t].value.session == session;
      if session.userId == u && session.expiresAt - s.now >= SECOND {
        ListedTokens(s, t);
      }
    }
  }

  /** Every session of `u` that a lookup would take from the key-value store and that has at least
      one second left is in the user's session list, after any history. */
  lemma ListIsComplete(c: Config, s0: State, ops: seq<Op>, t: string, onlyActive: bool)
    requires Initial(s0) && c.secondary
    requires Load(Run(c, s0, ops), t).Some?
    requires Load(Run(c, s0, ops), t).value.session.expiresAt - Run(c, s0, ops).now >= SECOND
    ensures var s := Run(c, s0, ops);
            var session := Load(s, t).value.session;
            session in List(c, s, session.userId, onlyActive)
  {
    var s := Run(c, s0, ops);
    RunCoherent(c, s0, ops);
    ListedTokens(s, t);
    var session := Load(s, t).value.session;
    var l := LoadList(s, session.userId);
    var i :| 0 <= i < |l| && l[i] == Entry(t, session.expiresAt);
    ListedPrefix(s, l, i, onlyActive);
  }

  lemma {:induction false} ListedPrefix(s: State, l: seq<Entry>, i: nat, onlyActive: bool)
    requires i < |l| && Distinct(l)
    requires l[i].expiresAt > s.now && Load(s, l[i].token).Some?
    requires Load(s, l[i].token).value.session.expiresAt > s.now
    ensures Load(s, l[i].token).value.session in Listed(s, l, onlyActive)
  {
    if i < |l| - 1 {
      ListedPrefix(s, l[..|l| - 1], i, onlyActive);
    }
  }

  // ----- revocation is final

  /** Nothing is left of token `t` where a lookup would see it. */
  predicate Gone(c: Config, s: State, t: string) {
    (c.secondary ==> t !in s.payloads) && (c.ReadsDatabase() ==> t !in s.rows)
  }

  lemma {:induction false} RefreshKeepsGone(c: Config, s: State, l: seq<Entry>, user: User, t: string)
    requires t !in s.payloads
    ensures t !in Refresh(c, s, l, user).payloads && Refresh(c, s, l, user).rows == s.rows
  {
    if l != [] { RefreshKeepsGone(c, s, l[..|l| - 1], user, t); }
  }

  lemma StoreKeepsGone(c: Config, s: State, p: Payload, other: string, u: string, e: int, t: string)
    requires t !in s.payloads && other != t
    ensures t !in StorePayload(c, s, p, other, u, e).payloads
    ensures StorePayload(c, s, p, other, u, e).rows == s.rows
  {
  }

  lemma StepKeepsGone(c: Config, s: State, op: Op, t: string)
    requires Gone(c, s, t) && !(op.CreateOp? && op.token == t)
    ensures Gone(c, Step(c, s, op), t)
  {
    match op
    case CreateOp(x, session) =>
      var s1 := if c.DatabaseStores() then s.(rows := s.rows[x := session]) else s;
      if c.secondary {
        StoreKeepsGone(c, s1, Payload(session, UserOf(s, session.userId)), x, session.userId, session.expiresAt, t);
      }
    case UpdateOp(x, change) =>
      if c.secondary && Load(s, x).Some? {
        var cached := Load(s, x).value;
        var updated := Apply(cached.session, change);
        StoreKeepsGone(c, s, Payload(updated, cached.user), x, updated.userId, updated.expiresAt, t);
      }
    case UpdateUserOp(user) =>
      var s1 := s.(users := s.users[user.id := user]);
      if c.secondary { RefreshKeepsGone(c, s1, LoadList(s1, user.id), user, t); }
    case DeleteOp(_) =>
    case DeleteManyOp(_) =>
    case DeleteUserOp(_, _) =>
    case TickOp(_) =>
  }

  /** A revoked token never comes back: whatever operations follow, short of a session being
      created anew under the same token, it is not found. */
  lemma {:induction false} RevocationIsFinal(c: Config, s: State, t: string, ops: seq<Op>)
    requires forall i | 0 <= i < |ops| :: !(ops[i].CreateOp? && ops[i].token == t)
    ensures Gone(c, Run(c, Delete(c, s, t), ops), t)
    ensures Find(c, Run(c, Delete(c, s, t), ops), t).None?
  {
    if ops == [] {
      DeleteRevokes(c, s, t);
    } else {
      RevocationIsFinal(c, s, t, ops[..|ops| - 1]);
      StepKeepsGone(c, Run(c, Delete(c, s, t), ops[..|ops| - 1]), ops[|ops| - 1], t);
    }
  }

  // ----- the second cannot be improved

  /** What a store does when the user's live list is `[]` or the single line `first`, of another
      token and expiring later. */
  lemma StoreFirst(c: Config, s: State, p: Payload, t: string, u: string, e: int)
    requires c.secondary && t != "" && u != "" && TTL(e, s.now) > 0 && LoadList(s, u) == []
    ensures var s' := StorePayload(c, s, p, t, u, e);
            var d := At(s.now + (e - s.now) / SECOND * SECOND);
            && s'.payloads == s.payloads[t := Cell(p, d)]
            && s'.lists == s.lists[u := Cell([Entry(t, e)], d)]
            && s'.now == s.now && s'.rows == s.rows && s'.users == s.users
  {
    assert [] + [Entry(t, e)] == [Entry(t, e)];
    assert StableSort([Entry(t, e)]) == [Entry(t, e)];
  }

  lemma StoreSecond(c: Config, s: State, p: Payload, t: string, u: string, e: int, first: Entry)
    requires c.secondary && t != "" && u != "" && TTL(e, s.now) > 0
    requires LoadList(s, u) == [first] && first.token != t && first.expiresAt > e
    ensures var s' := StorePayload(c, s, p, t, u, e);
            && s'.payloads == s.payloads[t := Cell(p, At(s.now + (e - s.now) / SECOND * SECOND))]
            && s'.lists == s.lists[u := Cell([Entry(t, e), first],
                                             At(s.now + (first.expiresAt - s.now) / SECOND * SECOND))]
            && s'.now == s.now && s'.rows == s.rows && s'.users == s.users
  {
    assert Keep([first], s.now, t) == [first];
    var two := [first] + [Entry(t, e)];
    assert two[..1] == [first];
    assert StableSort([first]) == [first];
    assert Insert([first], Entry(t, e)) == [Entry(t, e), first];
    assert StableSort(two) == [Entry(t, e), first];
  }

  /** Session a of a user starts; one millisecond later the same user starts a short session b,
      which rewrites the list and floors its TTL; and time moves on until a has 999 ms left. */
  function Narrow(c: Config, s: State, a: Payload, b: Payload): State {
    var s1 := StorePayload(c, s, a, "a", a.session.userId, a.session.expiresAt);
    var s2 := Step(c, s1, TickOp(1));
    var s3 := StorePayload(c, s2, b, "b", b.session.userId, b.session.expiresAt);
    Step(c, s3, TickOp(2000))
  }

  lemma NarrowCells(c: Config, s: State, a: Payload, b: Payload)
    requires c.secondary && Initial(s)
    requires a.session.userId == b.session.userId != ""
    requires a.session.expiresAt == s.now + 3000 && b.session.expiresAt == s.now + 1500
    ensures var s' := Narrow(c, s, a, b);
            && s'.now == s.now + 2001
            && "a" in s'.payloads && s'.payloads["a"] == Cell(a, At(s.now + 3000))
            && a.session.userId in s'.lists && s'.lists[a.session.userId].deadline == At(s.now + 2001)
  {
    var s1 := StorePayload(c, s, a, "a", a.session.userId, a.session.expiresAt);
    StoreFirst(c, s, a, "a", a.session.userId, a.session.expiresAt);
    NarrowSecond(c, Step(c, s1, TickOp(1)), s.now, a, b);
  }

  lemma NarrowSecond(c: Config, s: State, start: int, a: Payload, b: Payload)
    requires c.secondary && s.now == start + 1 && b.session.userId != "" && b.session.expiresAt == start + 1500
    requires s.payloads == map["a" := Cell(a, At(start + 3000))]
    requires s.lists == map[b.session.userId := Cell([Entry("a", start + 3000)], At(start + 3000))]
    ensures var s' := StorePayload(c, s, b, "b", b.session.userId, b.session.expiresAt);
            && s'.now == s.now
            && "a" in s'.payloads && s'.payloads["a"] == Cell(a, At(start + 3000))
            && b.session.userId in s'.lists && s'.lists[b.session.userId].deadline == At(start + 2001)
  {
    StoreSecond(c, s, b, "b", b.session.userId, b.session.expiresAt, Entry("a", start + 3000));
  }

  /** With 999 ms left both guarantees fail on every backend: the session is found, the list of
      its user is already gone, and revoking all sessions of the user misses it. */
  lemma SecondIsTight(c: Config, s: State, a: Payload, b: Payload, force: bool)
    requires c.secondary && Initial(s) && a.user.Some?
    requires a.session.userId == b.session.userId != ""
    requires a.session.expiresAt == s.now + 3000 && b.session.expiresAt == s.now + 1500
    ensures var s' := Narrow(c, s, a, b);
            && Find(c, s', "a") == Some(a) && a.session.expiresAt - s'.now == SECOND - 1
            && List(c, s', a.session.userId, true) == []
            && Find(c, DeleteUser(c, s', a.session.userId, force), "a") == Some(a)
  {
    NarrowCells(c, s, a, b);
    MissedByRevocation(c, Narrow(c, s, a, b), a.session.userId, "a", force);
  }

  /** A session whose user's list is gone escapes revocation of all the user's sessions. */
  lemma MissedByRevocation(c: Config, s: State, u: string, t: string, force: bool)
    requires c.secondary && Load(s, t).Some? && u in s.lists && !Live(s.lists[u].deadline, s.now)
    ensures List(c, s, u, true) == []
    ensures Find(c, DeleteUser(c, s, u, force), t) == Load(s, t)
  {
    assert LoadList(s, u) == [];
  }

  /** Exactly what revoking all sessions of a user misses: the cached sessions of the user that are not on
      the user's live list. */
  lemma MissedIff(c: Config, s: State, u: string, force: bool, t: string)
    ensures var found := Find(c, DeleteUser(c, s, u, force), t);
            found.Some? && found.value.session.userId == u <==>
              c.secondary && Load(s, t).Some? && Load(s, t).value.session.userId == u && t !in TokensOf(LoadList(s, u))
  {
  }
}
