/** What every history of session operations keeps. */
module SessionCoherence {
  import opened Wrappers
  import opened SessionStates

  predicate Sorted(l: seq<Entry>) {
    forall i, j | 0 <= i < j < |l| :: l[i].expiresAt <= l[j].expiresAt
  }

  predicate Distinct(l: seq<Entry>) {
    forall i, j | 0 <= i < j < |l| :: l[i].token != l[j].token
  }

  predicate Outlives(d: Deadline, moment: int) {
    d.Never? || moment < d.ms
  }

  /** The list of `u` holds the line (t, e) and stays until less than a second before `e`. */
  predicate InList(s: State, u: string, t: string, e: int) {
    u in s.lists && Entry(t, e) in s.lists[u].value && Outlives(s.lists[u].deadline, e - SECOND)
  }

  predicate ListsInOrder(s: State) {
    forall u | u in s.lists :: Sorted(s.lists[u].value) && Distinct(s.lists[u].value)
  }

  /** Token `t`, if it is cached and at least a second from its expiry, is on its user's list. */
  predicate Indexed(s: State, t: string) {
    Present(s, t) && s.payloads[t].value.session.expiresAt - s.now >= SECOND ==>
      InList(s, s.payloads[t].value.session.userId, t, s.payloads[t].value.session.expiresAt)
  }

  predicate Coherent(s: State) {
    ListsInOrder(s) && forall t | t in s.payloads :: Indexed(s, t)
  }

  // ----- what a write to the store means

  /** A copy that is written can be read back until its TTL is over and no longer, and no other token
      and no list notices. */
  lemma CopyLasts(c: Config, s: State, t: string, p: Payload, ttl: int, ms: nat, x: string)
    requires ttl > 0 && p.user.Some?
    ensures var s' := Step(c, PutPayload(c, s, t, p, ttl), TickOp(ms));
            && Load(s', t) == (if ms < ttl * SECOND then Some(p) else None)
            && (x != t ==> Load(s', x) == Load(Step(c, s, TickOp(ms)), x))
            && LoadList(s', x) == LoadList(Step(c, s, TickOp(ms)), x)
  {
  }

  /** The same for a list. */
  lemma ListLasts(c: Config, s: State, u: string, l: seq<Entry>, ttl: int, ms: nat, x: string)
    requires ttl > 0
    ensures var s' := Step(c, PutList(c, s, u, l, ttl), TickOp(ms));
            && LoadList(s', u) == (if ms < ttl * SECOND then l else [])
            && (x != u ==> LoadList(s', x) == LoadList(Step(c, s, TickOp(ms)), x))
            && Load(s', x) == Load(Step(c, s, TickOp(ms)), x)
  {
  }

  // ----- filtering and sorting

  lemma {:induction false} KeepMembers(l: seq<Entry>, now: int, t: string)
    ensures forall e :: e in Keep(l, now, t) <==> e in l && e.expiresAt > now && e.token != t
  {
    if l != [] {
      KeepMembers(l[..|l| - 1], now, t);
      assert l == l[..|l| - 1] + [l[|l| - 1]];
    }
  }

  lemma {:induction false} KeepDistinct(l: seq<Entry>, now: int, t: string)
    requires Distinct(l)
    ensures Distinct(Keep(l, now, t))
  {
    if l != [] {
      var init := l[..|l| - 1];
      KeepDistinct(init, now, t);
      KeepMembers(init, now, t);
      forall e | e in Keep(init, now, t) ensures e.token != l[|l| - 1].token {
        var i :| 0 <= i < |init| && init[i] == e;
        assert l[i].token != l[|l| - 1].token;
      }
    }
  }

  lemma {:induction false} InsertSorts(l: seq<Entry>, e: Entry)
    requires Sorted(l)
    ensures Sorted(Insert(l, e)) && multiset(Insert(l, e)) == multiset(l) + multiset{e}
  {
    if l == [] || l[|l| - 1].expiresAt <= e.expiresAt {
    } else {
      var init, last := l[..|l| - 1], l[|l| - 1];
      assert l == init + [last];
      InsertSorts(init, e);
      var r := Insert(init, e);
      forall i | 0 <= i < |r| ensures r[i].expiresAt <= last.expiresAt {
        assert r[i] in multiset(r);
        assert r[i] in init || r[i] == e;
      }
    }
  }

  /** The list is sorted by expiry and holds exactly the lines it was given. */
  lemma {:induction false} StableSortSorts(l: seq<Entry>)
    ensures Sorted(StableSort(l)) && multiset(StableSort(l)) == multiset(l)
    ensures forall e :: e in StableSort(l) <==> e in l
  {
    if l != [] {
      StableSortSorts(l[..|l| - 1]);
      InsertSorts(StableSort(l[..|l| - 1]), l[|l| - 1]);
      assert l == l[..|l| - 1] + [l[|l| - 1]];
    }
    forall e ensures e in StableSort(l) <==> e in l {
      assert e in multiset(StableSort(l)) <==> e in StableSort(l);
      assert e in multiset(l) <==> e in l;
    }
  }

  lemma {:induction false} InsertDistinct(l: seq<Entry>, e: Entry)
    requires Distinct(l) && forall x | x in l :: x.token != e.token
    ensures Distinct(Insert(l, e))
    ensures forall x :: x in Insert(l, e) <==> x in l || x == e
  {
    if l == [] || l[|l| - 1].expiresAt <= e.expiresAt {
    } else {
      var init, last := l[..|l| - 1], l[|l| - 1];
      assert l == init + [last];
      InsertDistinct(init, e);
      forall x | x in Insert(init, e) ensures x.token != last.token {
        if x in init {
          var i :| 0 <= i < |init| && init[i] == x;
          assert l[i].token != l[|l| - 1].token;
        }
      }
    }
  }

  lemma {:induction false} StableSortDistinct(l: seq<Entry>)
    requires Distinct(l)
    ensures Distinct(StableSort(l))
  {
    if l != [] {
      StableSortDistinct(l[..|l| - 1]);
      StableSortSorts(l[..|l| - 1]);
      InsertDistinct(StableSort(l[..|l| - 1]), l[|l| - 1]);
    }
  }

  /** The list of `u` as an operation on token `t` rewrites it: expired lines and the lines of `t`
      go, the line of `t` in `extra`, if any, comes in, and the result is sorted again. */
  lemma RewriteMembers(l: seq<Entry>, now: int, t: string, extra: seq<Entry>)
    requires Distinct(l)
    requires |extra| <= 1 && forall e | e in extra :: e.token == t
    ensures var r := StableSort(Keep(l, now, t) + extra);
            && Sorted(r) && Distinct(r)
            && forall e :: e in r <==> (e in l && e.expiresAt > now && e.token != t) || e in extra
  {
    KeepDistinct(l, now, t);
    KeepMembers(l, now, t);
    StableSortSorts(Keep(l, now, t) + extra);
    StableSortDistinct(Keep(l, now, t) + extra);
  }

  /** Writing a sorted list of running lines keeps each visible until less than a second before it
      expires, whatever the backend does with a TTL of zero: then no line is a second away from
      its expiry. */
  lemma PutListIndexes(c: Config, s: State, u: string, l: seq<Entry>, e: Entry)
    requires l != [] && Sorted(l) && e in l
    requires e.expiresAt - s.now >= SECOND
    ensures InList(PutList(c, s, u, l, (l[|l| - 1].expiresAt - s.now) / SECOND), u, e.token, e.expiresAt)
  {
    var i :| 0 <= i < |l| && l[i] == e;
    assert e.expiresAt <= l[|l| - 1].expiresAt;
  }

  lemma PutListInOrder(c: Config, s: State, u: string, l: seq<Entry>, ttl: int)
    requires ListsInOrder(s) && Sorted(l) && Distinct(l)
    ensures ListsInOrder(PutList(c, s, u, l, ttl))
  {
    var s' := PutList(c, s, u, l, ttl);
    forall v | v in s'.lists ensures Sorted(s'.lists[v].value) && Distinct(s'.lists[v].value) {
      if v != u { assert s'.lists[v] == s.lists[v]; }
    }
  }

  /** A list rewrite leaves the sessions of all other tokens indexed. */
  lemma RewriteCoherent(c: Config, s: State, u: string, t: string, l: seq<Entry>, other: string)
    requires Coherent(s) && other != t && other in s.payloads
    requires l != [] && Sorted(l)
    requires forall e | e in LoadList(s, u) && e.expiresAt > s.now && e.token != t :: e in l
    ensures Indexed(PutList(c, s, u, l, (l[|l| - 1].expiresAt - s.now) / SECOND), other)
  {
    var session := s.payloads[other].value.session;
    if Present(s, other) && session.expiresAt - s.now >= SECOND && session.userId == u {
      ListedTokens(s, other);
      PutListIndexes(c, s, u, l, Entry(other, session.expiresAt));
    } else {
      assert Indexed(s, other);
    }
  }

  // ----- every operation keeps coherence

  /** `l` is the list of `u` in order, with the line of `t` and every running line of another token. */
  predicate Relists(s: State, u: string, t: string, e: int, l: seq<Entry>) {
    && Sorted(l) && Distinct(l) && Entry(t, e) in l
    && forall x | x in LoadList(s, u) && x.expiresAt > s.now && x.token != t :: x in l
  }

  lemma RelistIs(s: State, u: string, t: string, e: int)
    requires ListsInOrder(s)
    ensures Relists(s, u, t, e, StableSort(Keep(LoadList(s, u), s.now, t) + [Entry(t, e)]))
  {
    RewriteMembers(LoadList(s, u), s.now, t, [Entry(t, e)]);
    assert [Entry(t, e)][0] in StableSort(Keep(LoadList(s, u), s.now, t) + [Entry(t, e)]);
  }

  lemma StoreCoherent(c: Config, s: State, p: Payload, t: string, u: string, e: int)
    requires Coherent(s) && p.session.userId == u && p.session.expiresAt == e
    ensures Coherent(StorePayload(c, s, p, t, u, e))
  {
    if c.secondary && t != "" && u != "" && TTL(e, s.now) > 0 {
      RelistIs(s, u, t, e);
      StoreListedCoherent(c, s, p, t, u, e, StableSort(Keep(LoadList(s, u), s.now, t) + [Entry(t, e)]));
    }
  }

  lemma StoreListedCoherent(c: Config, s: State, p: Payload, t: string, u: string, e: int, l: seq<Entry>)
    requires Coherent(s) && p.session.userId == u && p.session.expiresAt == e
    requires TTL(e, s.now) > 0 && Relists(s, u, t, e, l)
    ensures Coherent(StoreListed(c, s, p, t, u, e, l))
  {
    var ttl := (l[|l| - 1].expiresAt - s.now) / SECOND;
    PutListInOrder(c, s, u, l, ttl);
    var s' := StoreListed(c, s, p, t, u, e, l);
    forall x | x in s'.payloads ensures Indexed(s', x) {
      StoreListedIndexes(c, s, p, t, u, e, l, x);
    }
    assert ListsInOrder(s');
  }

  /** Both writes of a store take place, and every session is indexed after them. */
  lemma StoreListedIndexes(c: Config, s: State, p: Payload, t: string, u: string, e: int, l: seq<Entry>, x: string)
    requires Coherent(s) && p.session.userId == u && p.session.expiresAt == e
    requires TTL(e, s.now) > 0
    requires Sorted(l) && Entry(t, e) in l
    requires forall x | x in LoadList(s, u) && x.expiresAt > s.now && x.token != t :: x in l
    requires x == t || x in s.payloads
    ensures Indexed(StoreListed(c, s, p, t, u, e, l), x)
  {
    var i :| 0 <= i < |l| && l[i] == Entry(t, e);
    assert l[i].expiresAt <= l[|l| - 1].expiresAt;
    var ttl := (l[|l| - 1].expiresAt - s.now) / SECOND;
    var s1 := PutList(c, s, u, l, ttl);
    if x == t {
      PutListIndexes(c, s, u, l, Entry(t, e));
    } else {
      RewriteCoherent(c, s, u, t, l, x);
      assert Indexed(s1, x);
    }
  }

  lemma UnlistCoherent(c: Config, s: State, u: string, t: string, other: string)
    requires Coherent(s) && other != t && other in s.payloads
    ensures Indexed(Unlist(c, s, u, t), other)
  {
    var kept := Keep(LoadList(s, u), s.now, t);
    KeepMembers(LoadList(s, u), s.now, t);
    if kept != [] {
      StableSortSorts(kept);
      RewriteCoherent(c, s, u, t, StableSort(kept), other);
    } else {
      assert Indexed(s, other);
      if Present(s, other) && s.payloads[other].value.session.expiresAt - s.now >= SECOND {
        ListedTokens(s, other);
      }
    }
  }

  lemma UnlistInOrder(c: Config, s: State, u: string, t: string)
    requires ListsInOrder(s)
    ensures ListsInOrder(Unlist(c, s, u, t))
  {
    var kept := Keep(LoadList(s, u), s.now, t);
    if kept == [] {
      var s' := Unlist(c, s, u, t);
      assert forall v | v in s'.lists :: v in s.lists && s'.lists[v] == s.lists[v];
    } else {
      var l := StableSort(kept);
      assert Sorted(l) && Distinct(l) by {
        assert kept + [] == kept;
        RewriteMembers(LoadList(s, u), s.now, t, []);
      }
      PutListInOrder(c, s, u, l, (l[|l| - 1].expiresAt - s.now) / SECOND);
    }
  }

  lemma DeleteCoherent(c: Config, s: State, t: string)
    requires Coherent(s)
    ensures Coherent(Delete(c, s, t))
  {
    var s' := Delete(c, s, t);
    if c.secondary && Load(s, t).Some? {
      var u := Load(s, t).value.session.userId;
      UnlistInOrder(c, s, u, t);
      forall other | other in s'.payloads ensures Indexed(s', other) {
        UnlistCoherent(c, s, u, t, other);
      }
    } else {
      assert forall other | other in s'.payloads :: Indexed(s, other);
    }
  }

  lemma DeleteUserCoherent(c: Config, s: State, u: string, force: bool)
    requires Coherent(s)
    ensures Coherent(DeleteUser(c, s, u, force))
  {
    if c.secondary {
      var s' := DeleteUser(c, s, u, force);
      forall t | t in s'.payloads ensures Indexed(s', t) {
        assert Indexed(s, t);
        if Present(s, t) && s.payloads[t].value.session.expiresAt - s.now >= SECOND {
          ListedTokens(s, t);
        }
      }
    }
  }

  /** A cached session a second or more from expiry is among the tokens of its user's live list. */
  lemma ListedTokens(s: State, t: string)
    requires Coherent(s) && Present(s, t)
    requires s.payloads[t].value.session.expiresAt - s.now >= SECOND
    ensures Entry(t, s.payloads[t].value.session.expiresAt) in LoadList(s, s.payloads[t].value.session.userId)
    ensures t in TokensOf(LoadList(s, s.payloads[t].value.session.userId))
  {
    assert Indexed(s, t);
    var session := s.payloads[t].value.session;
    var l := LoadList(s, session.userId);
    var i :| 0 <= i < |l| && l[i] == Entry(t, session.expiresAt);
    assert l[i].token == t;
  }

  lemma {:induction false} RefreshCoherent(c: Config, s: State, l: seq<Entry>, user: User)
    requires Coherent(s)
    ensures Coherent(Refresh(c, s, l, user))
    ensures Refresh(c, s, l, user).now == s.now && Refresh(c, s, l, user).lists == s.lists
  {
    if l != [] {
      RefreshCoherent(c, s, l[..|l| - 1], user);
      var s1 := Refresh(c, s, l[..|l| - 1], user);
      var s2 := Refresh(c, s, l, user);
      forall t | t in s2.payloads ensures Indexed(s2, t) {
        if t in s1.payloads { assert Indexed(s1, t); }
      }
    }
  }

  lemma StepCoherent(c: Config, s: State, op: Op)
    requires Coherent(s)
    ensures Coherent(Step(c, s, op))
  {
    match op
    case CreateOp(t, session) =>
      var s1 := if c.DatabaseStores() then s.(rows := s.rows[t := session]) else s;
      assert forall x | x in s1.payloads :: Indexed(s, x);
      StoreCoherent(c, s1, Payload(session, UserOf(s, session.userId)), t, session.userId, session.expiresAt);
    case UpdateOp(t, change) =>
      var s' := Update(c, s, t, change);
      if c.secondary && Load(s, t).Some? {
        var cached := Load(s, t).value;
        var updated := Apply(cached.session, change);
        var s1 := StorePayload(c, s, Payload(updated, cached.user), t, updated.userId, updated.expiresAt);
        StoreCoherent(c, s, Payload(updated, cached.user), t, updated.userId, updated.expiresAt);
        assert forall x | x in s'.payloads :: Indexed(s1, x);
      } else {
        assert forall x | x in s'.payloads :: Indexed(s, x);
      }
    case DeleteOp(t) => DeleteCoherent(c, s, t);
    case DeleteManyOp(tokens) =>
      assert forall x | x in Step(c, s, op).payloads :: Indexed(s, x);
    case DeleteUserOp(u, force) => DeleteUserCoherent(c, s, u, force);
    case UpdateUserOp(user) =>
      var s1 := s.(users := s.users[user.id := user]);
      assert forall x | x in s1.payloads :: Indexed(s, x);
      if c.secondary { RefreshCoherent(c, s1, LoadList(s1, user.id), user); }
    case TickOp(ms) =>
      assert forall x | x in Step(c, s, op).payloads :: Indexed(s, x);
  }

  /** Every reachable state is coherent: lists are sorted and free of duplicate tokens, and every
      cached session at least a second from its expiry is on its user's live list. */
  lemma {:induction false} RunCoherent(c: Config, s: State, ops: seq<Op>)
    requires Initial(s)
    ensures Coherent(Run(c, s, ops))
  {
    if ops != [] {
      RunCoherent(c, s, ops[..|ops| - 1]);
      StepCoherent(c, Run(c, s, ops[..|ops| - 1]), ops[|ops| - 1]);
    }
  }
}
