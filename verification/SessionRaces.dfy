/** Session operations that overlap (core/secondary_storage.go): an update and a change of a user record
    read the cached session before they write it, and a deletion removes the copy before the row.
    Anything may happen in between. */
module SessionRaces {
  import opened Wrappers
  import opened SessionStates
  import opened SessionRevocation
  import opened SessionRefresh

  /** What a caller is about to do. `since` is when a change of a user record began, from which it
      counts the TTL. */
  datatype Flight =
    | Updating(token: string, change: Change, loaded: Option<Payload>)
    | Rewriting(token: string, user: User, payload: Payload, since: int)
    | RemovingRow(token: string)

  datatype Race = Race(s: State, flights: map<nat, Flight>)

  datatype Action =
    | Do(op: Op)
    | LoadForUpdate(id: nat, token: string, change: Change)
    | LoadForRewrite(id: nat, token: string, user: User, since: int)
    | RemoveCopy(id: nat, token: string)
    | Finish(id: nat)

  predicate Enabled(c: Config, r: Race, a: Action) {
    match a
    case Do(_) => true
    case LoadForUpdate(id, _, _) => id !in r.flights
    case LoadForRewrite(id, t, _, since) =>
      id !in r.flights && c.secondary && Load(r.s, t).Some? && since <= r.s.now
    case RemoveCopy(id, _) => id !in r.flights
    case Finish(id) => id in r.flights
  }

  /** The write that ends a flight. */
  function Land(c: Config, s: State, f: Flight): State {
    match f
    case Updating(t, change, loaded) =>
      var s1 :=
        if loaded.None? then s
        else
          var updated := SessionStates.Apply(loaded.value.session, change);
          StorePayload(c, s, Payload(updated, loaded.value.user), t, updated.userId, updated.expiresAt);
      if c.DatabaseStores() && t in s.rows
      then s1.(rows := s.rows[t := SessionStates.Apply(s.rows[t], change)]) else s1
    case Rewriting(t, user, p, since) =>
      PutPayload(c, s, t, Payload(p.session, Some(user)), TTL(p.session.expiresAt, since))
    case RemovingRow(t) =>
      if c.DatabaseStores() && !c.Preserves() then s.(rows := s.rows - {t}) else s
  }

  function Apply(c: Config, r: Race, a: Action): Race
    requires Enabled(c, r, a)
  {
    match a
    case Do(op) => r.(s := Step(c, r.s, op))
    case LoadForUpdate(id, t, change) =>
      r.(flights := r.flights[id := Updating(t, change, if c.secondary then Load(r.s, t) else None)])
    case LoadForRewrite(id, t, user, since) =>
      r.(flights := r.flights[id := Rewriting(t, user, Load(r.s, t).value, since)])
    case RemoveCopy(id, t) =>
      Race(if c.secondary then r.s.(payloads := r.s.payloads - {t}) else r.s, r.flights[id := RemovingRow(t)])
    case Finish(id) => Race(Land(c, r.s, r.flights[id]), r.flights - {id})
  }

  function Exec(c: Config, r: Race, schedule: seq<Action>): Option<Race> {
    if schedule == [] then Some(r)
    else
      match Exec(c, r, schedule[..|schedule| - 1])
      case None => None
      case Some(r1) => if Enabled(c, r1, schedule[|schedule| - 1]) then Some(Apply(c, r1, schedule[|schedule| - 1])) else None
  }

  lemma ExecOne(c: Config, r: Race, a: Action)
    ensures Exec(c, r, [a]) == if Enabled(c, r, a) then Some(Apply(c, r, a)) else None
  {
    assert [a][..0] == [];
  }

  lemma ExecLast(c: Config, r: Race, schedule: seq<Action>, a: Action)
    requires Exec(c, r, schedule).Some? && Enabled(c, Exec(c, r, schedule).value, a)
    ensures Exec(c, r, schedule + [a]) == Some(Apply(c, Exec(c, r, schedule).value, a))
  {
    assert (schedule + [a])[..|schedule|] == schedule;
  }

  /** No lookup sees the token. */
  predicate Unseen(c: Config, s: State, t: string) {
    (c.secondary ==> !Present(s, t)) && (c.ReadsDatabase() ==> t !in s.rows)
  }

  /** A write with no TTL that the backend keeps readable at some time from now on. */
  ghost predicate ZeroIsKept(c: Config, t: string, now: int) {
    exists at :: now <= at && KeptAt(c, t, at)
  }

  predicate KeptAt(c: Config, t: string, now: int) {
    var z := c.zero(TokenKey(t), now);
    z.Kept? && Live(z.deadline, now)
  }

  /** The flight has the session of `t` in hand, and its write would make it visible. */
  ghost predicate Revives(c: Config, f: Flight, t: string, now: int) {
    match f
    case Updating(x, change, loaded) =>
      x == t && t != "" && loaded.Some? && loaded.value.session.userId != "" && c.secondary &&
      TTL(SessionStates.Apply(loaded.value.session, change).expiresAt, now) > 0
    case Rewriting(x, _, p, since) =>
      x == t && c.secondary && (TTL(p.session.expiresAt, since) > 0 || ZeroIsKept(c, t, now))
    case RemovingRow(_) => false
  }

  ghost predicate NoneRevives(c: Config, r: Race, t: string) {
    forall id | id in r.flights :: !Revives(c, r.flights[id], t, r.s.now)
  }

  predicate Creates(a: Action, t: string) {
    a.Do? && a.op.CreateOp? && a.op.token == t
  }

  predicate NoCreate(schedule: seq<Action>, t: string) {
    forall i | 0 <= i < |schedule| :: !Creates(schedule[i], t)
  }

  /** What every flight in hand came from. */
  predicate Loaded(c: Config, f: Flight) {
    match f
    case Updating(_, _, loaded) => loaded.Some? ==> c.secondary && loaded.value.user.Some?
    case Rewriting(_, _, _, _) => c.secondary
    case RemovingRow(_) => true
  }

  predicate AllLoaded(c: Config, r: Race) {
    forall id | id in r.flights :: Loaded(c, r.flights[id])
  }

  // ----- nothing brings it back

  lemma StepUnseen(c: Config, s: State, op: Op, t: string)
    requires Unseen(c, s, t) && !(op.CreateOp? && op.token == t)
    ensures Unseen(c, Step(c, s, op), t) && Step(c, s, op).now >= s.now
  {
    match op
    case CreateOp(x, session) =>
      var s1 := if c.DatabaseStores() then s.(rows := s.rows[x := session]) else s;
      StoreElsewhere(c, s1, Payload(session, UserOf(s, session.userId)), x, session.userId, session.expiresAt, t);
    case UpdateOp(x, change) => UpdateUnseen(c, s, x, change, t);
    case DeleteOp(_) =>
    case DeleteManyOp(_) =>
    case DeleteUserOp(_, _) =>
    case UpdateUserOp(user) =>
      var s1 := s.(users := s.users[user.id := user]);
      if c.secondary { RefreshLost(c, s1, LoadList(s1, user.id), user, t); }
    case TickOp(_) =>
  }

  lemma UpdateUnseen(c: Config, s: State, x: string, change: Change, t: string)
    requires Unseen(c, s, t)
    ensures Unseen(c, Update(c, s, x, change), t) && Update(c, s, x, change).now == s.now
  {
    if c.secondary && Load(s, x).Some? {
      var cached := Load(s, x).value;
      var updated := SessionStates.Apply(cached.session, change);
      StoreElsewhere(c, s, Payload(updated, cached.user), x, updated.userId, updated.expiresAt, t);
    }
  }

  lemma LandUnseen(c: Config, s: State, f: Flight, t: string)
    requires Unseen(c, s, t) && !Revives(c, f, t, s.now) && Loaded(c, f)
    ensures Unseen(c, Land(c, s, f), t) && Land(c, s, f).now == s.now
  {
    match f
    case Updating(x, change, loaded) => if loaded.Some? { UpdateLands(c, s, x, change, loaded.value, t); }
    case Rewriting(x, _, p, since) =>
      if x == t && TTL(p.session.expiresAt, since) <= 0 { assert !KeptAt(c, t, s.now); }
    case RemovingRow(_) =>
  }

  lemma UpdateLands(c: Config, s: State, x: string, change: Change, p: Payload, t: string)
    requires Unseen(c, s, t) && c.secondary && !Revives(c, Updating(x, change, Some(p)), t, s.now)
    ensures Unseen(c, Land(c, s, Updating(x, change, Some(p))), t)
    ensures Land(c, s, Updating(x, change, Some(p))).now == s.now
  {
    var updated := SessionStates.Apply(p.session, change);
    if x != t {
      StoreElsewhere(c, s, Payload(updated, p.user), x, updated.userId, updated.expiresAt, t);
    } else {
      assert StorePayload(c, s, Payload(updated, p.user), x, updated.userId, updated.expiresAt) == s;
    }
  }

  lemma RevivesEarlier(c: Config, f: Flight, t: string, now: int, later: int)
    requires now <= later && Revives(c, f, t, later)
    ensures Revives(c, f, t, now)
  {
    match f
    case Updating(_, _, _) =>
    case Rewriting(_, _, p, since) =>
      if TTL(p.session.expiresAt, since) <= 0 {
        var at :| later <= at && KeptAt(c, t, at);
        assert now <= at;
      }
  }

  lemma StepSafe(c: Config, r: Race, a: Action, t: string)
    requires Unseen(c, r.s, t) && NoneRevives(c, r, t) && AllLoaded(c, r) && Enabled(c, r, a) && !Creates(a, t)
    ensures Unseen(c, Apply(c, r, a).s, t) && NoneRevives(c, Apply(c, r, a), t) && AllLoaded(c, Apply(c, r, a))
  {
    var r' := Apply(c, r, a);
    match a {
      case Do(op) => StepUnseen(c, r.s, op, t);
      case LoadForUpdate(_, _, _) =>
      case LoadForRewrite(_, _, _, _) =>
      case RemoveCopy(_, _) =>
      case Finish(id) => LandUnseen(c, r.s, r.flights[id], t);
    }
    assert NoneRevives(c, r', t) by {
      forall id | id in r'.flights ensures !Revives(c, r'.flights[id], t, r'.s.now) {
        if id in r.flights && r'.flights[id] == r.flights[id] && Revives(c, r'.flights[id], t, r'.s.now) {
          RevivesEarlier(c, r.flights[id], t, r.s.now, r'.s.now);
        }
      }
    }
  }

  lemma {:induction false} ExecSafe(c: Config, r: Race, schedule: seq<Action>, t: string)
    requires Unseen(c, r.s, t) && NoneRevives(c, r, t) && AllLoaded(c, r) && NoCreate(schedule, t)
    requires Exec(c, r, schedule).Some?
    ensures var r' := Exec(c, r, schedule).value;
            Unseen(c, r'.s, t) && NoneRevives(c, r', t) && AllLoaded(c, r')
  {
    if schedule != [] {
      var n := |schedule| - 1;
      ExecSafe(c, r, schedule[..n], t);
      StepSafe(c, Exec(c, r, schedule[..n]).value, schedule[n], t);
    }
  }

  // ----- unless it was in hand

  lemma UpdateRevives(c: Config, r: Race, id: nat, t: string)
    requires id in r.flights && r.flights[id].Updating? && Loaded(c, r.flights[id])
    requires Revives(c, r.flights[id], t, r.s.now)
    ensures Exec(c, r, [Finish(id)]).Some? && Find(c, Exec(c, r, [Finish(id)]).value.s, t).Some?
  {
    var f := r.flights[id];
    var updated := SessionStates.Apply(f.loaded.value.session, f.change);
    StoreWrites(c, r.s, Payload(updated, f.loaded.value.user), t, updated.userId, updated.expiresAt);
    ExecOne(c, r, Finish(id));
  }

  lemma RewriteRevives(c: Config, r: Race, id: nat, t: string) returns (ms: nat)
    requires id in r.flights && r.flights[id].Rewriting? && Revives(c, r.flights[id], t, r.s.now)
    ensures var schedule := [Do(TickOp(ms)), Finish(id)];
            Exec(c, r, schedule).Some? && Find(c, Exec(c, r, schedule).value.s, t).Some?
  {
    var f := r.flights[id];
    ms := 0;
    if TTL(f.payload.session.expiresAt, f.since) <= 0 {
      var at :| r.s.now <= at && KeptAt(c, t, at);
      ms := at - r.s.now;
    }
    ExecOne(c, r, Do(TickOp(ms)));
    ExecLast(c, r, [Do(TickOp(ms))], Finish(id));
    assert [Do(TickOp(ms))] + [Finish(id)] == [Do(TickOp(ms)), Finish(id)];
  }

  /** A token that no lookup sees stays unseen, whatever overlaps, exactly if no flight that could make
      it visible has it in hand. */
  lemma FinalIff(c: Config, r: Race, t: string)
    requires Unseen(c, r.s, t) && AllLoaded(c, r)
    ensures (forall schedule | NoCreate(schedule, t) && Exec(c, r, schedule).Some? ::
               Find(c, Exec(c, r, schedule).value.s, t).None?) <==> NoneRevives(c, r, t)
  {
    if NoneRevives(c, r, t) {
      forall schedule | NoCreate(schedule, t) && Exec(c, r, schedule).Some?
        ensures Find(c, Exec(c, r, schedule).value.s, t).None?
      {
        ExecSafe(c, r, schedule, t);
      }
    } else {
      var id :| id in r.flights && Revives(c, r.flights[id], t, r.s.now);
      var schedule: seq<Action>;
      if r.flights[id].Updating? {
        UpdateRevives(c, r, id, t);
        schedule := [Finish(id)];
      } else {
        var ms := RewriteRevives(c, r, id, t);
        schedule := [Do(TickOp(ms)), Finish(id)];
      }
      assert NoCreate(schedule, t) && Exec(c, r, schedule).Some?;
      assert Find(c, Exec(c, r, schedule).value.s, t).Some?;
    }
  }

  lemma {:induction false} ExecLoaded(c: Config, s: State, schedule: seq<Action>)
    requires Exec(c, Race(s, map[]), schedule).Some?
    ensures AllLoaded(c, Exec(c, Race(s, map[]), schedule).value)
  {
    if schedule != [] { ExecLoaded(c, s, schedule[..|schedule| - 1]); }
  }

  /** After any history of overlapping operations, revoking a token is final exactly if no update and no
      change of a user record has it in hand that could still write it back. */
  lemma RevocationIsFinalIff(c: Config, s: State, before: seq<Action>, t: string)
    requires Exec(c, Race(s, map[]), before).Some?
    ensures var r := Apply(c, Exec(c, Race(s, map[]), before).value, Do(DeleteOp(t)));
            (forall schedule | NoCreate(schedule, t) && Exec(c, r, schedule).Some? ::
               Find(c, Exec(c, r, schedule).value.s, t).None?) <==> NoneRevives(c, r, t)
  {
    var r := Exec(c, Race(s, map[]), before).value;
    ExecLoaded(c, s, before);
    DeleteRevokes(c, r.s, t);
    FinalIff(c, Apply(c, r, Do(DeleteOp(t))), t);
  }

  /** An update that has read the session before it is revoked, and writes after, brings it back. */
  lemma RevokedComesBack(c: Config, s: State, t: string, change: Change)
    requires c.secondary && t != "" && Load(s, t).Some? && Load(s, t).value.session.userId != ""
    requires SessionStates.Apply(Load(s, t).value.session, change).expiresAt - s.now >= SECOND
    ensures var schedule := [LoadForUpdate(0, t, change), Do(DeleteOp(t)), Finish(0)];
            var revoked := Exec(c, Race(s, map[]), schedule[..2]);
            var after := Exec(c, Race(s, map[]), schedule);
            && revoked.Some? && Find(c, revoked.value.s, t).None?
            && after.Some? && Find(c, after.value.s, t).Some?
  {
    var load, delete := LoadForUpdate(0, t, change), Do(DeleteOp(t));
    var start := Race(s, map[]);
    ExecOne(c, start, load);
    ExecLast(c, start, [load], delete);
    var r := Exec(c, start, [load] + [delete]).value;
    DeleteKeepsNow(c, s, t);
    UpdateRevives(c, r, 0, t);
    ExecOne(c, r, Finish(0));
    ExecLast(c, start, [load] + [delete], Finish(0));
    var schedule := [load, delete, Finish(0)];
    assert schedule[..2] == [load] + [delete] && schedule == [load] + [delete] + [Finish(0)];
  }

  lemma DeleteKeepsNow(c: Config, s: State, t: string)
    ensures Delete(c, s, t).now == s.now && Find(c, Delete(c, s, t), t).None?
  {
  }
}
