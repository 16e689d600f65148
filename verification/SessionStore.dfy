/** The code of core/secondary_storage.go as it runs: an object whose methods update the key-value
    store and the session table in place.  Each is proved to have the effect that `SessionStates`
    gives the operation of the same name, so every property of runs there is one of this object. */
module SessionStore {
  import opened Wrappers
  import opened SessionStates

  class Store {
    const config: Config
    var now: int
    var payloads: map<string, Cell<Payload>>
    var lists: map<string, Cell<seq<Entry>>>
    var rows: map<string, Session>
    var users: map<string, User>

    constructor (config: Config, now: int)
      ensures this.config == config && View() == State(now, map[], map[], map[], map[])
    {
      this.config := config;
      this.now := now;
      payloads, lists, rows, users := map[], map[], map[], map[];
    }

    function View(): State
      reads this
    {
      State(now, payloads, lists, rows, users)
    }

    // ----- the backend

    method SetPayload(t: string, p: Payload, ttl: int)
      modifies this`payloads
      ensures View() == PutPayload(config, old(View()), t, p, ttl)
    {
      payloads := Put(config, payloads, TokenKey(t), t, p, ttl, now);
    }

    method SetList(u: string, l: seq<Entry>, ttl: int)
      modifies this`lists
      ensures View() == PutList(config, old(View()), u, l, ttl)
    {
      lists := Put(config, lists, ListKey(u), u, l, ttl, now);
    }

    // ----- operations

    method FilterList(u: string, t: string) returns (kept: seq<Entry>)
      ensures kept == Keep(LoadList(View(), u), now, t)
    {
      var list := LoadList(View(), u);
      kept := [];
      for i := 0 to |list|
        invariant kept == Keep(list[..i], now, t)
      {
        assert list[..i + 1][..i] == list[..i];
        if list[i].expiresAt > now && list[i].token != t {
          kept := kept + [list[i]];
        }
      }
      assert list[..|list|] == list;
    }

    method StoreSecondarySessionPayload(p: Payload, t: string, u: string, expiresAt: int)
      modifies this`payloads, this`lists
      ensures View() == StorePayload(config, old(View()), p, t, u, expiresAt)
    {
      if !config.secondary || t == "" || u == "" {
        return;
      }
      var ttl := TTL(expiresAt, now);
      if ttl <= 0 {
        return;
      }
      var filtered := FilterList(u, t);
      filtered := StableSort(filtered + [Entry(t, expiresAt)]);
      var listTTL := (filtered[|filtered| - 1].expiresAt - now) / SECOND;
      if listTTL > 0 {
        SetList(u, filtered, listTTL);
      }
      SetPayload(t, p, ttl);
    }

    method CreateSession(t: string, session: Session) returns (ok: bool)
      modifies this`payloads, this`lists, this`rows
      ensures ok == !CreateFails(config, old(View()), t)
      ensures View() == Create(config, old(View()), t, session)
    {
      if config.DatabaseStores() {
        if t in rows {
          return false;
        }
        rows := rows[t := session];
      }
      if config.secondary {
        StoreSecondarySessionPayload(
          Payload(session, UserOf(View(), session.userId)), t, session.userId, session.expiresAt);
      }
      return true;
    }

    method FindStoredSession(t: string) returns (found: Option<Payload>)
      ensures found == Find(config, View(), t)
    {
      if config.secondary {
        var cached := Load(View(), t);
        if cached.Some? {
          return cached;
        }
        if !config.storeInDatabase || config.preserve {
          return None;
        }
      }
      if t !in rows || rows[t].userId !in users {
        return None;
      }
      return Some(Payload(rows[t], Some(users[rows[t].userId])));
    }

    method ListSecondarySessions(u: string, onlyActive: bool) returns (result: seq<Session>)
      ensures result == List(config, View(), u, onlyActive)
    {
      if !config.secondary {
        return [];
      }
      var list := LoadList(View(), u);
      var seen := {};
      result := [];
      for i := 0 to |list|
        invariant seen == RunningTokens(list[..i], now)
        invariant result == Listed(View(), list[..i], onlyActive)
      {
        var entry := list[i];
        assert list[..i + 1][..i] == list[..i];
        if entry.expiresAt > now {
          assert RunningTokens(list[..i + 1], now) == RunningTokens(list[..i], now) + {entry.token};
          if entry.token !in seen {
            seen := seen + {entry.token};
            var stored := Load(View(), entry.token);
            if stored.Some? && (onlyActive ==> stored.value.session.expiresAt > now) {
              result := result + [stored.value.session];
            }
          }
        } else {
          assert RunningTokens(list[..i + 1], now) == RunningTokens(list[..i], now);
        }
      }
      assert list[..|list|] == list;
    }

    method UpdateStoredSession(t: string, change: Change) returns (updated: Option<Session>)
      modifies this`payloads, this`lists, this`rows
      ensures updated == Updated(config, old(View()), t, change)
      ensures View() == Update(config, old(View()), t, change)
    {
      updated := None;
      if config.secondary {
        var cached := Load(View(), t);
        if cached.Some? {
          var merged := Apply(cached.value.session, change);
          updated := Some(merged);
          StoreSecondarySessionPayload(Payload(merged, cached.value.user), t, merged.userId, merged.expiresAt);
        }
      }
      if config.DatabaseStores() {
        if t !in rows {
          return None;
        }
        rows := rows[t := Apply(rows[t], change)];
        return Some(rows[t]);
      }
    }

    method DeleteStoredSession(t: string)
      modifies this`payloads, this`lists, this`rows
      ensures View() == Delete(config, old(View()), t)
    {
      if config.secondary {
        var cached := Load(View(), t);
        if cached.Some? {
          var u := cached.value.session.userId;
          var filtered := FilterList(u, t);
          if |filtered| == 0 {
            lists := lists - {u};
          } else {
            filtered := StableSort(filtered);
            SetList(u, filtered, (filtered[|filtered| - 1].expiresAt - now) / SECOND);
          }
        }
        payloads := payloads - {t};
      }
      if config.DatabaseStores() && !config.Preserves() {
        rows := rows - {t};
      }
    }

    method DeleteStoredSessions(tokens: seq<string>)
      modifies this`payloads, this`rows
      ensures View() == DeleteMany(config, old(View()), tokens)
    {
      if |tokens| == 0 {
        assert (set t | t in tokens && Present(View(), t)) == {};
        assert payloads - {} == payloads && rows - {} == rows;
        return;
      }
      if config.secondary {
        for i := 0 to |tokens|
          invariant payloads == old(payloads) - (set t | t in tokens[..i] && Present(old(View()), t))
          invariant rows == old(rows)
        {
          if Present(View(), tokens[i]) {
            payloads := payloads - {tokens[i]};
          }
          assert tokens[..i + 1] == tokens[..i] + [tokens[i]];
        }
        assert tokens[..|tokens|] == tokens;
      }
      if config.DatabaseStores() && !config.Preserves() {
        rows := rows - (set t | t in tokens);
      }
    }

    method DeleteSecondaryUserSessions(u: string)
      modifies this`payloads, this`lists
      ensures payloads == if config.secondary then old(payloads) - TokensOf(LoadList(old(View()), u)) else old(payloads)
      ensures lists == if config.secondary then old(lists) - {u} else old(lists)
    {
      if !config.secondary { return; }
      var list := LoadList(View(), u);
      for i := 0 to |list|
        invariant payloads == old(payloads) - TokensOf(list[..i])
        invariant lists == old(lists)
      {
        payloads := payloads - {list[i].token};
        assert TokensOf(list[..i + 1]) == TokensOf(list[..i]) + {list[i].token};
      }
      assert list[..|list|] == list;
      lists := lists - {u};
    }

    method DeleteStoredUserSessions(u: string, force: bool)
      modifies this`payloads, this`lists, this`rows
      ensures View() == DeleteUser(config, old(View()), u, force)
    {
      DeleteSecondaryUserSessions(u);
      if config.DatabaseStores() && (force || !config.Preserves()) {
        rows := WithoutUser(rows, u);
      }
    }

    method UpdateUserRecord(user: User)
      modifies this`payloads, this`users
      ensures View() == UpdateUser(config, old(View()), user)
    {
      users := users[user.id := user];
      if !config.secondary {
        return;
      }
      ghost var start := View();
      var list := LoadList(View(), user.id);
      for i := 0 to |list|
        invariant users == start.users
        invariant View() == Refresh(config, start, list[..i], user)
      {
        assert list[..i + 1][..i] == list[..i];
        var entry := list[i];
        if entry.expiresAt > now {
          var cached := Load(View(), entry.token);
          if cached.Some? {
            SetPayload(entry.token, Payload(cached.value.session, Some(user)),
                       TTL(cached.value.session.expiresAt, now));
          }
        }
      }
      assert list[..|list|] == list;
    }

    method Advance(ms: nat)
      modifies this`now
      ensures View() == Step(config, old(View()), TickOp(ms))
    {
      now := now + ms;
    }
  }
}
