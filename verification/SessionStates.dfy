/** The session store of core/secondary_storage.go: one payload per token and one active-session
    list per user in a TTL key-value store, with an optional database table behind it.

    `State` and the functions on it say what every operation does to the store.  The class
    `SessionStore` is the code: its methods read, filter, sort and rewrite the store in loops and
    are proved to have exactly those effects. */
module SessionStates {
  import opened Wrappers

  const SECOND := 1000  // milliseconds

  /** One line of a user's active-session list. */
  datatype Entry = Entry(token: string, expiresAt: int)

  /** A session record; `fields` are the columns the store never looks at. */
  datatype Session = Session(userId: string, expiresAt: int, fields: map<string, string>)

  /** A user record; only its identity matters to the store. */
  datatype User = User(id: string, fields: map<string, string>)

  /** The value kept under a token.  A payload whose user is missing does not decode. */
  datatype Payload = Payload(session: Session, user: Option<User>)

  datatype Deadline = Never | At(ms: int)

  datatype Cell<V> = Cell(value: V, deadline: Deadline)

  datatype Key = TokenKey(token: string) | ListKey(userId: string)

  /** What a backend does with a time-to-live of zero is its own affair: it may drop the key or
      keep the value until any moment, or for ever. */
  datatype ZeroTTL = Dropped | Kept(deadline: Deadline)

  datatype Config = Config(
    secondary: bool,
    storeInDatabase: bool,
    preserve: bool,
    zero: (Key, int) -> ZeroTTL)
  {
    predicate DatabaseStores() { !secondary || storeInDatabase }

    predicate Preserves() { secondary && preserve }

    /** Whether a lookup that misses the key-value store goes on to the database. */
    predicate ReadsDatabase() { !secondary || (storeInDatabase && !preserve) }
  }

  datatype State = State(
    now: int,
    payloads: map<string, Cell<Payload>>,
    lists: map<string, Cell<seq<Entry>>>,
    rows: map<string, Session>,
    users: map<string, User>)

  predicate Live(d: Deadline, now: int) {
    d.Never? || now < d.ms
  }

  /** Whole seconds from `now` to `expiresAt`, never negative. */
  function TTL(expiresAt: int, now: int): int {
    if expiresAt - now <= 0 then 0 else (expiresAt - now) / SECOND
  }

  function Put<V>(c: Config, m: map<string, Cell<V>>, key: Key, name: string, v: V, ttl: int, now: int)
    : map<string, Cell<V>>
  {
    if ttl > 0 then m[name := Cell(v, At(now + ttl * SECOND))]
    else match c.zero(key, now)
      case Dropped => m - {name}
      case Kept(d) => m[name := Cell(v, d)]
  }

  function PutPayload(c: Config, s: State, t: string, p: Payload, ttl: int): State {
    s.(payloads := Put(c, s.payloads, TokenKey(t), t, p, ttl, s.now))
  }

  function PutList(c: Config, s: State, u: string, l: seq<Entry>, ttl: int): State {
    s.(lists := Put(c, s.lists, ListKey(u), u, l, ttl, s.now))
  }

  /** The raw value under a token is present. */
  predicate Present(s: State, t: string) {
    t in s.payloads && Live(s.payloads[t].deadline, s.now)
  }

  function Load(s: State, t: string): Option<Payload> {
    if Present(s, t) && s.payloads[t].value.user.Some? then Some(s.payloads[t].value) else None
  }

  function LoadList(s: State, u: string): seq<Entry> {
    if u in s.lists && Live(s.lists[u].deadline, s.now) then s.lists[u].value else []
  }

  // ----- list rewriting

  /** The entries still running, without those of token `t`. */
  function Keep(l: seq<Entry>, now: int, t: string): seq<Entry> {
    if l == [] then []
    else
      var last := l[|l| - 1];
      Keep(l[..|l| - 1], now, t) + (if last.expiresAt > now && last.token != t then [last] else [])
  }

  /** Insertion behind every entry that does not expire later: the order a stable sort keeps. */
  function Insert(l: seq<Entry>, e: Entry): (r: seq<Entry>)
    ensures |r| == |l| + 1
  {
    if l == [] || l[|l| - 1].expiresAt <= e.expiresAt then l + [e]
    else Insert(l[..|l| - 1], e) + [l[|l| - 1]]
  }

  function StableSort(l: seq<Entry>): (r: seq<Entry>)
    ensures |r| == |l|
  {
    if l == [] then [] else Insert(StableSort(l[..|l| - 1]), l[|l| - 1])
  }

  function TokensOf(l: seq<Entry>): set<string> {
    set i | 0 <= i < |l| :: l[i].token
  }

  // ----- operations

  /** The two writes of a store: the rewritten list `l`, unless it would not last a second, and
      the payload. */
  function StoreListed(c: Config, s: State, p: Payload, t: string, u: string, expiresAt: int, l: seq<Entry>): State
    requires l != []
  {
    var listTTL := (l[|l| - 1].expiresAt - s.now) / SECOND;
    var s1 := if listTTL > 0 then PutList(c, s, u, l, listTTL) else s;
    PutPayload(c, s1, t, p, TTL(expiresAt, s.now))
  }

  function StorePayload(c: Config, s: State, p: Payload, t: string, u: string, expiresAt: int): State {
    if !c.secondary || t == "" || u == "" || TTL(expiresAt, s.now) <= 0 then s
    else StoreListed(c, s, p, t, u, expiresAt, StableSort(Keep(LoadList(s, u), s.now, t) + [Entry(t, expiresAt)]))
  }

  function UserOf(s: State, u: string): Option<User> {
    if u in s.users then Some(s.users[u]) else None
  }

  /** Creation fails when the database already holds a row with this unique token. */
  predicate CreateFails(c: Config, s: State, t: string) {
    c.DatabaseStores() && t in s.rows
  }

  function Create(c: Config, s: State, t: string, session: Session): State {
    if CreateFails(c, s, t) then s
    else
      var s1 := if c.DatabaseStores() then s.(rows := s.rows[t := session]) else s;
      StorePayload(c, s1, Payload(session, UserOf(s, session.userId)), t, session.userId, session.expiresAt)
  }

  /** An update of a session's columns; it never changes its token or its user. */
  datatype Change = Change(expiresAt: Option<int>, fields: map<string, string>)

  function Apply(session: Session, change: Change): Session {
    Session(session.userId,
            if change.expiresAt.Some? then change.expiresAt.value else session.expiresAt,
            session.fields + change.fields)
  }

  function Update(c: Config, s: State, t: string, change: Change): State {
    var s1 :=
      if c.secondary && Load(s, t).Some? then
        var cached := Load(s, t).value;
        var updated := Apply(cached.session, change);
        StorePayload(c, s, Payload(updated, cached.user), t, updated.userId, updated.expiresAt)
      else s;
    if c.DatabaseStores() && t in s.rows then s1.(rows := s.rows[t := Apply(s.rows[t], change)]) else s1
  }

  /** The record the caller of an update gets back. */
  function Updated(c: Config, s: State, t: string, change: Change): Option<Session> {
    if c.DatabaseStores() then (if t in s.rows then Some(Apply(s.rows[t], change)) else None)
    else match Load(s, t)
      case None => None
      case Some(cached) => Some(Apply(cached.session, change))
  }

  /** The list of `u` without token `t` and without expired entries. */
  function Unlist(c: Config, s: State, u: string, t: string): State {
    var kept := Keep(LoadList(s, u), s.now, t);
    if kept == [] then s.(lists := s.lists - {u})
    else
      var l := StableSort(kept);
      PutList(c, s, u, l, (l[|l| - 1].expiresAt - s.now) / SECOND)
  }

  function Delete(c: Config, s: State, t: string): State {
    var s1 := if !c.secondary then s else
                var s0 := if Load(s, t).Some? then Unlist(c, s, Load(s, t).value.session.userId, t) else s;
                s0.(payloads := s0.payloads - {t});
    if c.DatabaseStores() && !c.Preserves() then s1.(rows := s1.rows - {t}) else s1
  }

  function DeleteMany(c: Config, s: State, tokens: seq<string>): State {
    var s1 := if !c.secondary then s else
                s.(payloads := s.payloads - (set t | t in tokens && Present(s, t)));
    if c.DatabaseStores() && !c.Preserves() then s1.(rows := s1.rows - (set t | t in tokens)) else s1
  }

  function WithoutUser(rows: map<string, Session>, u: string): map<string, Session> {
    map t | t in rows && rows[t].userId != u :: rows[t]
  }

  function DeleteUser(c: Config, s: State, u: string, force: bool): State {
    var s1 := if !c.secondary then s else
                s.(payloads := s.payloads - TokensOf(LoadList(s, u)), lists := s.lists - {u});
    if c.DatabaseStores() && (force || !c.Preserves()) then s1.(rows := WithoutUser(s1.rows, u)) else s1
  }

  /** Rewriting the cached user of every running entry of `l`. */
  function Refresh(c: Config, s: State, l: seq<Entry>, user: User): State {
    if l == [] then s
    else
      var s1 := Refresh(c, s, l[..|l| - 1], user);
      var e := l[|l| - 1];
      if e.expiresAt <= s.now || Load(s1, e.token).None? then s1
      else
        var cached := Load(s1, e.token).value;
        PutPayload(c, s1, e.token, Payload(cached.session, Some(user)), TTL(cached.session.expiresAt, s.now))
  }

  function UpdateUser(c: Config, s: State, user: User): State {
    var s1 := s.(users := s.users[user.id := user]);
    if c.secondary then Refresh(c, s1, LoadList(s1, user.id), user) else s1
  }

  function Find(c: Config, s: State, t: string): Option<Payload> {
    if c.secondary && Load(s, t).Some? then Load(s, t)
    else if !c.ReadsDatabase() || t !in s.rows then None
    else match UserOf(s, s.rows[t].userId)
      case None => None
      case Some(user) => Some(Payload(s.rows[t], Some(user)))
  }

  function RunningTokens(l: seq<Entry>, now: int): set<string> {
    set i | 0 <= i < |l| && l[i].expiresAt > now :: l[i].token
  }

  /** The sessions behind the running entries of `l`, each token once, in list order. */
  function Listed(s: State, l: seq<Entry>, onlyActive: bool): seq<Session> {
    if l == [] then []
    else
      var e := l[|l| - 1];
      Listed(s, l[..|l| - 1], onlyActive) +
      if e.expiresAt > s.now && e.token !in RunningTokens(l[..|l| - 1], s.now) && Load(s, e.token).Some? &&
         (onlyActive ==> Load(s, e.token).value.session.expiresAt > s.now)
      then [Load(s, e.token).value.session] else []
  }

  function List(c: Config, s: State, u: string, onlyActive: bool): seq<Session> {
    if c.secondary then Listed(s, LoadList(s, u), onlyActive) else []
  }

  // ----- runs

  datatype Op =
    | CreateOp(token: string, session: Session)
    | UpdateOp(token: string, change: Change)
    | DeleteOp(token: string)
    | DeleteManyOp(tokens: seq<string>)
    | DeleteUserOp(userId: string, force: bool)
    | UpdateUserOp(user: User)
    | TickOp(ms: nat)

  function Step(c: Config, s: State, op: Op): State {
    match op
    case CreateOp(t, session) => Create(c, s, t, session)
    case UpdateOp(t, change) => Update(c, s, t, change)
    case DeleteOp(t) => Delete(c, s, t)
    case DeleteManyOp(tokens) => DeleteMany(c, s, tokens)
    case DeleteUserOp(u, force) => DeleteUser(c, s, u, force)
    case UpdateUserOp(user) => UpdateUser(c, s, user)
    case TickOp(ms) => s.(now := s.now + ms)
  }

  function Run(c: Config, s: State, ops: seq<Op>): State {
    if ops == [] then s else Step(c, Run(c, s, ops[..|ops| - 1]), ops[|ops| - 1])
  }

  predicate Initial(s: State) {
    s.payloads == map[] && s.lists == map[]
  }
}
