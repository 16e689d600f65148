/** Consuming a verification value from the database, core/password_routes.go: find the latest row
    under each stored form of the identifier, take it by its id, and sweep the other rows of that
    form.  Every database call is a step of its own; consumers of one process serialize on a lock
    chosen by the first form, and anybody may create or delete rows at any time. */
module VerificationConsume {
  import opened Wrappers
  import opened Traces
  import opened VerificationIdentifiers

  datatype Row = Row(identifier: string, createdAt: int, expiresAt: int)

  datatype Progress =
    | Waiting(forms: seq<string>)                               // for the lock
    | Trying(forms: seq<string>, k: nat)                        // about to look for forms[k]
    | Picked(forms: seq<string>, k: nat, id: nat)               // about to take row `id`
    | Sweeping(forms: seq<string>, k: nat, id: nat, row: Row)   // about to delete the rows of forms[k]
    | Leaving(forms: seq<string>, taken: Option<(nat, Row)>)    // about to release the lock
    | Done(forms: seq<string>, returned: Option<(nat, Row)>, at: int)

  datatype Event = Created(identifier: string) | Succeeded(identifier: string)

  datatype State = State(
    now: int,
    rows: map<nat, Row>,            // by primary key
    used: set<nat>,                 // every primary key ever in the table
    held: map<nat, nat>,            // which consumer holds which lock
    consumers: map<nat, Progress>,
    taken: map<nat, nat>,           // history: the rows taken, and by whom
    log: seq<Event>)

  datatype Action =
    | Start(consumer: nat, identifier: string)
    | Acquire(consumer: nat) | Find(consumer: nat, id: nat) | FindNothing(consumer: nat) | GiveUp(consumer: nat)
    | Take(consumer: nat) | Sweep(consumer: nat) | Release(consumer: nat)
    | Create(id: nat, row: Row) | Remove(id: nat) | Tick(ms: nat)

  /** `lock` maps the first stored form to one of the process's locks. */
  datatype Setup = Setup(config: Config, lock: string -> nat)

  const EMPTY := State(0, map[], {}, map[], map[], map[], [])

  predicate Under(s: State, id: nat, form: string) {
    id in s.rows && s.rows[id].identifier == form
  }

  predicate NoneUnder(s: State, form: string) {
    forall id | id in s.rows :: s.rows[id].identifier != form
  }

  predicate Latest(s: State, id: nat, form: string) {
    Under(s, id, form) && forall x | x in s.rows && s.rows[x].identifier == form :: s.rows[x].createdAt <= s.rows[id].createdAt
  }

  function Swept(rows: map<nat, Row>, form: string): map<nat, Row> {
    map id | id in rows && rows[id].identifier != form :: rows[id]
  }

  predicate Enabled(u: Setup, s: State, a: Action) {
    match a
    case Start(c, identifier) => c !in s.consumers && ToTry(u.config, identifier).Some?
    case Acquire(c) =>
      c in s.consumers && s.consumers[c].Waiting? && s.consumers[c].forms != [] && u.lock(s.consumers[c].forms[0]) !in s.held
    case Find(c, id) =>
      && c in s.consumers && s.consumers[c].Trying? && s.consumers[c].k < |s.consumers[c].forms|
      && Latest(s, id, s.consumers[c].forms[s.consumers[c].k])
    case FindNothing(c) =>
      && c in s.consumers && s.consumers[c].Trying? && s.consumers[c].k < |s.consumers[c].forms|
      && NoneUnder(s, s.consumers[c].forms[s.consumers[c].k])
    case GiveUp(c) => c in s.consumers && s.consumers[c].Trying? && s.consumers[c].k >= |s.consumers[c].forms|
    case Take(c) => c in s.consumers && s.consumers[c].Picked?
    case Sweep(c) => c in s.consumers && s.consumers[c].Sweeping? && s.consumers[c].k < |s.consumers[c].forms|
    case Release(c) => c in s.consumers && s.consumers[c].Leaving? && s.consumers[c].forms != []
    case Create(id, _) => id !in s.used
    case Remove(id) => id in s.rows
    case Tick(_) => true
  }

  function Goes(s: State, c: nat, p: Progress): State {
    s.(consumers := s.consumers[c := p])
  }

  function Apply(u: Setup, s: State, a: Action): State
    requires Enabled(u, s, a)
  {
    match a
    case Start(c, identifier) => Goes(s, c, Waiting(ToTry(u.config, identifier).value))
    case Acquire(c) =>
      var forms := s.consumers[c].forms;
      Goes(s, c, Trying(forms, 0)).(held := s.held[u.lock(forms[0]) := c])
    case Find(c, id) => Goes(s, c, Picked(s.consumers[c].forms, s.consumers[c].k, id))
    case FindNothing(c) => Goes(s, c, Trying(s.consumers[c].forms, s.consumers[c].k + 1))
    case GiveUp(c) => Goes(s, c, Leaving(s.consumers[c].forms, None))
    case Take(c) =>
      var Picked(forms, k, id) := s.consumers[c];
      if id in s.rows then
        Goes(s, c, Sweeping(forms, k, id, s.rows[id]))
          .(rows := s.rows - {id}, taken := s.taken[id := c], log := s.log + [Succeeded(s.rows[id].identifier)])
      else Goes(s, c, Trying(forms, k + 1))
    case Sweep(c) =>
      var Sweeping(forms, k, id, row) := s.consumers[c];
      Goes(s, c, Leaving(forms, Some((id, row)))).(rows := Swept(s.rows, forms[k]))
    case Release(c) =>
      var Leaving(forms, taken) := s.consumers[c];
      var returned := if taken.Some? && taken.value.1.expiresAt < s.now then None else taken;
      Goes(s, c, Done(forms, returned, s.now)).(held := s.held - {u.lock(forms[0])})
    case Create(id, row) =>
      s.(rows := s.rows[id := row], used := s.used + {id}, log := s.log + [Created(row.identifier)])
    case Remove(id) => s.(rows := s.rows - {id})
    case Tick(ms) => s.(now := s.now + ms)
  }

  function Exec(u: Setup, s: State, schedule: seq<Action>): Option<State> {
    if schedule == [] then Some(s)
    else match Exec(u, s, schedule[..|schedule| - 1])
      case None => None
      case Some(s1) =>
        var a := schedule[|schedule| - 1];
        if Enabled(u, s1, a) then Some(Apply(u, s1, a)) else None
  }

  // ----- each row is consumed at most once

  /** The row a consumer has taken. */
  function Holding(p: Progress): Option<nat> {
    match p
    case Sweeping(_, _, id, _) => Some(id)
    case Leaving(_, taken) => if taken.Some? then Some(taken.value.0) else None
    case Done(_, returned, _) => if returned.Some? then Some(returned.value.0) else None
    case _ => None
  }

  predicate TakenOnce(s: State) {
    && (forall id | id in s.rows :: id in s.used && id !in s.taken)
    && (forall id | id in s.taken :: id in s.used)
    && (forall c | c in s.consumers && Holding(s.consumers[c]).Some? ::
          Holding(s.consumers[c]).value in s.taken && s.taken[Holding(s.consumers[c]).value] == c)
  }

  lemma StepTakenOnce(u: Setup, s: State, a: Action)
    requires TakenOnce(s) && Enabled(u, s, a)
    ensures TakenOnce(Apply(u, s, a))
  {
  }

  lemma {:induction false} ExecTakenOnce(u: Setup, schedule: seq<Action>)
    requires Exec(u, EMPTY, schedule).Some?
    ensures TakenOnce(Exec(u, EMPTY, schedule).value)
  {
    if schedule != [] {
      var n := |schedule| - 1;
      ExecTakenOnce(u, schedule[..n]);
      StepTakenOnce(u, Exec(u, EMPTY, schedule[..n]).value, schedule[n]);
    }
  }

  predicate Returned(s: State, c: nat, id: nat) {
    c in s.consumers && s.consumers[c].Done? && s.consumers[c].returned.Some? && s.consumers[c].returned.value.0 == id
  }

  /** Over all runs, whatever the configuration and however the locks fall, a row is returned by at
      most one consume, and it is gone. */
  lemma ReturnedOnce(u: Setup, schedule: seq<Action>, b: nat, c: nat, id: nat)
    requires Exec(u, EMPTY, schedule).Some?
    requires Returned(Exec(u, EMPTY, schedule).value, b, id) && Returned(Exec(u, EMPTY, schedule).value, c, id)
    ensures b == c && id !in Exec(u, EMPTY, schedule).value.rows
  {
    ExecTakenOnce(u, schedule);
    var s := Exec(u, EMPTY, schedule).value;
    assert Holding(s.consumers[b]) == Some(id) && Holding(s.consumers[c]) == Some(id);
  }

  // ----- one success per create

  predicate InSection(p: Progress) {
    p.Trying? || p.Picked? || p.Sweeping? || p.Leaving?
  }

  /** The forms are those of some identifier. */
  ghost predicate AreForms(u: Setup, forms: seq<string>) {
    exists identifier :: ToTry(u.config, identifier) == Some(forms)
  }

  /** A consumer in its critical section holds the lock of its first form. */
  ghost predicate SectionOk(u: Setup, s: State, c: nat)
    requires c in s.consumers
  {
    var p := s.consumers[c];
    && (!p.Done? ==> p.forms != [] && AreForms(u, p.forms))
    && (InSection(p) ==> u.lock(p.forms[0]) in s.held && s.held[u.lock(p.forms[0])] == c)
    && (p.Picked? ==>
          p.k < |p.forms| && p.id in s.used && (p.id in s.rows ==> s.rows[p.id].identifier == p.forms[p.k]))
    && (p.Sweeping? ==> p.k < |p.forms|)
  }

  ghost predicate Sections(u: Setup, s: State) {
    && (forall id | id in s.rows :: id in s.used)
    && forall c | c in s.consumers :: SectionOk(u, s, c)
  }

  lemma StepSections(u: Setup, s: State, a: Action)
    requires Sections(u, s) && Enabled(u, s, a)
    ensures Sections(u, Apply(u, s, a))
  {
    var s' := Apply(u, s, a);
    forall c | c in s'.consumers ensures SectionOk(u, s', c) {
      if c in s.consumers { assert SectionOk(u, s, c); }
    }
  }

  /** All identifiers that look under the form `x` share one lock. */
  ghost predicate Guarded(u: Setup, x: string) {
    forall forms, others | AreForms(u, forms) && AreForms(u, others) && x in forms && x in others ::
      u.lock(forms[0]) == u.lock(others[0])
  }

  predicate SweptBy(s: State, c: nat, x: string) {
    c in s.consumers && s.consumers[c].Sweeping? && s.consumers[c].k < |s.consumers[c].forms| &&
    s.consumers[c].forms[s.consumers[c].k] == x
  }

  /** Rows of `x` are there only since the last success, unless that success is still sweeping. */
  ghost predicate Alternates(s: State, x: string) {
    && Separated(s.log, Succeeded(x), Created(x))
    && (!Answered(s.log, Succeeded(x), Created(x)) ==> NoneUnder(s, x) || exists c :: SweptBy(s, c, x))
  }

  /** Two consumers at work under one guarded form are one. */
  lemma OneInSection(u: Setup, s: State, c: nat, d: nat, x: string)
    requires Guarded(u, x) && Sections(u, s) && c in s.consumers && d in s.consumers
    requires InSection(s.consumers[c]) && InSection(s.consumers[d])
    requires x in s.consumers[c].forms && x in s.consumers[d].forms
    ensures c == d
  {
    assert SectionOk(u, s, c) && SectionOk(u, s, d);
  }

  lemma TakeAlternates(u: Setup, s: State, c: nat, x: string)
    requires Guarded(u, x) && Sections(u, s) && Alternates(s, x) && Enabled(u, s, Take(c))
    ensures Alternates(Apply(u, s, Take(c)), x)
  {
    var s' := Apply(u, s, Take(c));
    var Picked(forms, k, id) := s.consumers[c];
    assert SectionOk(u, s, c);
    if id in s.rows {
      var y := s.rows[id].identifier;
      if y == x {
        assert Answered(s.log, Succeeded(x), Created(x)) by {
          if d :| SweptBy(s, d, x) {
            OneInSection(u, s, c, d, x);
          }
        }
        assert SweptBy(s', c, x);
      } else if d :| SweptBy(s, d, x) {
        assert SweptBy(s', d, x);
      }
      Extend(s.log, Succeeded(x), Created(x), Succeeded(y));
    } else if d :| SweptBy(s, d, x) {
      assert SweptBy(s', d, x);
    }
  }

  /** A step that keeps the log, the sweepers of `x` and the absence of rows of `x`. */
  lemma QuietAlternates(s: State, s': State, x: string)
    requires Alternates(s, x) && s'.log == s.log && (NoneUnder(s, x) ==> NoneUnder(s', x))
    requires forall c | SweptBy(s, c, x) :: SweptBy(s', c, x) || NoneUnder(s', x)
    ensures Alternates(s', x)
  {
    if c :| SweptBy(s, c, x) { assert SweptBy(s', c, x) || NoneUnder(s', x); }
  }

  lemma CreateAlternates(u: Setup, s: State, id: nat, row: Row, x: string)
    requires Alternates(s, x) && Enabled(u, s, Create(id, row))
    ensures Alternates(Apply(u, s, Create(id, row)), x)
  {
    Extend(s.log, Succeeded(x), Created(x), Created(row.identifier));
    if c :| SweptBy(s, c, x) { assert SweptBy(Apply(u, s, Create(id, row)), c, x); }
  }

  lemma StepAlternates(u: Setup, s: State, a: Action, x: string)
    requires Guarded(u, x) && Sections(u, s) && Alternates(s, x) && Enabled(u, s, a)
    ensures Alternates(Apply(u, s, a), x)
  {
    match a
    case Take(c) => TakeAlternates(u, s, c, x);
    case Create(id, row) => CreateAlternates(u, s, id, row, x);
    case Sweep(c) => QuietAlternates(s, Apply(u, s, Sweep(c)), x);
    case _ =>
      SweepersStay(u, s, a, x);
      QuietAlternates(s, Apply(u, s, a), x);
  }

  lemma SweepersStay(u: Setup, s: State, a: Action, x: string)
    requires Enabled(u, s, a) && !a.Take? && !a.Create? && !a.Sweep?
    ensures Apply(u, s, a).log == s.log && (NoneUnder(s, x) ==> NoneUnder(Apply(u, s, a), x))
    ensures forall c | SweptBy(s, c, x) :: SweptBy(Apply(u, s, a), c, x)
  {
  }

  lemma {:induction false} ExecAlternates(u: Setup, schedule: seq<Action>, x: string)
    requires Guarded(u, x) && Exec(u, EMPTY, schedule).Some?
    ensures Sections(u, Exec(u, EMPTY, schedule).value) && Alternates(Exec(u, EMPTY, schedule).value, x)
  {
    if schedule != [] {
      var n := |schedule| - 1;
      ExecAlternates(u, schedule[..n], x);
      StepSections(u, Exec(u, EMPTY, schedule[..n]).value, schedule[n]);
      StepAlternates(u, Exec(u, EMPTY, schedule[..n]).value, schedule[n], x);
    }
  }

  // ----- two successes

  ghost predicate Reached(u: Setup, s: State) {
    exists schedule :: Exec(u, EMPTY, schedule) == Some(s)
  }

  lemma ReachNext(u: Setup, s: State, a: Action)
    requires Reached(u, s) && Enabled(u, s, a)
    ensures Reached(u, Apply(u, s, a))
  {
    var schedule :| Exec(u, EMPTY, schedule) == Some(s);
    assert (schedule + [a])[..|schedule|] == schedule;
    assert Exec(u, EMPTY, schedule + [a]) == Some(Apply(u, s, a));
  }

  predicate AllUnder(s: State, x: string) {
    forall id | id in s.rows :: s.rows[id].identifier == x
  }

  /** A consumer comes to the form `x` when only rows of `x` are there. */
  lemma ComesTo(u: Setup, s: State, c: nat, x: string) returns (k: nat, s': State)
    requires Reached(u, s) && c in s.consumers && AllUnder(s, x)
    requires s.consumers[c].Trying? && s.consumers[c].k == 0
    requires AreForms(u, s.consumers[c].forms) && x in s.consumers[c].forms
    ensures k < |s.consumers[c].forms| && s.consumers[c].forms[k] == x
    ensures s' == Goes(s, c, Trying(s.consumers[c].forms, k)) && Reached(u, s')
  {
    var forms := s.consumers[c].forms;
    if forms[0] == x {
      k, s' := 0, s;
      assert s.consumers[c := Trying(forms, 0)] == s.consumers;
    } else {
      k := 1;
      s' := Apply(u, s, FindNothing(c));
      ReachNext(u, s, FindNothing(c));
    }
  }

  /** It finds the row `id` there and takes it. */
  lemma Takes(u: Setup, s: State, c: nat, x: string, id: nat) returns (s': State)
    requires Reached(u, s) && c in s.consumers && s.consumers[c].Trying?
    requires s.consumers[c].k < |s.consumers[c].forms| && s.consumers[c].forms[s.consumers[c].k] == x
    requires Latest(s, id, x)
    ensures Reached(u, s') && s'.rows == s.rows - {id} && s'.log == s.log + [Succeeded(x)]
    ensures forall d | d in s.consumers && d != c :: d in s'.consumers && s'.consumers[d] == s.consumers[d]
  {
    var s1 := Apply(u, s, Find(c, id));
    ReachNext(u, s, Find(c, id));
    s' := Apply(u, s1, Take(c));
    ReachNext(u, s1, Take(c));
  }

  /** Consumers 0 and 1 hold the locks of two identifiers, and there are two rows under `x`. */
  predicate Poised(s: State, x: string, forms: seq<string>, others: seq<string>) {
    && s.rows == map[0 := Row(x, 0, 0), 1 := Row(x, 0, 0)] && s.log == [Created(x), Created(x)]
    && s.consumers == map[0 := Trying(forms, 0), 1 := Trying(others, 0)]
  }

  lemma BothEnter(u: Setup, x: string, i: string, j: string, forms: seq<string>, others: seq<string>) returns (s: State)
    requires ToTry(u.config, i) == Some(forms) && ToTry(u.config, j) == Some(others)
    requires u.lock(forms[0]) != u.lock(others[0])
    ensures Reached(u, s) && Poised(s, x, forms, others)
  {
    var s2 := TwoRows(u, x, x);
    var s3 := Apply(u, s2, Start(0, i));
    ReachNext(u, s2, Start(0, i));
    var s4 := Apply(u, s3, Start(1, j));
    ReachNext(u, s3, Start(1, j));
    s := BothAcquire(u, s4, forms, others);
  }

  lemma TwoRows(u: Setup, x: string, y: string) returns (s: State)
    ensures Reached(u, s)
    ensures s == State(0, map[0 := Row(x, 0, 0), 1 := Row(y, 0, 0)], {0, 1}, map[], map[], map[], [Created(x), Created(y)])
  {
    assert Exec(u, EMPTY, []) == Some(EMPTY);
    var s1 := Apply(u, EMPTY, Create(0, Row(x, 0, 0)));
    ReachNext(u, EMPTY, Create(0, Row(x, 0, 0)));
    s := Apply(u, s1, Create(1, Row(y, 0, 0)));
    ReachNext(u, s1, Create(1, Row(y, 0, 0)));
  }

  lemma BothAcquire(u: Setup, s: State, forms: seq<string>, others: seq<string>) returns (s': State)
    requires Reached(u, s) && s.consumers == map[0 := Waiting(forms), 1 := Waiting(others)] && s.held == map[]
    requires forms != [] && others != [] && u.lock(forms[0]) != u.lock(others[0])
    ensures Reached(u, s') && s'.rows == s.rows && s'.log == s.log
    ensures s'.consumers == map[0 := Trying(forms, 0), 1 := Trying(others, 0)]
  {
    var s1 := Apply(u, s, Acquire(0));
    ReachNext(u, s, Acquire(0));
    s' := Apply(u, s1, Acquire(1));
    ReachNext(u, s1, Acquire(1));
  }

  /** Two consumers under different locks take one row of `x` each. */
  lemma BothSucceed(u: Setup, x: string, i: string, j: string, forms: seq<string>, others: seq<string>) returns (s: State)
    requires ToTry(u.config, i) == Some(forms) && ToTry(u.config, j) == Some(others) && x in forms && x in others
    requires u.lock(forms[0]) != u.lock(others[0])
    ensures Reached(u, s) && s.log == [Created(x), Created(x), Succeeded(x), Succeeded(x)]
  {
    var s1 := BothEnter(u, x, i, j, forms, others);
    var k, s2 := ComesTo(u, s1, 0, x);
    var s3 := Takes(u, s2, 0, x, 0);
    var m, s4 := ComesTo(u, s3, 1, x);
    s := Takes(u, s4, 1, x, 1);
  }

  /** Whether any number of creates yields one success until the next create, in every interleaving of
      consumers with creates and deletes: exactly if all identifiers that look under the form share one
      lock. */
  lemma OneSuccessIff(u: Setup, x: string)
    ensures (forall s | Reached(u, s) :: Separated(s.log, Succeeded(x), Created(x))) <==> Guarded(u, x)
  {
    if Guarded(u, x) {
      forall s | Reached(u, s) ensures Separated(s.log, Succeeded(x), Created(x)) {
        var schedule :| Exec(u, EMPTY, schedule) == Some(s);
        ExecAlternates(u, schedule, x);
      }
    } else {
      var forms, others :| AreForms(u, forms) && AreForms(u, others) && x in forms && x in others &&
                           u.lock(forms[0]) != u.lock(others[0]);
      var i :| ToTry(u.config, i) == Some(forms);
      var j :| ToTry(u.config, j) == Some(others);
      var s := BothSucceed(u, x, i, j, forms, others);
      assert s.log[2] == Succeeded(x) && s.log[3] == Succeeded(x);
    }
  }

  /** Under plain identifiers every form is guarded. */
  lemma OneSuccessPerCreate(u: Setup, schedule: seq<Action>, x: string)
    requires AllPlain(u.config) && Exec(u, EMPTY, schedule).Some?
    ensures Separated(Exec(u, EMPTY, schedule).value.log, Succeeded(x), Created(x))
  {
    forall forms, others | AreForms(u, forms) && AreForms(u, others) && x in forms && x in others
      ensures u.lock(forms[0]) == u.lock(others[0])
    {
      var i :| ToTry(u.config, i) == Some(forms);
      var j :| ToTry(u.config, j) == Some(others);
      assert RuleFor(u.config, i).Plain? && RuleFor(u.config, j).Plain?;
    }
    ExecAlternates(u, schedule, x);
  }

  // ----- the other form survives

  lemma EntersAlone(u: Setup, s: State, c: nat, identifier: string, forms: seq<string>, k: nat) returns (s': State)
    requires Reached(u, s) && c !in s.consumers && s.held == map[]
    requires ToTry(u.config, identifier) == Some(forms) && k < |forms| && (k == 1 ==> NoneUnder(s, forms[0]))
    ensures Reached(u, s') && s' == Goes(s, c, Trying(forms, k)).(held := map[u.lock(forms[0]) := c])
  {
    var s1 := Apply(u, s, Start(c, identifier));
    ReachNext(u, s, Start(c, identifier));
    var s2 := Apply(u, s1, Acquire(c));
    ReachNext(u, s1, Acquire(c));
    s' := s2;
    if k == 1 {
      s' := Apply(u, s2, FindNothing(c));
      ReachNext(u, s2, FindNothing(c));
    }
  }

  lemma TakesAlone(u: Setup, s: State, c: nat, forms: seq<string>, k: nat, id: nat) returns (s': State)
    requires Reached(u, s) && c in s.consumers && s.consumers[c] == Trying(forms, k) && k < |forms|
    requires Latest(s, id, forms[k])
    ensures Reached(u, s') && s'.rows == Swept(s.rows, forms[k]) && s'.now == s.now && s'.held == s.held
    ensures s'.consumers == s.consumers[c := Leaving(forms, Some((id, s.rows[id])))]
  {
    var s1 := Apply(u, s, Find(c, id));
    ReachNext(u, s, Find(c, id));
    var s2 := Apply(u, s1, Take(c));
    ReachNext(u, s1, Take(c));
    s' := Apply(u, s2, Sweep(c));
    ReachNext(u, s2, Sweep(c));
    assert Swept(s.rows - {id}, forms[k]) == Swept(s.rows, forms[k]);
  }

  /** The latest row is returned only if it has not expired. */
  function Judged(id: nat, row: Row, now: int): Option<(nat, Row)> {
    if row.expiresAt >= now then Some((id, row)) else None
  }

  /** A consume from beginning to end, alone, that finds the row `id` under form `k`: the rows of that form
      go, and the row is returned exactly if it has not expired. */
  lemma ConsumesAlone(u: Setup, s: State, c: nat, identifier: string, forms: seq<string>, k: nat, id: nat)
    returns (s': State)
    requires Reached(u, s) && c !in s.consumers && s.held == map[]
    requires ToTry(u.config, identifier) == Some(forms) && k < |forms| && (k == 1 ==> NoneUnder(s, forms[0]))
    requires Latest(s, id, forms[k])
    ensures Reached(u, s') && s'.held == map[] && s'.now == s.now
    ensures s'.consumers == s.consumers[c := Done(forms, Judged(id, s.rows[id], s.now), s.now)]
    ensures s'.rows == Swept(s.rows, forms[k])
    ensures forall x | Under(s, x, forms[k]) :: s.rows[x].createdAt <= s.rows[id].createdAt
  {
    var s1 := EntersAlone(u, s, c, identifier, forms, k);
    var s2 := TakesAlone(u, s1, c, forms, k, id);
    s' := Apply(u, s2, Release(c));
    ReachNext(u, s2, Release(c));
  }

  /** A consume, alone, that finds nothing under any form returns nothing and leaves the rows as they are. */
  lemma FindsNothingAlone(u: Setup, s: State, c: nat, identifier: string, forms: seq<string>) returns (s': State)
    requires Reached(u, s) && c !in s.consumers && s.held == map[] && ToTry(u.config, identifier) == Some(forms)
    requires forall i | 0 <= i < |forms| :: NoneUnder(s, forms[i])
    ensures Reached(u, s') && s'.held == map[] && s'.rows == s.rows
    ensures s'.consumers == s.consumers[c := Done(forms, None, s.now)]
  {
    var n := |forms| - 1;
    var s1 := EntersAlone(u, s, c, identifier, forms, n);
    var s2 := Apply(u, s1, FindNothing(c));
    ReachNext(u, s1, FindNothing(c));
    var s3 := Apply(u, s2, GiveUp(c));
    ReachNext(u, s2, GiveUp(c));
    s' := Apply(u, s3, Release(c));
    ReachNext(u, s3, Release(c));
  }

  // ----- what is returned

  /** The row is under one of the forms, and was created. */
  predicate Genuine(s: State, forms: seq<string>, row: Row) {
    row.identifier in forms && Created(row.identifier) in s.log
  }

  /** What a consumer has in hand is genuine, and what it returned had not expired. */
  predicate InHand(s: State, p: Progress) {
    match p
    case Picked(forms, k, id) => k < |forms| && id in s.used && (id in s.rows ==> s.rows[id].identifier == forms[k])
    case Sweeping(forms, _, _, row) => Genuine(s, forms, row)
    case Leaving(forms, taken) => taken.Some? ==> Genuine(s, forms, taken.value.1)
    case Done(forms, returned, at) =>
      at <= s.now && (returned.Some? ==> Genuine(s, forms, returned.value.1) && returned.value.1.expiresAt >= at)
    case Waiting(_) => true
    case Trying(_, _) => true
  }

  predicate AllInHand(s: State) {
    && (forall id | id in s.rows :: id in s.used && Created(s.rows[id].identifier) in s.log)
    && (forall c | c in s.consumers :: InHand(s, s.consumers[c]))
  }

  lemma InHandStays(s: State, s': State, p: Progress)
    requires InHand(s, p) && s.log <= s'.log && s.used <= s'.used && s.now <= s'.now
    requires forall id | id in s'.rows && id in s.used :: id in s.rows && s'.rows[id] == s.rows[id]
    ensures InHand(s', p)
  {
    assert forall e | e in s.log :: e in s'.log;
  }

  lemma RowsStay(u: Setup, s: State, a: Action)
    requires AllInHand(s) && Enabled(u, s, a)
    ensures var s' := Apply(u, s, a);
            && s.log <= s'.log && s.used <= s'.used && s.now <= s'.now
            && (forall id | id in s'.rows && id in s.used :: id in s.rows && s'.rows[id] == s.rows[id])
            && (forall id | id in s'.rows :: id in s'.used && Created(s'.rows[id].identifier) in s'.log)
  {
    var s' := Apply(u, s, a);
    if a.Create? { assert s'.log[|s.log|] == Created(a.row.identifier); }
    assert forall e | e in s.log :: e in s'.log;
  }

  lemma StepInHand(u: Setup, s: State, a: Action)
    requires AllInHand(s) && Enabled(u, s, a)
    ensures AllInHand(Apply(u, s, a))
  {
    var s' := Apply(u, s, a);
    RowsStay(u, s, a);
    forall c | c in s'.consumers ensures InHand(s', s'.consumers[c]) {
      if c in s.consumers {
        InHandStays(s, s', s.consumers[c]);
        if s'.consumers[c] != s.consumers[c] { MovesInHand(u, s, a, c); }
      }
    }
  }

  lemma MovesInHand(u: Setup, s: State, a: Action, c: nat)
    requires AllInHand(s) && Enabled(u, s, a) && c in s.consumers && InHand(Apply(u, s, a), s.consumers[c])
    requires Apply(u, s, a).consumers[c] != s.consumers[c]
    ensures InHand(Apply(u, s, a), Apply(u, s, a).consumers[c])
  {
    RowsStay(u, s, a);
    assert forall e | e in s.log :: e in Apply(u, s, a).log;
    if a.Take? && s.consumers[c].id in s.rows {
      var row := s.rows[s.consumers[c].id];
      assert Created(row.identifier) in s.log;
    }
  }

  lemma {:induction false} ExecInHand(u: Setup, schedule: seq<Action>)
    requires Exec(u, EMPTY, schedule).Some?
    ensures AllInHand(Exec(u, EMPTY, schedule).value)
  {
    if schedule != [] {
      var n := |schedule| - 1;
      ExecInHand(u, schedule[..n]);
      StepInHand(u, Exec(u, EMPTY, schedule[..n]).value, schedule[n]);
    }
  }

  /** In every interleaving, what a consume returns is a row that was created under one of the forms it
      looked for, and had not expired when the consume ended. */
  lemma ReturnedIsLive(u: Setup, schedule: seq<Action>, c: nat, id: nat)
    requires Exec(u, EMPTY, schedule).Some? && Returned(Exec(u, EMPTY, schedule).value, c, id)
    ensures var s := Exec(u, EMPTY, schedule).value;
            var Done(forms, returned, at) := s.consumers[c];
            && returned.value.1.identifier in forms && Created(returned.value.1.identifier) in s.log
            && at <= returned.value.1.expiresAt && at <= s.now
  {
    ExecInHand(u, schedule);
  }

  // ----- two forms

  /** A success sweeps one form only: with a row under each form of an identifier, two consumes of it in
      a row succeed, the second with the row of the other form. */
  lemma OtherFormSurvives(u: Setup, identifier: string, forms: seq<string>) returns (s: State)
    requires ToTry(u.config, identifier) == Some(forms) && |forms| == 2
    ensures Reached(u, s)
    ensures Returned(s, 0, 0) && s.consumers[0].returned.value.1.identifier == forms[0]
    ensures Returned(s, 1, 1) && s.consumers[1].returned.value.1.identifier == forms[1]
  {
    var s2 := TwoRows(u, forms[0], forms[1]);
    var s3 := ConsumesAlone(u, s2, 0, identifier, forms, 0, 0);
    s := ConsumesAlone(u, s3, 1, identifier, forms, 1, 1);
  }
}
