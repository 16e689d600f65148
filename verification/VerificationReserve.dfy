/** Reserving a verification value, core/internal_adapter.go: the first writer wins.  With a database
    the reservation is a row under a primary key derived from the identifier; with only a key-value
    store it is a key that callers of one process test and set under a lock.  The system below is the
    reservation of one identifier; callers, deletions, expiry and plain creates interleave freely. */
module VerificationReserve {
  import opened Wrappers
  import opened Traces

  datatype Event = Won | Removed | Placed

  datatype Progress =
    | Waiting                      // for the lock
    | Testing                      // holds the lock, about to read the key
    | Setting                      // holds the lock, found the key missing
    | Leaving(won: bool)           // about to release the lock
    | Inserting                    // about to insert the row
    | Refused                      // the insert failed; about to look for the row
    | Caching                      // inserted the row; about to copy it to the key-value store
    | Done(result: Option<bool>)   // None is an error

  /** `present` is the row, or the key; `held` is who has the lock. */
  datatype State = State(present: bool, held: Option<nat>, callers: map<nat, Progress>, log: seq<Event>)

  datatype Action =
    | Start(caller: nat)
    | Acquire(caller: nat) | Test(caller: nat) | Set(caller: nat, kept: bool) | Release(caller: nat)
    | Insert(caller: nat) | Look(caller: nat) | Cache(caller: nat)
    | Remove                       // consumed, deleted or expired
    | Create                       // a plain create under the same key

  const EMPTY := State(false, None, map[], [])

  predicate Enabled(database: bool, s: State, a: Action) {
    match a
    case Start(c) => c !in s.callers
    case Acquire(c) => c in s.callers && s.callers[c].Waiting? && s.held.None?
    case Test(c) => c in s.callers && s.callers[c].Testing?
    case Set(c, _) => c in s.callers && s.callers[c].Setting?
    case Release(c) => c in s.callers && s.callers[c].Leaving?
    case Insert(c) => c in s.callers && s.callers[c].Inserting?
    case Look(c) => c in s.callers && s.callers[c].Refused?
    case Cache(c) => c in s.callers && s.callers[c].Caching?
    case Remove => s.present
    case Create => !database
  }

  function Goes(s: State, c: nat, p: Progress): State {
    s.(callers := s.callers[c := p])
  }

  function Apply(database: bool, s: State, a: Action): State
    requires Enabled(database, s, a)
  {
    match a
    case Start(c) => Goes(s, c, if database then Inserting else Waiting)
    case Acquire(c) => Goes(s, c, Testing).(held := Some(c))
    case Test(c) => Goes(s, c, if s.present then Leaving(false) else Setting)
    // a backend may drop a value set with no time to live: it is stored and gone at once
    case Set(c, kept) =>
      Goes(s, c, Leaving(true)).(present := kept, log := s.log + (if kept then [Won] else [Won, Removed]))
    case Release(c) => Goes(s, c, Done(Some(s.callers[c].won))).(held := None)
    case Insert(c) =>
      if s.present then Goes(s, c, Refused) else Goes(s, c, Caching).(present := true, log := s.log + [Won])
    case Look(c) => Goes(s, c, Done(if s.present then Some(false) else None))
    case Cache(c) => Goes(s, c, Done(Some(true)))
    case Remove => s.(present := false, log := s.log + [Removed])
    case Create => s.(present := true, log := s.log + [Placed])
  }

  function Exec(database: bool, s: State, schedule: seq<Action>): Option<State> {
    if schedule == [] then Some(s)
    else match Exec(database, s, schedule[..|schedule| - 1])
      case None => None
      case Some(s1) =>
        var a := schedule[|schedule| - 1];
        if Enabled(database, s1, a) then Some(Apply(database, s1, a)) else None
  }

  predicate InSection(p: Progress) {
    p.Testing? || p.Setting? || p.Leaving?
  }

  /** While a win stands unanswered by a removal, the reservation is there and nobody is about to
      set it. */
  ghost predicate Inv(database: bool, s: State) {
    && Separated(s.log, Won, Removed)
    && (forall c | c in s.callers && InSection(s.callers[c]) :: s.held == Some(c))
    && (forall c | c in s.callers && (s.callers[c].Waiting? || InSection(s.callers[c])) :: !database)
    && (forall c | c in s.callers && (s.callers[c].Inserting? || s.callers[c].Caching?) :: database)
    && (!Answered(s.log, Won, Removed) ==>
          s.present && forall c | c in s.callers :: !s.callers[c].Setting?)
  }

  lemma StepInv(database: bool, s: State, a: Action)
    requires Inv(database, s) && Enabled(database, s, a)
    ensures Inv(database, Apply(database, s, a))
  {
    Extend(s.log, Won, Removed, Removed);
    Extend(s.log, Won, Removed, Placed);
    match a
    case Set(c, kept) =>
      Extend(s.log, Won, Removed, Won);
      if !kept {
        Extend(s.log + [Won], Won, Removed, Removed);
        assert s.log + [Won] + [Removed] == s.log + [Won, Removed];
      }
    case Insert(c) =>
      if !s.present { Extend(s.log, Won, Removed, Won); }
    case _ =>
  }

  lemma {:induction false} ExecInv(database: bool, schedule: seq<Action>)
    requires Exec(database, EMPTY, schedule).Some?
    ensures Inv(database, Exec(database, EMPTY, schedule).value)
  {
    if schedule != [] {
      var n := |schedule| - 1;
      ExecInv(database, schedule[..n]);
      StepInv(database, Exec(database, EMPTY, schedule[..n]).value, schedule[n]);
    }
  }

  /** In every interleaving, between two removals of the reservation at most one call wins, through
      the database's primary key as under the in-process lock. */
  lemma FirstWriterWins(database: bool, schedule: seq<Action>)
    requires Exec(database, EMPTY, schedule).Some?
    ensures Separated(Exec(database, EMPTY, schedule).value.log, Won, Removed)
  {
    ExecInv(database, schedule);
  }

  // ----- the wins are the calls that return true

  predicate Wins(p: Progress) {
    p == Leaving(true) || p == Caching || p == Done(Some(true))
  }

  function Winners(s: State): set<nat> {
    set c | c in s.callers && Wins(s.callers[c])
  }

  function WinCount(log: seq<Event>): nat {
    multiset(log)[Won]
  }

  lemma WinnersSame(s: State, s': State, c: nat, p: Progress)
    requires s'.callers == s.callers[c := p] && (Wins(p) <==> c in Winners(s))
    ensures Winners(s') == Winners(s)
  {
  }

  lemma WinnersGain(s: State, s': State, c: nat, p: Progress)
    requires s'.callers == s.callers[c := p] && Wins(p) && c !in Winners(s)
    ensures |Winners(s')| == |Winners(s)| + 1
  {
    assert Winners(s') == Winners(s) + {c};
  }

  /** What a step adds to the winners, it adds to the wins. */
  lemma StepWinners(database: bool, s: State, a: Action)
    requires |Winners(s)| == WinCount(s.log) && Enabled(database, s, a)
    ensures |Winners(Apply(database, s, a))| == WinCount(Apply(database, s, a).log)
  {
    var s' := Apply(database, s, a);
    match a
    case Set(c, _) => WinnersGain(s, s', c, Leaving(true));
    case Insert(c) =>
      if s.present { WinnersSame(s, s', c, Refused); } else { WinnersGain(s, s', c, Caching); }
    case Start(c) => WinnersSame(s, s', c, if database then Inserting else Waiting);
    case Acquire(c) => WinnersSame(s, s', c, Testing);
    case Test(c) => WinnersSame(s, s', c, if s.present then Leaving(false) else Setting);
    case Release(c) => WinnersSame(s, s', c, Done(Some(s.callers[c].won)));
    case Look(c) => WinnersSame(s, s', c, Done(if s.present then Some(false) else None));
    case Cache(c) => WinnersSame(s, s', c, Done(Some(true)));
    case Remove => assert Winners(s') == Winners(s);
    case Create => assert Winners(s') == Winners(s);
  }

  /** Exactly as many calls return true, or are about to, as there are wins. */
  lemma {:induction false} WinnersAreWins(database: bool, schedule: seq<Action>)
    requires Exec(database, EMPTY, schedule).Some?
    ensures var s := Exec(database, EMPTY, schedule).value;
            |Winners(s)| == WinCount(s.log)
  {
    if schedule == [] {
      assert Winners(EMPTY) == {};
    } else {
      var n := |schedule| - 1;
      WinnersAreWins(database, schedule[..n]);
      StepWinners(database, Exec(database, EMPTY, schedule[..n]).value, schedule[n]);
    }
  }

  // ----- who wins

  ghost predicate Reached(database: bool, s: State) {
    exists schedule :: Exec(database, EMPTY, schedule) == Some(s)
  }

  lemma ReachNext(database: bool, s: State, a: Action)
    requires Reached(database, s) && Enabled(database, s, a)
    ensures Reached(database, Apply(database, s, a))
  {
    var schedule :| Exec(database, EMPTY, schedule) == Some(s);
    assert (schedule + [a])[..|schedule|] == schedule;
    assert Exec(database, EMPTY, schedule + [a]) == Some(Apply(database, s, a));
  }

  /** A call that is not disturbed returns true exactly if nothing is reserved, and false exactly if
      something is; after it something is, if the backend keeps what it is given. */
  lemma ReservesAlone(database: bool, s: State, c: nat, kept: bool) returns (s': State)
    requires Reached(database, s) && c !in s.callers && s.held.None?
    ensures Reached(database, s') && s'.held.None?
    ensures s'.callers == s.callers[c := Done(Some(!s.present))]
    ensures s'.present <==> s.present || database || kept
  {
    var s1 := Apply(database, s, Start(c));
    ReachNext(database, s, Start(c));
    if database { s' := InsertsAlone(s1, c); } else { s' := SetsAlone(s1, c, kept); }
  }

  lemma InsertsAlone(s: State, c: nat) returns (s': State)
    requires Reached(true, s) && c in s.callers && s.callers[c].Inserting?
    ensures Reached(true, s') && s'.held == s.held && s'.present
    ensures s'.callers == s.callers[c := Done(Some(!s.present))]
  {
    var s1 := Apply(true, s, Insert(c));
    ReachNext(true, s, Insert(c));
    var a := if s.present then Look(c) else Cache(c);
    s' := Apply(true, s1, a);
    ReachNext(true, s1, a);
  }

  lemma SetsAlone(s: State, c: nat, kept: bool) returns (s': State)
    requires Reached(false, s) && c in s.callers && s.callers[c].Waiting? && s.held.None?
    ensures Reached(false, s') && s'.held.None?
    ensures s'.callers == s.callers[c := Done(Some(!s.present))] && (s'.present <==> s.present || kept)
  {
    var s1 := Apply(false, s, Acquire(c));
    ReachNext(false, s, Acquire(c));
    var s2 := Apply(false, s1, Test(c));
    ReachNext(false, s1, Test(c));
    var s3 := s2;
    if !s.present {
      s3 := Apply(false, s2, Set(c, kept));
      ReachNext(false, s2, Set(c, kept));
    }
    s' := Apply(false, s3, Release(c));
    ReachNext(false, s3, Release(c));
  }

  predicate Lost(p: Progress) {
    p == Leaving(false) || p == Refused || p == Done(Some(false)) || p == Done(None)
  }

  /** Whatever is there was won or placed, and whoever lost, lost to it. */
  predicate Blamed(s: State) {
    s.present || (exists c :: c in s.callers && Lost(s.callers[c])) ==> Won in s.log || Placed in s.log
  }

  lemma StepBlamed(database: bool, s: State, a: Action)
    requires Blamed(s) && Enabled(database, s, a)
    ensures Blamed(Apply(database, s, a))
  {
    var s' := Apply(database, s, a);
    assert s.log <= s'.log;
    assert forall e | e in s.log :: e in s'.log;
    if a.Insert? || a.Set? || a.Create? {
      if |s'.log| > |s.log| { assert s'.log[|s.log|] in s'.log; }
    }
    if c :| c in s'.callers && Lost(s'.callers[c]) {
      if c in s.callers && Lost(s.callers[c]) { assert Won in s.log || Placed in s.log; }
    }
  }

  /** In every interleaving nobody is refused before somebody has won, or the value was placed otherwise. */
  lemma {:induction false} RefusedForCause(database: bool, schedule: seq<Action>)
    requires Exec(database, EMPTY, schedule).Some?
    ensures Blamed(Exec(database, EMPTY, schedule).value)
  {
    if schedule != [] {
      var n := |schedule| - 1;
      RefusedForCause(database, schedule[..n]);
      StepBlamed(database, Exec(database, EMPTY, schedule[..n]).value, schedule[n]);
    }
  }
}
