/** The consumeOne fallback of storage/factory.go: find one row, then delete it under the same
    conditions plus its id, and return it only if that deleted something.  Any number of callers run
    it at once, without isolation, while rows come, change and go. */
module ConsumeOne {
  import opened Wrappers
  import opened Queries

  datatype Progress =
    | Searching(where: seq<Where>)
    | Deleting(where: seq<Where>, target: Row)
    | Done(where: seq<Where>, result: Option<Row>)

  datatype State = State(
    rows: map<string, Row>,
    used: set<string>,            // every id that was ever in the table
    callers: map<nat, Progress>,
    consumed: map<string, nat>)   // history: the ids deleted by the fallback, and for whom

  datatype Action =
    | Start(caller: nat, where: seq<Where>)
    | Find(caller: nat, id: string)      // the driver returns some selected row
    | FindNothing(caller: nat)
    | Delete(caller: nat)
    | Insert(row: Row) | Change(row: Row) | Remove(id: string)   // everybody else

  const EMPTY := State(map[], {}, map[], map[])

  /** The ids a conditional delete takes. */
  function Deleted(d: Driver, s: State, where: seq<Where>): set<string> {
    set id | id in s.rows && Selects(d, where, s.rows[id])
  }

  predicate Enabled(d: Driver, s: State, a: Action) {
    match a
    case Start(c, _) => c !in s.callers
    case Find(c, id) =>
      c in s.callers && s.callers[c].Searching? && id in s.rows && Selects(d, s.callers[c].where, s.rows[id])
    case FindNothing(c) =>
      c in s.callers && s.callers[c].Searching? && Deleted(d, s, s.callers[c].where) == {}
    case Delete(c) => c in s.callers && s.callers[c].Deleting?
    case Insert(row) => row.id !in s.used
    case Change(row) => row.id in s.rows
    case Remove(id) => id in s.rows
  }

  function Credited(ids: set<string>, c: nat): map<string, nat> {
    map id | id in ids :: c
  }

  function AfterDelete(s: State, c: nat, where: seq<Where>, target: Row, ids: set<string>): State {
    s.(rows := s.rows - ids,
       callers := s.callers[c := Done(where, if |ids| > 0 then Some(target) else None)],
       consumed := s.consumed + Credited(ids, c))
  }

  function Apply(d: Driver, s: State, a: Action): State
    requires Enabled(d, s, a)
  {
    match a
    case Start(c, where) => s.(callers := s.callers[c := Searching(where)])
    case Find(c, id) => s.(callers := s.callers[c := Deleting(s.callers[c].where, s.rows[id])])
    case FindNothing(c) => s.(callers := s.callers[c := Done(s.callers[c].where, None)])
    case Delete(c) =>
      var Deleting(where, target) := s.callers[c];
      AfterDelete(s, c, where, target, Deleted(d, s, where + [IdIs(target.id)]))
    case Insert(row) => s.(rows := s.rows[row.id := row], used := s.used + {row.id})
    case Change(row) => s.(rows := s.rows[row.id := row])
    case Remove(id) => s.(rows := s.rows - {id})
  }

  /** The callers that got a row. */
  function Winners(s: State): set<nat> {
    set c | c in s.callers && s.callers[c].Done? && s.callers[c].result.Some?
  }

  predicate Won(s: State, c: nat, id: string) {
    c in s.callers && s.callers[c].Done? && s.callers[c].result.Some? && s.callers[c].result.value.id == id
  }

  predicate TableOk(s: State) {
    forall id | id in s.rows :: s.rows[id].id == id && id in s.used
  }

  predicate HistoryOk(s: State) {
    forall id | id in s.consumed :: id !in s.rows && id in s.used && Won(s, s.consumed[id], id)
  }

  predicate WinnersOk(s: State) {
    forall c | c in Winners(s) ::
      s.callers[c].result.value.id in s.consumed && s.consumed[s.callers[c].result.value.id] == c
  }

  predicate Inv(s: State) {
    TableOk(s) && HistoryOk(s) && WinnersOk(s) && |Winners(s)| == |s.consumed|
  }

  /** The gated delete takes the target and nothing else, if it is still there and still selected. */
  lemma GateDeletes(d: Driver, s: State, where: seq<Where>, id: string)
    requires Lawful(d) && Inv(s)
    ensures Deleted(d, s, where + [IdIs(id)]) == if id in s.rows && Selects(d, where, s.rows[id]) then {id} else {}
  {
    forall x | x in s.rows ensures Selects(d, where + [IdIs(id)], s.rows[x]) <==> Selects(d, where, s.rows[x]) && x == id {
      GateSelects(d, where, id, s.rows[x]);
    }
  }

  /** A step that changes no outcome and no history keeps the invariant, if the table stays sound. */
  lemma QuietStep(s: State, s': State)
    requires Inv(s) && s'.consumed == s.consumed && s.used <= s'.used
    requires Winners(s') == Winners(s) && forall c | c in Winners(s) :: s'.callers[c] == s.callers[c]
    requires forall id | id in s'.rows :: s'.rows[id].id == id && id in s'.used && id !in s.consumed
    ensures Inv(s')
  {
    forall id | id in s'.consumed ensures Won(s', s'.consumed[id], id) {
      assert Won(s, s.consumed[id], id);
      assert s.consumed[id] in Winners(s);
    }
  }

  /** What a delete that took nothing, or just the target, leaves behind. */
  lemma AfterDeleteIs(s: State, c: nat, where: seq<Where>, target: Row)
    ensures AfterDelete(s, c, where, target, {}) == s.(callers := s.callers[c := Done(where, None)])
    ensures AfterDelete(s, c, where, target, {target.id}) ==
              State(s.rows - {target.id}, s.used, s.callers[c := Done(where, Some(target))], s.consumed[target.id := c])
  {
    assert s.rows - {} == s.rows;
    assert s.consumed + Credited({}, c) == s.consumed;
    assert s.consumed + Credited({target.id}, c) == s.consumed[target.id := c];
  }

  lemma LoseInv(s: State, c: nat, where: seq<Where>)
    requires Inv(s) && c in s.callers && !s.callers[c].Done?
    ensures Inv(s.(callers := s.callers[c := Done(where, None)]))
  {
    var s' := s.(callers := s.callers[c := Done(where, None)]);
    assert Winners(s') == Winners(s);
    QuietStep(s, s');
  }

  predicate IsWin(s: State, s': State, c: nat, target: Row) {
    && c in s.callers && !s.callers[c].Done? && target.id in s.rows
    && s' == State(s.rows - {target.id}, s.used, s.callers[c := Done(s.callers[c].where, Some(target))],
                   s.consumed[target.id := c])
  }

  lemma WinInv(s: State, s': State, c: nat, target: Row)
    requires Inv(s) && IsWin(s, s', c, target)
    ensures Inv(s')
  {
    WinHistory(s, s', c, target);
    WinWinners(s, s', c, target);
    assert TableOk(s');
  }

  lemma WinAdds(s: State, s': State, c: nat, target: Row)
    requires IsWin(s, s', c, target)
    ensures c !in Winners(s) && Winners(s') == Winners(s) + {c}
  {
  }

  lemma WinWinners(s: State, s': State, c: nat, target: Row)
    requires Inv(s) && IsWin(s, s', c, target)
    ensures WinnersOk(s') && |Winners(s')| == |s'.consumed|
  {
    WinAdds(s, s', c, target);
    assert target.id !in s.consumed;
    forall b | b in Winners(s')
      ensures s'.callers[b].result.value.id in s'.consumed && s'.consumed[s'.callers[b].result.value.id] == b
    {
      if b != c { assert s.callers[b].result.value.id in s.consumed; }
    }
  }

  lemma WinHistory(s: State, s': State, c: nat, target: Row)
    requires HistoryOk(s) && TableOk(s) && IsWin(s, s', c, target)
    ensures HistoryOk(s')
  {
    forall id | id in s'.consumed ensures Won(s', s'.consumed[id], id) {
      if id != target.id { assert Won(s, s.consumed[id], id); }
    }
  }

  lemma DeleteInv(d: Driver, s: State, c: nat)
    requires Lawful(d) && Inv(s) && Enabled(d, s, Delete(c))
    ensures Inv(Apply(d, s, Delete(c)))
  {
    var Deleting(where, target) := s.callers[c];
    GateDeletes(d, s, where, target.id);
    AfterDeleteIs(s, c, where, target);
    if target.id in s.rows && Selects(d, where, s.rows[target.id]) {
      WinInv(s, AfterDelete(s, c, where, target, {target.id}), c, target);
    } else {
      LoseInv(s, c, where);
    }
  }

  lemma StepInv(d: Driver, s: State, a: Action)
    requires Lawful(d) && Inv(s) && Enabled(d, s, a)
    ensures Inv(Apply(d, s, a))
  {
    if a.Delete? {
      DeleteInv(d, s, a.caller);
    } else {
      var s' := Apply(d, s, a);
      assert Winners(s') == Winners(s);
      QuietStep(s, s');
    }
  }

  function Exec(d: Driver, s: State, schedule: seq<Action>): Option<State> {
    if schedule == [] then Some(s)
    else match Exec(d, s, schedule[..|schedule| - 1])
      case None => None
      case Some(s1) =>
        var a := schedule[|schedule| - 1];
        if Enabled(d, s1, a) then Some(Apply(d, s1, a)) else None
  }

  lemma {:induction false} ExecInv(d: Driver, schedule: seq<Action>)
    requires Lawful(d) && Exec(d, EMPTY, schedule).Some?
    ensures Inv(Exec(d, EMPTY, schedule).value)
  {
    if schedule == [] {
      assert Winners(EMPTY) == {};
    } else {
      var n := |schedule| - 1;
      ExecInv(d, schedule[..n]);
      StepInv(d, Exec(d, EMPTY, schedule[..n]).value, schedule[n]);
    }
  }

  /** In every interleaving each row is returned to at most one caller, every returned row was deleted
      for that caller and stays gone, and there are as many winners as rows deleted. */
  lemma SingleUse(d: Driver, schedule: seq<Action>)
    requires Lawful(d) && Exec(d, EMPTY, schedule).Some?
    ensures var s := Exec(d, EMPTY, schedule).value;
            && (forall b, c, id | Won(s, b, id) && Won(s, c, id) :: b == c)
            && (forall c, id | Won(s, c, id) :: id !in s.rows && id in s.consumed && s.consumed[id] == c)
            && |Winners(s)| == |s.consumed|
  {
    ExecInv(d, schedule);
    var s := Exec(d, EMPTY, schedule).value;
    forall c, id | Won(s, c, id) ensures id !in s.rows && id in s.consumed && s.consumed[id] == c {
      assert c in Winners(s);
    }
  }

  // ----- what the winners get

  predicate Matching(d: Driver, p: Progress) {
    match p
    case Searching(_) => true
    case Deleting(where, target) => Selects(d, where, target)
    case Done(where, result) => result.Some? ==> Selects(d, where, result.value)
  }

  lemma {:induction false} ExecMatching(d: Driver, schedule: seq<Action>, c: nat)
    requires Exec(d, EMPTY, schedule).Some? && c in Exec(d, EMPTY, schedule).value.callers
    ensures Matching(d, Exec(d, EMPTY, schedule).value.callers[c])
  {
    if schedule != [] {
      var n := |schedule| - 1;
      var s := Exec(d, EMPTY, schedule[..n]).value;
      if c in s.callers { ExecMatching(d, schedule[..n], c); }
    }
  }

  /** In every interleaving, a row that is returned is one its caller asked for. */
  lemma WinnerMatches(d: Driver, schedule: seq<Action>, c: nat, id: string)
    requires Exec(d, EMPTY, schedule).Some? && Won(Exec(d, EMPTY, schedule).value, c, id)
    ensures var Done(where, result) := Exec(d, EMPTY, schedule).value.callers[c];
            Selects(d, where, result.value)
  {
    ExecMatching(d, schedule, c);
  }

  lemma DeletesAlone(d: Driver, s: State, c: nat, where: seq<Where>, id: string)
    requires Lawful(d) && Inv(s) && id in s.rows && Selects(d, where, s.rows[id])
    requires c in s.callers && s.callers[c] == Deleting(where, s.rows[id])
    ensures Apply(d, s, Delete(c)).callers == s.callers[c := Done(where, Some(s.rows[id]))]
    ensures Apply(d, s, Delete(c)).rows == s.rows - {id}
  {
    GateDeletes(d, s, where, id);
    AfterDeleteIs(s, c, where, s.rows[id]);
  }

  ghost predicate Reached(d: Driver, s: State) {
    exists schedule :: Exec(d, EMPTY, schedule) == Some(s)
  }

  lemma ReachNext(d: Driver, s: State, a: Action)
    requires Reached(d, s) && Enabled(d, s, a)
    ensures Reached(d, Apply(d, s, a))
  {
    var schedule :| Exec(d, EMPTY, schedule) == Some(s);
    assert (schedule + [a])[..|schedule|] == schedule;
    assert Exec(d, EMPTY, schedule + [a]) == Some(Apply(d, s, a));
  }

  lemma FindsAlone(d: Driver, s: State, c: nat, where: seq<Where>, id: string) returns (s': State)
    requires Reached(d, s) && c !in s.callers && id in s.rows && Selects(d, where, s.rows[id])
    ensures Reached(d, s') && s' == s.(callers := s.callers[c := Deleting(where, s.rows[id])])
  {
    var s1 := Apply(d, s, Start(c, where));
    ReachNext(d, s, Start(c, where));
    s' := Apply(d, s1, Find(c, id));
    ReachNext(d, s1, Find(c, id));
    assert s'.callers == s.callers[c := Deleting(where, s.rows[id])];
  }

  /** In any reachable state, a caller that is not disturbed gets a row if there is one to get, and then just
      that row is gone. */
  lemma ConsumesAlone(d: Driver, s: State, c: nat, where: seq<Where>, id: string) returns (s': State)
    requires Lawful(d) && Reached(d, s) && c !in s.callers && id in s.rows && Selects(d, where, s.rows[id])
    ensures Reached(d, s') && s'.callers == s.callers[c := Done(where, Some(s.rows[id]))] && s'.rows == s.rows - {id}
  {
    var s2 := FindsAlone(d, s, c, where, id);
    ReachedInv(d, s2);
    ReachNext(d, s2, Delete(c));
    s' := Apply(d, s2, Delete(c));
    DeletesAlone(d, s2, c, where, id);
    LastUpdate(s.callers, c, Deleting(where, s.rows[id]), Done(where, Some(s.rows[id])));
  }

  lemma LastUpdate(callers: map<nat, Progress>, c: nat, p: Progress, q: Progress)
    ensures callers[c := p][c := q] == callers[c := q]
  {
  }

  lemma ReachedInv(d: Driver, s: State)
    requires Lawful(d) && Reached(d, s)
    ensures Inv(s)
  {
    var schedule :| Exec(d, EMPTY, schedule) == Some(s);
    ExecInv(d, schedule);
  }
}
