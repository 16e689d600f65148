/** Nested transactions and the hooks that wait for them: core/transaction_context.go,
    core/database_hooks.go and internal/txscope/scope.go.

    A program is what callbacks do with their adapter.  `Exec` says what running one does; the
    classes and `Run` below are the code. */
module Transactions {
  import opened Wrappers

  /** A callback to run later, and whether it will fail when it does. */
  datatype Hook = Hook(id: nat, fails: bool)

  datatype Error = CallbackFailed(code: nat) | CommitFailed | HookFailed(id: nat)

  datatype Program = End | Then(first: Command, rest: Program)

  /** `ignore` says whether the surrounding callback goes on after an error of the nested call;
      `commits` whether the database would commit a transaction opened here. */
  datatype Command =
    | Write(op: nat, after: seq<Hook>)    // a write and the database after-hooks registered for it
    | Queue(hook: Hook)                   // an after-transaction hook
    | Fail(code: nat)
    | Transaction(body: Program, ignore: bool, commits: bool)   // runWithTransactionAdapter
    | WithAdapter(body: Program, ignore: bool)                  // RunWithAdapter

  datatype Event = Opened | Written(op: nat) | Committed | RolledBack | AfterHook(id: nat) | ScopeHook(id: nat)

  /** The nearest scope of a context. */
  datatype Mode = NoScope | Inactive | Active

  /** The log so far, the after-queue of the running transaction and the hooks of the scope. */
  datatype State = State(log: seq<Event>, after: seq<Hook>, hooks: seq<Hook>)

  // ----- running hooks

  /** The hooks that run: in order, up to and including the first that fails. */
  function Ran(hooks: seq<Hook>): seq<Hook> {
    if hooks == [] then []
    else if hooks[0].fails then [hooks[0]] else [hooks[0]] + Ran(hooks[1..])
  }

  function Failure(hooks: seq<Hook>): Option<Error> {
    if hooks == [] then None
    else if hooks[0].fails then Some(HookFailed(hooks[0].id)) else Failure(hooks[1..])
  }

  function AfterEvents(hooks: seq<Hook>): seq<Event> {
    seq(|hooks|, i requires 0 <= i < |hooks| => AfterHook(hooks[i].id))
  }

  function ScopeEvents(hooks: seq<Hook>): seq<Event> {
    seq(|hooks|, i requires 0 <= i < |hooks| => ScopeHook(hooks[i].id))
  }

  function Or(first: Option<Error>, second: Option<Error>): Option<Error> {
    if first.Some? then first else second
  }

  // ----- what a program does

  /** The end of a transaction whose body left `s1` and `err`: roll back, or commit and run the
      after-queue; then the scope's hooks. */
  function Close(log: seq<Event>, after: seq<Hook>, hooks: seq<Hook>, err: Option<Error>, commits: bool)
    : (seq<Event>, Option<Error>)
  {
    var closed :=
      if err.Some? then (log + [RolledBack], err)
      else if !commits then (log + [RolledBack], Some(CommitFailed))
      else (log + [Committed] + AfterEvents(Ran(after)), Failure(after));
    (closed.0 + ScopeEvents(Ran(hooks)), Or(Failure(hooks), closed.1))
  }

  function Exec(p: Program, mode: Mode, s: State): (State, Option<Error>)
    decreases p, 0
  {
    match p
    case End => (s, None)
    case Then(c, rest) =>
      var (s1, err) := ExecOne(c, mode, s);
      if err.Some? then (s1, err) else Exec(rest, mode, s1)
  }

  /** A transaction call where none is active: a base transaction with its own queue and scope. */
  function ExecOuter(body: Program, commits: bool, log: seq<Event>): (seq<Event>, Option<Error>)
    decreases body, 2
  {
    var r := Exec(body, Active, State(log + [Opened], [], []));
    Close(r.0.log, r.0.after, r.0.hooks, r.1, commits)
  }

  function ExecOne(c: Command, mode: Mode, s: State): (State, Option<Error>)
    decreases c, 1
  {
    match c
    case Write(op, after) =>
      var s1 := s.(log := s.log + [Written(op)]);
      if mode.Active? then (s1.(after := s.after + after), None)
      else (s1.(log := s1.log + AfterEvents(Ran(after))), Failure(after))
    case Queue(hook) =>
      if mode.NoScope? then
        (s.(log := s.log + [ScopeHook(hook.id)]), if hook.fails then Some(HookFailed(hook.id)) else None)
      else (s.(hooks := s.hooks + [hook]), None)
    case Fail(code) => (s, Some(CallbackFailed(code)))
    case Transaction(body, ignore, commits) =>
      if mode.Active? then
        var (s1, err) := Exec(body, Active, s);
        (s1, if ignore then None else err)
      else
        var r := ExecOuter(body, commits, s.log);
        (s.(log := r.0), if ignore then None else r.1)
    case WithAdapter(body, ignore) =>
      var (s1, err) := Exec(body, Inactive, State(s.log, [], []));
      (s.(log := s1.log + ScopeEvents(Ran(s1.hooks))), if ignore then None else Or(Failure(s1.hooks), err))
  }

  // ----- the code

  class Journal {
    var log: seq<Event>

    constructor ()
      ensures log == []
    {
      log := [];
    }
  }

  /** The after-queue of one base transaction. */
  class AfterQueue {
    var callbacks: seq<Hook>

    constructor ()
      ensures callbacks == []
    {
      callbacks := [];
    }

    method Add(hooks: seq<Hook>)
      modifies this
      ensures callbacks == old(callbacks) + hooks
    {
      callbacks := callbacks + hooks;
    }
  }

  /** An adapter scope: open, it collects hooks; closed, it runs them at once. */
  class Scope {
    var hooks: seq<Hook>
    var closed: bool

    constructor ()
      ensures hooks == [] && !closed
    {
      hooks, closed := [], false;
    }

    method Enqueue(hook: Hook, journal: Journal) returns (err: Option<Error>)
      modifies this, journal
      ensures closed == old(closed)
      ensures !closed ==> hooks == old(hooks) + [hook] && journal.log == old(journal.log) && err.None?
      ensures closed ==> hooks == old(hooks) && journal.log == old(journal.log) + [ScopeHook(hook.id)]
      ensures closed ==> err == if hook.fails then Some(HookFailed(hook.id)) else None
    {
      if !closed {
        hooks := hooks + [hook];
        return None;
      }
      journal.log := journal.log + [ScopeHook(hook.id)];
      return if hook.fails then Some(HookFailed(hook.id)) else None;
    }

    method CloseAndRunHooks(journal: Journal) returns (err: Option<Error>)
      modifies this, journal
      ensures closed && hooks == []
      ensures journal.log == old(journal.log) + ScopeEvents(Ran(old(hooks))) && err == Failure(old(hooks))
    {
      closed := true;
      var pending := hooks;
      hooks := [];
      var i := 0;
      while i < |pending|
        invariant 0 <= i <= |pending| && closed && hooks == []
        invariant journal.log + ScopeEvents(Ran(pending[i..])) == old(journal.log) + ScopeEvents(Ran(pending))
        invariant Failure(pending) == Failure(pending[i..])
      {
        assert pending[i..][1..] == pending[i + 1..];
        journal.log := journal.log + [ScopeHook(pending[i].id)];
        if pending[i].fails {
          return Some(HookFailed(pending[i].id));
        }
        assert ScopeEvents(Ran(pending[i..])) == [ScopeHook(pending[i].id)] + ScopeEvents(Ran(pending[i + 1..]));
        i := i + 1;
      }
      return None;
    }
  }

  /** Database after-hooks: in order, up to the first failure. */
  method RunAfterHooks(hooks: seq<Hook>, journal: Journal) returns (err: Option<Error>)
    modifies journal
    ensures journal.log == old(journal.log) + AfterEvents(Ran(hooks)) && err == Failure(hooks)
  {
    var i := 0;
    while i < |hooks|
      invariant 0 <= i <= |hooks|
      invariant journal.log + AfterEvents(Ran(hooks[i..])) == old(journal.log) + AfterEvents(Ran(hooks))
      invariant Failure(hooks) == Failure(hooks[i..])
    {
      assert hooks[i..][1..] == hooks[i + 1..];
      journal.log := journal.log + [AfterHook(hooks[i].id)];
      if hooks[i].fails {
        return Some(HookFailed(hooks[i].id));
      }
      assert AfterEvents(Ran(hooks[i..])) == [AfterHook(hooks[i].id)] + AfterEvents(Ran(hooks[i + 1..]));
      i := i + 1;
    }
    return None;
  }

  function View(journal: Journal, queue: AfterQueue?, scope: Scope?): State
    reads journal, queue, scope
  {
    State(journal.log,
          if queue == null then [] else queue.callbacks,
          if scope == null then [] else scope.hooks)
  }

  /** What the context carries: an active scope comes with the queue of its transaction. */
  predicate Carries(mode: Mode, queue: AfterQueue?, scope: Scope?)
    reads scope
  {
    && (mode.Active? <==> queue != null)
    && (mode.NoScope? <==> scope == null)
    && (scope != null ==> !scope.closed)
  }

  method Run(p: Program, mode: Mode, journal: Journal, queue: AfterQueue?, scope: Scope?) returns (err: Option<Error>)
    requires Carries(mode, queue, scope)
    modifies journal, queue, scope
    ensures Carries(mode, queue, scope)
    ensures (View(journal, queue, scope), err) == Exec(p, mode, old(View(journal, queue, scope)))
    decreases p, 0
  {
    match p
    case End =>
      return None;
    case Then(c, rest) =>
      err := RunOne(c, mode, journal, queue, scope);
      if err.None? {
        err := Run(rest, mode, journal, queue, scope);
      }
  }

  method RunOne(c: Command, mode: Mode, journal: Journal, queue: AfterQueue?, scope: Scope?)
    returns (err: Option<Error>)
    requires Carries(mode, queue, scope)
    modifies journal, queue, scope
    ensures Carries(mode, queue, scope)
    ensures (View(journal, queue, scope), err) == ExecOne(c, mode, old(View(journal, queue, scope)))
    decreases c, 1
  {
    match c
    case Write(op, after) =>
      journal.log := journal.log + [Written(op)];
      if queue != null {
        queue.Add(after);
        return None;
      }
      err := RunAfterHooks(after, journal);
    case Queue(hook) =>
      if scope != null {
        err := scope.Enqueue(hook, journal);
        return;
      }
      journal.log := journal.log + [ScopeHook(hook.id)];
      return if hook.fails then Some(HookFailed(hook.id)) else None;
    case Fail(code) =>
      return Some(CallbackFailed(code));
    case Transaction(body, ignore, commits) =>
      if mode.Active? {
        err := Run(body, Active, journal, queue, scope);
      } else {
        err := RunTransaction(body, commits, journal);
      }
      if ignore {
        err := None;
      }
    case WithAdapter(body, ignore) =>
      var inner := new Scope();
      err := Run(body, Inactive, journal, null, inner);
      var hookErr := inner.CloseAndRunHooks(journal);
      if hookErr.Some? {
        err := hookErr;
      }
      if ignore {
        err := None;
      }
  }

  /** A base transaction with its own after-queue and scope. */
  method RunTransaction(body: Program, commits: bool, journal: Journal) returns (err: Option<Error>)
    modifies journal
    ensures (journal.log, err) == ExecOuter(body, commits, old(journal.log))
    decreases body, 2
  {
    var queue := new AfterQueue();
    var scope := new Scope();
    journal.log := journal.log + [Opened];
    err := Run(body, Active, journal, queue, scope);
    if err.Some? {
      journal.log := journal.log + [RolledBack];
    } else if !commits {
      journal.log := journal.log + [RolledBack];
      err := Some(CommitFailed);
    } else {
      journal.log := journal.log + [Committed];
      err := RunAfterHooks(queue.callbacks, journal);
    }
    var hookErr := scope.CloseAndRunHooks(journal);
    if hookErr.Some? {
      err := hookErr;
    }
  }

  // ----- which hooks run

  /** The first `n` hooks run: no earlier one fails, and if some do not run, the last that did failed. */
  predicate RunsUpTo(hooks: seq<Hook>, n: nat) {
    && n <= |hooks| && (forall i | 0 <= i < n - 1 :: !hooks[i].fails)
    && (n < |hooks| ==> n > 0 && hooks[n - 1].fails)
  }

  /** The error of hooks of which the first `n` ran: that of the last one, if it failed. */
  function ErrorOf(hooks: seq<Hook>, n: nat): Option<Error>
    requires n <= |hooks|
  {
    if n > 0 && hooks[n - 1].fails then Some(HookFailed(hooks[n - 1].id)) else None
  }

  /** Hooks run in order up to the first failure, which is the error. */
  lemma {:induction false} RanIsPrefix(hooks: seq<Hook>) returns (n: nat)
    ensures RunsUpTo(hooks, n) && Ran(hooks) == hooks[..n] && Failure(hooks) == ErrorOf(hooks, n)
  {
    if hooks == [] {
      n := 0;
    } else if hooks[0].fails {
      n := 1;
    } else {
      var rest := hooks[1..];
      var m := RanIsPrefix(rest);
      n := m + 1;
      assert forall i | 0 <= i < |rest| :: rest[i] == hooks[i + 1];
      assert hooks[..n] == [hooks[0]] + rest[..m];
    }
  }

  /** There is only one such place to stop. */
  lemma StopIsUnique(hooks: seq<Hook>, m: nat, n: nat)
    requires RunsUpTo(hooks, m) && RunsUpTo(hooks, n)
    ensures m == n
  {
  }

  // ----- nested calls are transparent

  /** No adapter is rebound on the way: only nested transaction calls. */
  predicate Plain(p: Program) {
    match p
    case End => true
    case Then(c, rest) => PlainOne(c) && Plain(rest)
  }

  predicate PlainOne(c: Command) {
    match c
    case Transaction(body, _, _) => Plain(body)
    case WithAdapter(_, _) => false
    case _ => true
  }

  /** What a plain program amounts to, told without transactions: the writes it gets to, the hooks
      it registers on the way, and its error. */
  datatype Effect = Effect(writes: seq<nat>, after: seq<Hook>, hooks: seq<Hook>, err: Option<Error>)

  function Flat(p: Program): Effect
    requires Plain(p)
    decreases p, 0
  {
    match p
    case End => Effect([], [], [], None)
    case Then(c, rest) =>
      var e := FlatOne(c);
      if e.err.Some? then e
      else
        var f := Flat(rest);
        Effect(e.writes + f.writes, e.after + f.after, e.hooks + f.hooks, f.err)
  }

  function FlatOne(c: Command): Effect
    requires PlainOne(c)
    decreases c, 1
  {
    match c
    case Write(op, after) => Effect([op], after, [], None)
    case Queue(hook) => Effect([], [], [hook], None)
    case Fail(code) => Effect([], [], [], Some(CallbackFailed(code)))
    case Transaction(body, ignore, _) => if ignore then Flat(body).(err := None) else Flat(body)
  }

  function WriteEvents(ops: seq<nat>): (r: seq<Event>)
    ensures |r| == |ops| && forall i | 0 <= i < |r| :: r[i] == Written(ops[i])
  {
    seq(|ops|, i requires 0 <= i < |ops| => Written(ops[i]))
  }

  function Added(s: State, e: Effect): State {
    State(s.log + WriteEvents(e.writes), s.after + e.after, s.hooks + e.hooks)
  }

  lemma AddedNothing(s: State, err: Option<Error>)
    ensures Added(s, Effect([], [], [], err)) == s
    ensures s.log + WriteEvents([]) == s.log && s.after + [] == s.after
  {
    assert s.log + WriteEvents([]) == s.log && s.after + [] == s.after && s.hooks + [] == s.hooks;
  }

  lemma AddedTwice(s: State, e: Effect, f: Effect)
    ensures Added(Added(s, e), f) ==
              Added(s, Effect(e.writes + f.writes, e.after + f.after, e.hooks + f.hooks, f.err))
  {
    assert WriteEvents(e.writes + f.writes) == WriteEvents(e.writes) + WriteEvents(f.writes);
  }

  /** Inside a transaction a plain program only writes and registers, at whatever depth. */
  lemma {:induction false} ExecIsFlat(p: Program, s: State)
    requires Plain(p)
    ensures Exec(p, Active, s) == (Added(s, Flat(p)), Flat(p).err)
    decreases p, 0
  {
    match p
    case End =>
      AddedNothing(s, None);
    case Then(c, rest) =>
      ExecOneIsFlat(c, s);
      if FlatOne(c).err.None? {
        ExecIsFlat(rest, Added(s, FlatOne(c)));
        AddedTwice(s, FlatOne(c), Flat(rest));
      }
  }

  lemma {:induction false} ExecOneIsFlat(c: Command, s: State)
    requires PlainOne(c)
    ensures ExecOne(c, Active, s) == (Added(s, FlatOne(c)), FlatOne(c).err)
    decreases c, 1
  {
    match c
    case Write(op, after) =>
      assert WriteEvents([op]) == [Written(op)];
      assert s.hooks + [] == s.hooks;
    case Queue(hook) => AddedNothing(s, None);
    case Fail(code) => AddedNothing(s, Some(CallbackFailed(code)));
    case Transaction(body, ignore, _) => ExecIsFlat(body, s);
  }

  /** How an outermost transaction ends. */
  function Ending(e: Effect, commits: bool): seq<Event> {
    if e.err.None? && commits then [Committed] + AfterEvents(Ran(e.after)) + ScopeEvents(Ran(e.hooks))
    else [RolledBack] + ScopeEvents(Ran(e.hooks))
  }

  function Verdict(e: Effect, commits: bool): Option<Error> {
    Or(Failure(e.hooks), if e.err.Some? then e.err else if !commits then Some(CommitFailed) else Failure(e.after))
  }

  lemma CloseEnds(log: seq<Event>, e: Effect, commits: bool)
    ensures Close(log, e.after, e.hooks, e.err, commits) == (log + Ending(e, commits), Verdict(e, commits))
  {
    if e.err.None? && commits {
      assert log + [Committed] + AfterEvents(Ran(e.after)) + ScopeEvents(Ran(e.hooks)) ==
             log + ([Committed] + AfterEvents(Ran(e.after)) + ScopeEvents(Ran(e.hooks)));
    } else {
      assert log + [RolledBack] + ScopeEvents(Ran(e.hooks)) == log + ([RolledBack] + ScopeEvents(Ran(e.hooks)));
    }
  }

  /** Any tree of nested calls is one transaction: it opens once, does the writes of all depths in
      order, and then either commits and runs the after-hooks of all depths in order up to the first
      failure, or rolls back and runs none of them; the scope's hooks come last. */
  lemma OneTransaction(body: Program, commits: bool, log: seq<Event>)
    requires Plain(body)
    ensures ExecOuter(body, commits, log) ==
              (log + [Opened] + WriteEvents(Flat(body).writes) + Ending(Flat(body), commits), Verdict(Flat(body), commits))
  {
    var start := State(log + [Opened], [], []);
    ExecIsFlat(body, start);
    var e := Flat(body);
    var s1 := Added(start, e);
    assert [] + e.after == e.after && [] + e.hooks == e.hooks;
    assert s1 == State(log + [Opened] + WriteEvents(e.writes), e.after, e.hooks);
    CloseEnds(s1.log, e, commits);
  }

  /** The log of an outermost transaction call. */
  function LogOf(body: Program, commits: bool): seq<Event> {
    ExecOuter(body, commits, []).0
  }

  /** The log of any tree of nested calls and its error, hook by hook: of the after-hooks of all depths, the
      first `n` run, behind the commit and in the order they were registered, up to the first that fails;
      none runs behind a rollback; of the scope's hooks, the first `k` run, last of all. */
  lemma HooksRunInOrder(body: Program, commits: bool, log: seq<Event>) returns (n: nat, k: nat)
    requires Plain(body)
    ensures var e := Flat(body);
            var committed := e.err.None? && commits;
            var (events, err) := ExecOuter(body, commits, log);
            && RunsUpTo(e.hooks, k) && RunsUpTo(e.after, n)
            && events == log + [Opened] + WriteEvents(e.writes) +
                 (if committed then [Committed] + AfterEvents(e.after[..n]) else [RolledBack]) + ScopeEvents(e.hooks[..k])
            && err == Or(ErrorOf(e.hooks, k),
                         if e.err.Some? then e.err else if commits then ErrorOf(e.after, n) else Some(CommitFailed))
  {
    var e := Flat(body);
    n := RanIsPrefix(e.after);
    k := RanIsPrefix(e.hooks);
    OneTransaction(body, commits, log);
    var head := log + [Opened] + WriteEvents(e.writes);
    if e.err.None? && commits {
      assert head + ([Committed] + AfterEvents(e.after[..n]) + ScopeEvents(e.hooks[..k])) ==
             head + ([Committed] + AfterEvents(e.after[..n])) + ScopeEvents(e.hooks[..k]);
    } else {
      assert head + ([RolledBack] + ScopeEvents(e.hooks[..k])) == head + [RolledBack] + ScopeEvents(e.hooks[..k]);
    }
  }

  predicate Precedes(log: seq<Event>, i: nat, e: Event) {
    exists j :: 0 <= j < i && j < |log| && log[j] == e
  }

  /** The same, event by event. */
  lemma HooksWaitForCommit(body: Program, commits: bool, i: nat)
    requires Plain(body) && i < |LogOf(body, commits)|
    ensures LogOf(body, commits)[i] == Opened <==> i == 0
    ensures LogOf(body, commits)[i].AfterHook? ==> Precedes(LogOf(body, commits), i, Committed)
    ensures LogOf(body, commits)[i].ScopeHook? ==>
              Precedes(LogOf(body, commits), i, Committed) || Precedes(LogOf(body, commits), i, RolledBack)
    ensures Flat(body).err.Some? || !commits ==>
              !LogOf(body, commits)[i].AfterHook? && LogOf(body, commits)[i] != Committed
  {
    OneTransaction(body, commits, []);
    var e := Flat(body);
    assert [] + [Opened] == [Opened];
    EndingEvents(LogOf(body, commits), e, commits, i);
  }

  lemma EndingEvents(log: seq<Event>, e: Effect, commits: bool, i: nat)
    requires log == [Opened] + WriteEvents(e.writes) + Ending(e, commits) && i < |log|
    ensures log[i] == Opened <==> i == 0
    ensures log[i].AfterHook? ==> Precedes(log, i, Committed)
    ensures log[i].ScopeHook? ==> Precedes(log, i, Committed) || Precedes(log, i, RolledBack)
    ensures e.err.Some? || !commits ==> !log[i].AfterHook? && log[i] != Committed
  {
    var n := 1 + |e.writes|;
    var ending := Ending(e, commits);
    assert log[n] == ending[0];
    if 0 < i < n {
      assert log[i] == WriteEvents(e.writes)[i - 1];
    } else if i >= n {
      assert log[i] == ending[i - n];
    }
  }

  // ----- outside a transaction

  function QueueAll(hooks: seq<Hook>): Program {
    if hooks == [] then End else Then(Queue(hooks[0]), QueueAll(hooks[1..]))
  }

  lemma {:induction false} QueueAllQueues(hooks: seq<Hook>, s: State)
    ensures Exec(QueueAll(hooks), Inactive, s) == (s.(hooks := s.hooks + hooks), None)
  {
    if hooks == [] {
      assert s.hooks + [] == s.hooks;
    } else {
      QueueAllQueues(hooks[1..], s.(hooks := s.hooks + [hooks[0]]));
      assert s.hooks + [hooks[0]] + hooks[1..] == s.hooks + hooks;
    }
  }

  /** Hooks queued under a bound adapter run when its callback is over, in order up to the first failure,
      which the caller gets unless it goes on regardless; what the surrounding scope holds is not touched. */
  lemma BoundHooksRun(hooks: seq<Hook>, ignore: bool, mode: Mode, s: State) returns (n: nat)
    ensures RunsUpTo(hooks, n)
    ensures ExecOne(WithAdapter(QueueAll(hooks), ignore), mode, s) ==
              (s.(log := s.log + ScopeEvents(hooks[..n])), if ignore then None else ErrorOf(hooks, n))
  {
    n := RanIsPrefix(hooks);
    QueueAllQueues(hooks, State(s.log, [], []));
    assert [] + hooks == hooks;
  }

  /** A write outside a transaction runs its after-hooks at once, in order up to the first failure; inside
      one it leaves them for the commit. */
  lemma WriteRunsHooks(op: nat, after: seq<Hook>, mode: Mode, s: State) returns (n: nat)
    ensures RunsUpTo(after, n)
    ensures !mode.Active? ==>
              ExecOne(Write(op, after), mode, s) ==
                (s.(log := s.log + [Written(op)] + AfterEvents(after[..n])), ErrorOf(after, n))
    ensures mode.Active? ==>
              ExecOne(Write(op, after), mode, s) == (State(s.log + [Written(op)], s.after + after, s.hooks), None)
  {
    n := RanIsPrefix(after);
  }

  /** Rebinding the root adapter inside a transaction hides it: the call nested in it opens a second
      base transaction, which commits first. */
  lemma RebindingOpensAgain(op: nat)
    ensures var inner := Transaction(Then(Write(op, []), End), false, true);
            LogOf(Then(WithAdapter(Then(inner, End), false), End), true) ==
              [Opened, Opened, Written(op), Committed, Committed]
  {
    var body := Then(Write(op, []), End);
    var inner := Transaction(body, false, true);
    var log := [Opened];
    OneTransaction(body, true, log);
    assert Flat(body) == Effect([op], [], [], None) by { assert [op] + [] == [op]; }
    assert WriteEvents([op]) == [Written(op)];
    assert AfterEvents([]) == [] && ScopeEvents([]) == [];
    var log2 := [Opened, Opened, Written(op), Committed];
    assert Ran([]) == [] && Failure([]) == None;
    assert Ending(Flat(body), true) == [Committed] && Verdict(Flat(body), true) == None;
    assert log + [Opened] + [Written(op)] + [Committed] == log2;
    assert ExecOuter(body, true, log) == (log2, None);
    var s, s2 := State(log, [], []), State(log2, [], []);
    assert ExecOne(inner, Inactive, s) == (s2, None);
    assert Exec(Then(inner, End), Inactive, s) == (s2, None);
    var outer := WithAdapter(Then(inner, End), false);
    assert log2 + ScopeEvents(Ran([])) == log2;
    assert ExecOne(outer, Active, s) == (s2, None);
    assert Exec(Then(outer, End), Active, s) == (s2, None);
    assert [] + [Opened] == log;
    assert Close(log2, [], [], None, true).0 == log2 + [Committed];
  }
}
