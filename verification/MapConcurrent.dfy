/** The bounded concurrent map of internal/asyncutil/map.go as a step system: workers that share
    `next`, `stopped`, `firstErr` and the results under a mutex, two buffered channels, and the
    caller that waits on them.  Every atomic action of the code is one step; any worker, the caller
    or the environment may take the next one. */
module MapConcurrent {
  import opened Wrappers

  // ----- how many workers

  /** A float64, as far as the choice of workers can tell them apart. */
  datatype Concurrency = NaN | NegInf | PosInf | Finite(value: real)

  /** The most workers the setting allows, at least one and never more than there are items. */
  function WorkerCount(c: Concurrency, items: nat): (w: nat)
    requires items > 0
    ensures 1 <= w <= items
    ensures c.Finite? && c.value >= 1.0 ==>
              w as real <= c.value && (w < items ==> c.value < (w + 1) as real)
  {
    match c
    case NaN => 1
    case NegInf => 1
    case PosInf => items
    case Finite(value) =>
      if value < 1.0 then 1
      else if value >= items as real then items
      else
        var workers := value.Floor;
        if workers < 1 then 1 else workers
  }

  // ----- the system

  /** One call: how many items and workers, and what the mapper makes of each item. */
  datatype Call<!R, !E> = Call(items: nat, workers: nat, mapper: nat -> Result<R, E>)
  {
    predicate Valid() { 1 <= workers <= items }
  }

  datatype Worker<R, E> =
    | Top                             // about to take the mutex and look for work
    | Calling(index: nat)             // inside the mapper
    | Writing(index: nat, value: R)   // about to write its result
    | Failing(error: E)               // about to take the mutex and stop
    | Exiting                         // about to announce that it is done
    | Gone

  datatype Caller<R, E> =
    | Waiting(remaining: nat)
    | Returned(remaining: nat, result: Result<seq<Option<R>>, E>)

  datatype State<R, E> = State(
    next: nat,
    stopped: bool,
    firstErr: Option<E>,
    results: seq<Option<R>>,
    errorReady: seq<E>,       // a channel with room for one error
    workerDone: nat,          // a channel with room for one token per worker
    workers: seq<Worker<R, E>>,
    caller: Caller<R, E>,
    cancelled: Option<E>,     // the cause of the context's cancellation, if it is cancelled
    claims: seq<(nat, nat)>)  // history: which worker claimed which index, in order

  datatype Action<E> =
    | Look(worker: nat) | Map(worker: nat) | Write(worker: nat) | Stop(worker: nat) | Exit(worker: nat)
    | ReceiveError | ReceiveDone | Finish
    | Cancel(cause: E)

  function Init<R, E>(c: Call<R, E>, cancelled: Option<E>): State<R, E> {
    State(0, false, None, seq(c.items, _ => None), [], 0, seq(c.workers, _ => Top),
          Waiting(c.workers), cancelled, [])
  }

  function With<R, E>(s: State<R, E>, w: nat, worker: Worker<R, E>): State<R, E>
    requires w < |s.workers|
  {
    s.(workers := s.workers[w := worker])
  }

  /** Recording an error under the mutex: only the first one counts. */
  function StopLocked<R, E>(s: State<R, E>, e: E): State<R, E> {
    if s.stopped then s else s.(stopped := true, firstErr := Some(e), errorReady := s.errorReady + [e])
  }

  /** The step sends on a channel that has no room, and so would block. */
  predicate Blocks<R, E>(c: Call<R, E>, s: State<R, E>, a: Action<E>) {
    match a
    case Look(_) => !s.stopped && s.next < c.items && s.cancelled.Some? && |s.errorReady| >= 1
    case Stop(_) => !s.stopped && |s.errorReady| >= 1
    case Exit(_) => s.workerDone >= c.workers
    case _ => false
  }

  predicate Enabled<R, E>(c: Call<R, E>, s: State<R, E>, a: Action<E>) {
    match a
    case ReceiveError => s.caller.Waiting? && s.caller.remaining > 0 && s.errorReady != []
    case ReceiveDone => s.caller.Waiting? && s.caller.remaining > 0 && s.workerDone > 0
    case Finish => s.caller.Waiting? && s.caller.remaining == 0
    case Cancel(_) => s.cancelled.None?
    case Look(w) => w < |s.workers| && s.workers[w].Top? && !Blocks(c, s, a)
    case Map(w) => w < |s.workers| && s.workers[w].Calling?
    case Write(w) => w < |s.workers| && s.workers[w].Writing? && s.workers[w].index < |s.results|
    case Stop(w) => w < |s.workers| && s.workers[w].Failing? && !Blocks(c, s, a)
    case Exit(w) => w < |s.workers| && s.workers[w].Exiting? && !Blocks(c, s, a)
  }

  function Apply<R, E>(c: Call<R, E>, s: State<R, E>, a: Action<E>): State<R, E>
    requires Enabled(c, s, a)
  {
    match a
    case Look(w) =>
      if s.stopped || s.next >= c.items then With(s, w, Exiting)
      else if s.cancelled.Some? then StopLocked(With(s, w, Exiting), s.cancelled.value)
      else With(s, w, Calling(s.next)).(next := s.next + 1, claims := s.claims + [(w, s.next)])
    case Map(w) =>
      var index := s.workers[w].index;
      (match c.mapper(index)
       case Ok(value) => With(s, w, Writing(index, value))
       case Err(error) => With(s, w, Failing(error)))
    case Write(w) =>
      With(s, w, Top).(results := s.results[s.workers[w].index := Some(s.workers[w].value)])
    case Stop(w) => StopLocked(With(s, w, Exiting), s.workers[w].error)
    case Exit(w) => With(s, w, Gone).(workerDone := s.workerDone + 1)
    case ReceiveError =>
      s.(errorReady := s.errorReady[1..], caller := Returned(s.caller.remaining, Err(s.errorReady[0])))
    case ReceiveDone => s.(workerDone := s.workerDone - 1, caller := Waiting(s.caller.remaining - 1))
    case Finish =>
      s.(caller := Returned(0, if s.firstErr.Some? then Err(s.firstErr.value) else Ok(s.results)))
    case Cancel(cause) => s.(cancelled := Some(cause))
  }

  // ----- the invariant

  ghost predicate Holds<R, E>(worker: Worker<R, E>, index: nat) {
    (worker.Calling? || worker.Writing?) && worker.index == index
  }

  ghost predicate Held<R, E>(s: State<R, E>, index: nat) {
    exists w :: 0 <= w < |s.workers| && Holds(s.workers[w], index)
  }

  ghost predicate Failed<R, E>(s: State<R, E>, error: E) {
    exists w :: 0 <= w < |s.workers| && s.workers[w] == Failing(error)
  }

  /** A claimed index is being worked on, or its result is in place, or its mapper call failed and
      the failure is recorded or about to be. */
  ghost predicate Accounted<R, E>(c: Call<R, E>, s: State<R, E>, i: nat)
    requires i < |s.results|
  {
    match c.mapper(i)
    case Ok(value) => Held(s, i) || s.results[i] == Some(value)
    case Err(error) => Held(s, i) || s.stopped || Failed(s, error)
  }

  function CountGone<R, E>(workers: seq<Worker<R, E>>): (n: nat)
    ensures n <= |workers|
  {
    if workers == [] then 0
    else CountGone(workers[..|workers| - 1]) + (if workers[|workers| - 1].Gone? then 1 else 0)
  }

  ghost predicate WorkerOk<R, E>(c: Call<R, E>, s: State<R, E>, worker: Worker<R, E>) {
    match worker
    case Calling(i) => i < s.next
    case Writing(i, value) => i < s.next && c.mapper(i) == Ok(value)
    case Exiting => s.stopped || s.next >= c.items
    case Gone => s.stopped || s.next >= c.items
    case _ => true
  }

  ghost predicate Shape<R, E>(c: Call<R, E>, s: State<R, E>) {
    && |s.workers| == c.workers && |s.results| == c.items && s.next <= c.items
    && |s.claims| == s.next && (forall i | 0 <= i < s.next :: s.claims[i].1 == i && s.claims[i].0 < c.workers)
    && (forall w | 0 <= w < |s.workers| :: WorkerOk(c, s, s.workers[w]))
  }

  ghost predicate OneHolder<R, E>(s: State<R, E>) {
    forall v, w, i: nat | 0 <= v < w < |s.workers| && Holds(s.workers[v], i) :: !Holds(s.workers[w], i)
  }

  ghost predicate Progressing<R, E>(c: Call<R, E>, s: State<R, E>)
    requires |s.results| == c.items && s.next <= c.items
  {
    && (forall i | 0 <= i < s.next :: Accounted(c, s, i))
    && (forall i | 0 <= i < c.items && s.results[i].Some? :: c.mapper(i) == Ok(s.results[i].value))
  }

  ghost predicate Channels<R, E>(c: Call<R, E>, s: State<R, E>) {
    && (s.stopped <==> s.firstErr.Some?)
    && (s.errorReady == [] || (s.stopped && s.errorReady == [s.firstErr.value]))
    && (s.caller.Waiting? && s.stopped ==> s.errorReady != [])
    && s.caller.remaining <= c.workers
    && CountGone(s.workers) == s.workerDone + (c.workers - s.caller.remaining)
  }

  /** The recorded error is the cancellation cause or what the mapper said of some item. */
  ghost predicate Blamed<R, E>(c: Call<R, E>, s: State<R, E>, e: E) {
    s.cancelled == Some(e) || exists i :: 0 <= i < s.next && c.mapper(i) == Err(e)
  }

  ghost predicate Errors<R, E>(c: Call<R, E>, s: State<R, E>) {
    && (s.stopped && s.firstErr.Some? ==> Blamed(c, s, s.firstErr.value))
    && forall w | 0 <= w < |s.workers| && s.workers[w].Failing? :: Blamed(c, s, s.workers[w].error)
  }

  /** What the caller returned: the first recorded error, or the result of every item in order. */
  ghost predicate Reported<R, E>(c: Call<R, E>, s: State<R, E>) {
    s.caller.Returned? ==>
      match s.caller.result
      case Err(error) => s.firstErr == Some(error)
      case Ok(results) => Complete(c, results) && !s.stopped && s.caller.remaining == 0
  }

  ghost predicate Complete<R, E>(c: Call<R, E>, results: seq<Option<R>>) {
    |results| == c.items && forall i | 0 <= i < c.items :: results[i].Some? && c.mapper(i) == Ok(results[i].value)
  }

  ghost predicate Inv<R, E>(c: Call<R, E>, s: State<R, E>) {
    Shape(c, s) && OneHolder(s) && Progressing(c, s) && Channels(c, s) && Errors(c, s) && Reported(c, s)
  }

  // ----- every step keeps it

  lemma {:induction false} CountUpdate<R, E>(workers: seq<Worker<R, E>>, w: nat, worker: Worker<R, E>)
    requires w < |workers|
    ensures CountGone(workers[w := worker]) ==
              CountGone(workers) + (if worker.Gone? then 1 else 0) - (if workers[w].Gone? then 1 else 0)
  {
    var n := |workers| - 1;
    if w < n {
      CountUpdate(workers[..n], w, worker);
      assert workers[w := worker][..n] == workers[..n][w := worker];
    } else {
      assert workers[w := worker][..n] == workers[..n];
    }
  }

  lemma {:induction false} CountBounds<R, E>(workers: seq<Worker<R, E>>)
    ensures CountGone(workers) == |workers| <==> forall w | 0 <= w < |workers| :: workers[w].Gone?
  {
    if workers != [] { CountBounds(workers[..|workers| - 1]); }
  }

  lemma StepShape<R, E>(c: Call<R, E>, s: State<R, E>, a: Action<E>)
    requires Shape(c, s) && Enabled(c, s, a)
    ensures Shape(c, Apply(c, s, a))
  {
  }

  lemma StepOneHolder<R, E>(c: Call<R, E>, s: State<R, E>, a: Action<E>)
    requires Shape(c, s) && OneHolder(s) && Enabled(c, s, a)
    ensures OneHolder(Apply(c, s, a))
  {
    if a.Look? {
      assert forall v, i: nat | 0 <= v < |s.workers| && Holds(s.workers[v], i) :: WorkerOk(c, s, s.workers[v]) && i < s.next;
    }
  }

  /** What the other workers hold, the step of worker `w` leaves them. */
  lemma HeldByOthers<R, E>(s: State<R, E>, s': State<R, E>, w: nat, i: nat)
    requires w < |s.workers| && |s'.workers| == |s.workers|
    requires forall v | 0 <= v < |s.workers| && v != w :: s'.workers[v] == s.workers[v]
    requires Held(s, i) && !Holds(s.workers[w], i)
    ensures Held(s', i)
  {
    var v :| 0 <= v < |s.workers| && Holds(s.workers[v], i);
    assert Holds(s'.workers[v], i);
  }

  lemma FailedByOthers<R, E>(s: State<R, E>, s': State<R, E>, w: nat, e: E)
    requires w < |s.workers| && |s'.workers| == |s.workers|
    requires forall v | 0 <= v < |s.workers| && v != w :: s'.workers[v] == s.workers[v]
    requires Failed(s, e) && !s.workers[w].Failing?
    ensures Failed(s', e)
  {
    var v :| 0 <= v < |s.workers| && s.workers[v] == Failing(e);
    assert s'.workers[v] == Failing(e);
  }

  lemma StepAccounted<R, E>(c: Call<R, E>, s: State<R, E>, a: Action<E>, i: nat)
    requires Shape(c, s) && Enabled(c, s, a)
    requires i < s.next ==> Accounted(c, s, i)
    requires i < Apply(c, s, a).next
    ensures |Apply(c, s, a).results| == c.items && Accounted(c, Apply(c, s, a), i)
  {
    var s' := Apply(c, s, a);
    if a.Look? || a.Map? || a.Write? || a.Stop? || a.Exit? {
      var w := a.worker;
      assert WorkerOk(c, s, s.workers[w]);
      if i == s.next {
        assert Holds(s'.workers[w], i);
      } else {
        if Held(s, i) {
          if Holds(s.workers[w], i) {
            if a.Map? && c.mapper(i).Ok? { assert Holds(s'.workers[w], i); }
            if a.Map? && c.mapper(i).Err? { assert s'.workers[w] == Failing(c.mapper(i).error); }
          } else {
            HeldByOthers(s, s', w, i);
          }
        } else if c.mapper(i).Err? && !s.stopped && !a.Stop? {
          FailedByOthers(s, s', w, c.mapper(i).error);
        }
      }
    } else {
      assert s'.workers == s.workers;
      if Held(s, i) {
        var v :| 0 <= v < |s.workers| && Holds(s.workers[v], i);
        assert Holds(s'.workers[v], i);
      } else if c.mapper(i).Err? && !s.stopped {
        var v :| 0 <= v < |s.workers| && s.workers[v] == Failing(c.mapper(i).error);
        assert s'.workers[v] == Failing(c.mapper(i).error);
      }
    }
  }

  lemma StepProgressing<R, E>(c: Call<R, E>, s: State<R, E>, a: Action<E>)
    requires Shape(c, s) && Progressing(c, s) && Enabled(c, s, a)
    ensures Shape(c, Apply(c, s, a)) && Progressing(c, Apply(c, s, a))
  {
    StepShape(c, s, a);
    var s' := Apply(c, s, a);
    forall i | 0 <= i < s'.next ensures Accounted(c, s', i) {
      StepAccounted(c, s, a, i);
    }
    if a.Write? { assert WorkerOk(c, s, s.workers[a.worker]); }
  }

  lemma StepChannels<R, E>(c: Call<R, E>, s: State<R, E>, a: Action<E>)
    requires Shape(c, s) && Channels(c, s) && Enabled(c, s, a)
    ensures Channels(c, Apply(c, s, a))
  {
    var s' := Apply(c, s, a);
    if a.Look? || a.Map? || a.Write? || a.Stop? || a.Exit? {
      CountUpdate(s.workers, a.worker, s'.workers[a.worker]);
      assert s'.workers == s.workers[a.worker := s'.workers[a.worker]];
    }
  }

  lemma BlamedOn<R, E>(c: Call<R, E>, s: State<R, E>, a: Action<E>, e: E)
    requires Enabled(c, s, a) && Blamed(c, s, e)
    ensures Blamed(c, Apply(c, s, a), e)
  {
    if s.cancelled != Some(e) {
      var i :| 0 <= i < s.next && c.mapper(i) == Err(e);
      assert i < Apply(c, s, a).next;
    }
  }

  lemma StepErrors<R, E>(c: Call<R, E>, s: State<R, E>, a: Action<E>)
    requires Shape(c, s) && Channels(c, s) && Errors(c, s) && Enabled(c, s, a)
    ensures Errors(c, Apply(c, s, a))
  {
    var s' := Apply(c, s, a);
    if s.stopped { BlamedOn(c, s, a, s.firstErr.value); }
    if a.Stop? { BlamedOn(c, s, a, s.workers[a.worker].error); }
    forall w | 0 <= w < |s'.workers| && s'.workers[w].Failing? ensures Blamed(c, s', s'.workers[w].error) {
      if s.workers[w].Failing? && s.workers[w] == s'.workers[w] {
        BlamedOn(c, s, a, s.workers[w].error);
      } else {
        assert a.Map? && a.worker == w && WorkerOk(c, s, s.workers[w]);
      }
    }
  }

  /** Once every worker is gone without a stop, every result is in place. */
  lemma AllGoneComplete<R, E>(c: Call<R, E>, s: State<R, E>)
    requires c.Valid() && Shape(c, s) && Progressing(c, s) && !s.stopped
    requires forall w | 0 <= w < |s.workers| :: s.workers[w].Gone?
    ensures Complete(c, s.results)
  {
    assert WorkerOk(c, s, s.workers[0]);
    forall i | 0 <= i < c.items ensures s.results[i].Some? && c.mapper(i) == Ok(s.results[i].value) {
      assert Accounted(c, s, i);
    }
  }

  lemma StepReported<R, E>(c: Call<R, E>, s: State<R, E>, a: Action<E>)
    requires c.Valid() && Inv(c, s) && Enabled(c, s, a)
    ensures Reported(c, Apply(c, s, a))
  {
    CountBounds(s.workers);
    if a.Finish? && !s.stopped { AllGoneComplete(c, s); }
  }

  lemma StepInv<R, E>(c: Call<R, E>, s: State<R, E>, a: Action<E>)
    requires c.Valid() && Inv(c, s) && Enabled(c, s, a)
    ensures Inv(c, Apply(c, s, a))
  {
    StepProgressing(c, s, a);
    StepOneHolder(c, s, a);
    StepChannels(c, s, a);
    StepErrors(c, s, a);
    StepReported(c, s, a);
  }

  lemma {:induction false} CountNone<R, E>(workers: seq<Worker<R, E>>)
    requires forall w | 0 <= w < |workers| :: !workers[w].Gone?
    ensures CountGone(workers) == 0
  {
    if workers != [] { CountNone(workers[..|workers| - 1]); }
  }

  lemma InitInv<R, E>(c: Call<R, E>, cancelled: Option<E>)
    requires c.Valid()
    ensures Inv(c, Init(c, cancelled))
  {
    CountNone(Init(c, cancelled).workers);
  }

  // ----- runs

  /** The state after a schedule, if each of its actions is enabled when its turn comes. */
  function Exec<R, E>(c: Call<R, E>, s: State<R, E>, schedule: seq<Action<E>>): Option<State<R, E>> {
    if schedule == [] then Some(s)
    else match Exec(c, s, schedule[..|schedule| - 1])
      case None => None
      case Some(s1) =>
        var a := schedule[|schedule| - 1];
        if Enabled(c, s1, a) then Some(Apply(c, s1, a)) else None
  }

  lemma {:induction false} ExecInv<R, E>(c: Call<R, E>, cancelled: Option<E>, schedule: seq<Action<E>>)
    requires c.Valid() && Exec(c, Init(c, cancelled), schedule).Some?
    ensures Inv(c, Exec(c, Init(c, cancelled), schedule).value)
  {
    if schedule == [] {
      InitInv(c, cancelled);
    } else {
      var n := |schedule| - 1;
      ExecInv(c, cancelled, schedule[..n]);
      StepInv(c, Exec(c, Init(c, cancelled), schedule[..n]).value, schedule[n]);
    }
  }

  /** On every schedule: if the caller has returned without error, every result is the mapper's, in
      input order; if it has returned an error, it is the first one recorded, and that is the
      cancellation cause or the failure of some claimed item. */
  lemma ResultIsRight<R, E>(c: Call<R, E>, cancelled: Option<E>, schedule: seq<Action<E>>)
    requires c.Valid() && Exec(c, Init(c, cancelled), schedule).Some?
    ensures var s := Exec(c, Init(c, cancelled), schedule).value;
            s.caller.Returned? ==>
              match s.caller.result
              case Ok(results) => Complete(c, results)
              case Err(e) => s.firstErr == Some(e) && Blamed(c, s, e)
  {
    ExecInv(c, cancelled, schedule);
  }

  /** On every schedule each claimed index was claimed once, by one worker, and is worked on by at
      most one. */
  lemma ClaimedOnce<R, E>(c: Call<R, E>, cancelled: Option<E>, schedule: seq<Action<E>>, i: nat)
    requires c.Valid() && Exec(c, Init(c, cancelled), schedule).Some?
    requires i < Exec(c, Init(c, cancelled), schedule).value.next
    ensures var s := Exec(c, Init(c, cancelled), schedule).value;
            && (exists w :: 0 <= w < c.workers && (w, i) in s.claims)
            && (forall j, k | 0 <= j < k < |s.claims| && s.claims[j].1 == i :: s.claims[k].1 != i)
            && (forall v, w | 0 <= v < w < |s.workers| && Holds(s.workers[v], i) :: !Holds(s.workers[w], i))
  {
    ExecInv(c, cancelled, schedule);
    var s := Exec(c, Init(c, cancelled), schedule).value;
    assert s.claims[i] == (s.claims[i].0, i);
  }

  function InFlight<R, E>(s: State<R, E>): set<nat> {
    set w: nat | w < |s.workers| && s.workers[w].Calling?
  }

  lemma {:induction false} BelowCardinality(ws: set<nat>, n: nat)
    requires forall w | w in ws :: w < n
    ensures |ws| <= n
  {
    if n == 0 {
      assert ws == {};
    } else {
      BelowCardinality(ws - {n - 1}, n - 1);
    }
  }

  lemma InFlightIsBounded<R, E>(c: Call<R, E>, cancelled: Option<E>, schedule: seq<Action<E>>)
    requires c.Valid() && Exec(c, Init(c, cancelled), schedule).Some?
    ensures |InFlight(Exec(c, Init(c, cancelled), schedule).value)| <= c.workers
  {
    ExecInv(c, cancelled, schedule);
    BelowCardinality(InFlight(Exec(c, Init(c, cancelled), schedule).value), c.workers);
  }

  /** Once stopped, nothing more is claimed, and the recorded error stays. */
  lemma {:induction false} NothingAfterStop<R, E>(c: Call<R, E>, s: State<R, E>, schedule: seq<Action<E>>)
    requires s.stopped && Exec(c, s, schedule).Some?
    ensures var s' := Exec(c, s, schedule).value;
            s'.stopped && s'.claims == s.claims && s'.next == s.next && s'.firstErr == s.firstErr
  {
    if schedule != [] { NothingAfterStop(c, s, schedule[..|schedule| - 1]); }
  }

  /** The workers' channel sends never block. */
  lemma SendsNeverBlock<R, E>(c: Call<R, E>, cancelled: Option<E>, schedule: seq<Action<E>>, a: Action<E>)
    requires c.Valid() && Exec(c, Init(c, cancelled), schedule).Some?
    requires var s := Exec(c, Init(c, cancelled), schedule).value;
             match a
             case Look(w) => w < |s.workers| && s.workers[w].Top?
             case Stop(w) => w < |s.workers| && s.workers[w].Failing?
             case Exit(w) => w < |s.workers| && s.workers[w].Exiting?
             case _ => false
    ensures !Blocks(c, Exec(c, Init(c, cancelled), schedule).value, a)
  {
    ExecInv(c, cancelled, schedule);
    RoomInChannels(c, Exec(c, Init(c, cancelled), schedule).value, a.worker);
  }

  lemma RoomInChannels<R, E>(c: Call<R, E>, s: State<R, E>, w: nat)
    requires c.Valid() && Inv(c, s) && w < |s.workers|
    ensures !s.stopped ==> s.errorReady == []
    ensures !s.workers[w].Gone? ==> s.workerDone < c.workers
  {
    CountBounds(s.workers);
  }

  // ----- termination

  function Work<R, E>(worker: Worker<R, E>): nat {
    match worker
    case Calling(_) => 4
    case Writing(_, _) => 3
    case Top => 2
    case Failing(_) => 2
    case Exiting => 1
    case Gone => 0
  }

  function TotalWork<R, E>(workers: seq<Worker<R, E>>): nat {
    if workers == [] then 0 else TotalWork(workers[..|workers| - 1]) + Work(workers[|workers| - 1])
  }

  /** An upper bound on the steps that are left. */
  function Measure<R, E>(c: Call<R, E>, s: State<R, E>): int {
    3 * (c.items - s.next) + TotalWork(s.workers) +
    s.caller.remaining + (if s.caller.Waiting? then 1 else 0) + (if s.cancelled.None? then 1 else 0)
  }

  lemma {:induction false} WorkUpdate<R, E>(workers: seq<Worker<R, E>>, w: nat, worker: Worker<R, E>)
    requires w < |workers|
    ensures TotalWork(workers[w := worker]) == TotalWork(workers) + Work(worker) - Work(workers[w])
  {
    var n := |workers| - 1;
    if w < n {
      WorkUpdate(workers[..n], w, worker);
      assert workers[w := worker][..n] == workers[..n][w := worker];
    } else {
      assert workers[w := worker][..n] == workers[..n];
    }
  }

  lemma StepDecreases<R, E>(c: Call<R, E>, s: State<R, E>, a: Action<E>)
    requires Enabled(c, s, a)
    ensures Measure(c, Apply(c, s, a)) < Measure(c, s)
  {
    var s' := Apply(c, s, a);
    if a.Look? || a.Map? || a.Write? || a.Stop? || a.Exit? {
      WorkUpdate(s.workers, a.worker, s'.workers[a.worker]);
      assert s'.workers == s.workers[a.worker := s'.workers[a.worker]];
    }
  }

  lemma {:induction false} InitialWork<R, E>(workers: seq<Worker<R, E>>)
    requires forall w | 0 <= w < |workers| :: workers[w].Top?
    ensures TotalWork(workers) == 2 * |workers|
  {
    if workers != [] { InitialWork(workers[..|workers| - 1]); }
  }

  lemma {:induction false} ExecMeasure<R, E>(c: Call<R, E>, s: State<R, E>, schedule: seq<Action<E>>)
    requires Exec(c, s, schedule).Some?
    ensures Measure(c, Exec(c, s, schedule).value) + |schedule| <= Measure(c, s)
  {
    if schedule != [] {
      var n := |schedule| - 1;
      ExecMeasure(c, s, schedule[..n]);
      StepDecreases(c, Exec(c, s, schedule[..n]).value, schedule[n]);
    }
  }

  /** Every schedule ends: it has at most this many steps. */
  lemma RunsAreFinite<R, E>(c: Call<R, E>, cancelled: Option<E>, schedule: seq<Action<E>>)
    requires c.Valid() && Exec(c, Init(c, cancelled), schedule).Some?
    ensures |schedule| <= 3 * c.items + 3 * c.workers + 2
  {
    ExecInv(c, cancelled, schedule);
    ExecMeasure(c, Init(c, cancelled), schedule);
    InitialWork(Init(c, cancelled).workers);
  }

  predicate Finished<R, E>(s: State<R, E>) {
    s.caller.Returned? && forall w | 0 <= w < |s.workers| :: s.workers[w].Gone?
  }

  function NextOf<R, E>(worker: Worker<R, E>, w: nat): Action<E>
    requires !worker.Gone?
  {
    match worker
    case Top => Look(w)
    case Calling(_) => Map(w)
    case Writing(_, _) => Write(w)
    case Failing(_) => Stop(w)
    case Exiting => Exit(w)
  }

  /** And it ends only when the caller has returned and every worker is gone: until then some worker
      or the caller can take a step. */
  lemma NeverStuck<R, E>(c: Call<R, E>, cancelled: Option<E>, schedule: seq<Action<E>>) returns (a: Action<E>)
    requires c.Valid() && Exec(c, Init(c, cancelled), schedule).Some?
    requires !Finished(Exec(c, Init(c, cancelled), schedule).value)
    ensures Enabled(c, Exec(c, Init(c, cancelled), schedule).value, a) && !a.Cancel?
  {
    ExecInv(c, cancelled, schedule);
    a := CanStep(c, Exec(c, Init(c, cancelled), schedule).value);
  }

  lemma CanStep<R, E>(c: Call<R, E>, s: State<R, E>) returns (a: Action<E>)
    requires c.Valid() && Inv(c, s) && !Finished(s)
    ensures Enabled(c, s, a) && !a.Cancel?
  {
    if w :| 0 <= w < |s.workers| && !s.workers[w].Gone? {
      RoomInChannels(c, s, w);
      assert WorkerOk(c, s, s.workers[w]);
      a := NextOf(s.workers[w], w);
    } else {
      CountBounds(s.workers);
      a := if s.caller.remaining == 0 then Finish else ReceiveDone;
    }
  }

  /** One whole call, its steps in whatever order the scheduler picks; `cause` is why the context was
      cancelled, if it was, before or during the call. */
  method MapConcurrent<R, E(!new)>(concurrency: Concurrency, items: nat, mapper: Option<nat -> Result<R, E>>,
                          cancelled: Option<E>, nilMapper: E)
    returns (r: Result<seq<Option<R>>, E>, ghost cause: Option<E>)
    ensures items == 0 ==> r == Ok([])
    ensures items > 0 && mapper.None? ==> r == Err(nilMapper)
    ensures items > 0 && mapper.Some? && cancelled.Some? ==> r == Err(cancelled.value)
    ensures items > 0 && r.Ok? ==>
              && mapper.Some? && cancelled.None? && |r.value| == items
              && forall i | 0 <= i < items :: r.value[i].Some? && mapper.value(i) == Ok(r.value[i].value)
    ensures items > 0 && mapper.Some? && r.Err? ==>
              cause == Some(r.error) || exists i :: 0 <= i < items && mapper.value(i) == Err(r.error)
  {
    cause := cancelled;
    if items == 0 {
      return Ok([]), cause;
    }
    if mapper.None? {
      return Err(nilMapper), cause;
    }
    if cancelled.Some? {
      return Err(cancelled.value), cause;
    }
    var c := Call(items, WorkerCount(concurrency, items), mapper.value);
    var s := Init(c, None);
    InitInv(c, None);
    while !s.caller.Returned?
      invariant Inv(c, s)
      decreases Measure(c, s)
    {
      ghost var next := CanStep(c, s);
      var a :| Enabled(c, s, a);
      StepInv(c, s, a);
      StepDecreases(c, s, a);
      s := Apply(c, s, a);
    }
    return s.caller.result, s.cancelled;
  }
}
