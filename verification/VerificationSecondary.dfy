/** Verification values kept only in the key-value store: core/secondary_storage.go and
    core/verification_identifier.go. */
module VerificationSecondary {
  import opened Wrappers

  /** A stored value; `serial` tells apart the writes that ever put one there. */
  datatype Entry = Entry(serial: nat, expiresAt: int)

  // ----- one consumer alone

  /** The first form whose value is there and has not expired. */
  function FirstLive(values: map<string, Entry>, forms: seq<string>, now: int): Option<Entry> {
    if forms == [] then None
    else if forms[0] in values && values[forms[0]].expiresAt >= now then Some(values[forms[0]])
    else FirstLive(values - {forms[0]}, forms[1..], now)
  }

  function KeysOf(forms: seq<string>): set<string> {
    set f | f in forms
  }

  predicate LiveAt(values: map<string, Entry>, form: string, now: int) {
    form in values && values[form].expiresAt >= now
  }

  /** What is returned is live and under a form, and no form before it is live; nothing is returned exactly
      if no form is live. */
  lemma {:induction false} FirstLiveIs(values: map<string, Entry>, forms: seq<string>, now: int)
    ensures FirstLive(values, forms, now).None? <==> forall i | 0 <= i < |forms| :: !LiveAt(values, forms[i], now)
    ensures FirstLive(values, forms, now).Some? ==>
              exists i :: 0 <= i < |forms| && LiveAt(values, forms[i], now) &&
                          FirstLive(values, forms, now).value == values[forms[i]] &&
                          forall j | 0 <= j < i :: !LiveAt(values, forms[j], now)
  {
    if forms != [] && !LiveAt(values, forms[0], now) {
      var rest := forms[1..];
      FirstLiveIs(values - {forms[0]}, rest, now);
      assert forall i | 0 <= i < |rest| :: rest[i] == forms[i + 1];
      forall i | 0 <= i < |forms|
        ensures LiveAt(values, forms[i], now) <==> i > 0 && LiveAt(values - {forms[0]}, rest[i - 1], now)
      {
      }
      if FirstLive(values, forms, now).Some? {
        var i :| 0 <= i < |rest| && LiveAt(values - {forms[0]}, rest[i], now) &&
                 FirstLive(values - {forms[0]}, rest, now).value == (values - {forms[0]})[rest[i]] &&
                 forall j | 0 <= j < i :: !LiveAt(values - {forms[0]}, rest[j], now);
        assert LiveAt(values, forms[i + 1], now);
      }
    }
  }

  class Store {
    var values: map<string, Entry>
    var now: int

    /** Get and delete, atomically or under the key's lock; an expired value is gone but not returned. */
    method ConsumeSecondaryVerification(form: string) returns (r: Option<Entry>)
      modifies this`values
      ensures values == old(values) - {form}
      ensures r == if form in old(values) && old(values)[form].expiresAt >= now then Some(old(values)[form]) else None
    {
      if form !in values {
        return None;
      }
      var raw := values[form];
      values := values - {form};
      return if raw.expiresAt < now then None else Some(raw);
    }

    /** Consuming an identifier returns its first live form and leaves none of its forms behind. */
    method ConsumeSecondaryVerifications(forms: seq<string>) returns (r: Option<Entry>)
      modifies this`values
      ensures values == old(values) - KeysOf(forms)
      ensures r == FirstLive(old(values), forms, now)
    {
      for i := 0 to |forms|
        invariant values == old(values) - KeysOf(forms[..i])
        invariant FirstLive(old(values), forms, now) == FirstLive(values, forms[i..], now)
      {
        assert forms[i..][1..] == forms[i + 1..] && forms[..i + 1] == forms[..i] + [forms[i]];
        var consumed := ConsumeSecondaryVerification(forms[i]);
        if consumed.Some? {
          assert values == old(values) - KeysOf(forms[..i + 1]);
          for j := 0 to |forms|
            invariant values == old(values) - KeysOf(forms[..i + 1]) - KeysOf(forms[..j])
          {
            assert forms[..j + 1] == forms[..j] + [forms[j]];
            if forms[j] != forms[i] {
              values := values - {forms[j]};
            }
          }
          assert forms[..|forms|] == forms;
          return consumed;
        }
      }
      assert forms[..|forms|] == forms;
      return None;
    }
  }

  // ----- any number of consumers at once

  datatype Progress =
    | Trying(forms: seq<string>, k: nat)
    | Reading(forms: seq<string>, k: nat)                    // holds the lock of forms[k]
    | Deleting(forms: seq<string>, k: nat, entry: Entry)     // holds the lock, has read the value
    | Clearing(forms: seq<string>, k: nat, j: nat, entry: Entry, at: int)   // found it live at that time
    | Done(forms: seq<string>, returned: Option<Entry>, at: int)

  datatype State = State(
    now: int,
    values: map<string, Entry>,
    nextSerial: nat,
    held: map<nat, nat>,
    consumers: map<nat, Progress>,
    taken: map<nat, nat>,            // history: which consumer got which value
    puts: map<nat, (string, int)>)   // history: under which key each value was put, and its expiry

  /** Whether the backend can get and delete in one step; if not, consumers use in-process locks. */
  datatype Backend = Backend(atomic: bool, lock: string -> nat)

  datatype Action =
    | Start(consumer: nat, forms: seq<string>)
    | TakeAtomically(consumer: nat) | Acquire(consumer: nat) | Get(consumer: nat) | Delete(consumer: nat)
    | ClearOne(consumer: nat) | Finish(consumer: nat) | GiveUp(consumer: nat)
    | Put(key: string, expiresAt: int) | Drop(key: string) | Tick(ms: nat)

  const EMPTY := State(0, map[], 0, map[], map[], map[], map[])

  predicate Enabled(b: Backend, s: State, a: Action) {
    match a
    case Start(c, _) => c !in s.consumers
    case TakeAtomically(c) => b.atomic && c in s.consumers && s.consumers[c].Trying? && s.consumers[c].k < |s.consumers[c].forms|
    case Acquire(c) =>
      && !b.atomic && c in s.consumers && s.consumers[c].Trying? && s.consumers[c].k < |s.consumers[c].forms|
      && b.lock(s.consumers[c].forms[s.consumers[c].k]) !in s.held
    case Get(c) => c in s.consumers && s.consumers[c].Reading? && s.consumers[c].k < |s.consumers[c].forms|
    case Delete(c) => c in s.consumers && s.consumers[c].Deleting? && s.consumers[c].k < |s.consumers[c].forms|
    case ClearOne(c) =>
      && c in s.consumers && s.consumers[c].Clearing?
      && s.consumers[c].k < |s.consumers[c].forms| && s.consumers[c].j < |s.consumers[c].forms|
    case Finish(c) => c in s.consumers && s.consumers[c].Clearing? && s.consumers[c].j >= |s.consumers[c].forms|
    case GiveUp(c) => c in s.consumers && s.consumers[c].Trying? && s.consumers[c].k >= |s.consumers[c].forms|
    case Put(_, _) => true
    case Drop(_) => true
    case Tick(_) => true
  }

  function Goes(s: State, c: nat, p: Progress): State {
    s.(consumers := s.consumers[c := p])
  }

  /** Where a consumer goes with the value it took from form `k`. */
  function Judge(now: int, forms: seq<string>, k: nat, entry: Entry): Progress {
    if entry.expiresAt < now then Trying(forms, k + 1) else Clearing(forms, k, 0, entry, now)
  }

  function Apply(b: Backend, s: State, a: Action): State
    requires Enabled(b, s, a)
  {
    match a
    case Start(c, forms) => Goes(s, c, Trying(forms, 0))
    case TakeAtomically(c) =>
      var Trying(forms, k) := s.consumers[c];
      if forms[k] in s.values then
        var entry := s.values[forms[k]];
        Goes(s, c, Judge(s.now, forms, k, entry)).(values := s.values - {forms[k]}, taken := s.taken[entry.serial := c])
      else Goes(s, c, Trying(forms, k + 1))
    case Acquire(c) =>
      var Trying(forms, k) := s.consumers[c];
      Goes(s, c, Reading(forms, k)).(held := s.held[b.lock(forms[k]) := c])
    case Get(c) =>
      var Reading(forms, k) := s.consumers[c];
      if forms[k] in s.values then
        var entry := s.values[forms[k]];
        Goes(s, c, Deleting(forms, k, entry)).(taken := s.taken[entry.serial := c])
      else Goes(s, c, Trying(forms, k + 1)).(held := s.held - {b.lock(forms[k])})
    case Delete(c) =>
      var Deleting(forms, k, entry) := s.consumers[c];
      Goes(s, c, Judge(s.now, forms, k, entry)).(values := s.values - {forms[k]}, held := s.held - {b.lock(forms[k])})
    case ClearOne(c) =>
      var Clearing(forms, k, j, entry, at) := s.consumers[c];
      Goes(s, c, Clearing(forms, k, j + 1, entry, at))
        .(values := if forms[j] == forms[k] then s.values else s.values - {forms[j]})
    case Finish(c) =>
      var Clearing(forms, _, _, entry, at) := s.consumers[c];
      Goes(s, c, Done(forms, Some(entry), at))
    case GiveUp(c) => Goes(s, c, Done(s.consumers[c].forms, None, s.now))
    case Put(key, expiresAt) =>
      s.(values := s.values[key := Entry(s.nextSerial, expiresAt)], nextSerial := s.nextSerial + 1,
         puts := s.puts[s.nextSerial := (key, expiresAt)])
    case Drop(key) => s.(values := s.values - {key})
    case Tick(ms) => s.(now := s.now + ms)
  }

  function Exec(b: Backend, s: State, schedule: seq<Action>): Option<State> {
    if schedule == [] then Some(s)
    else match Exec(b, s, schedule[..|schedule| - 1])
      case None => None
      case Some(s1) =>
        var a := schedule[|schedule| - 1];
        if Enabled(b, s1, a) then Some(Apply(b, s1, a)) else None
  }

  function Holding(p: Progress): Option<nat> {
    match p
    case Deleting(_, _, entry) => Some(entry.serial)
    case Clearing(_, _, _, entry, _) => Some(entry.serial)
    case Done(_, returned, _) => if returned.Some? then Some(returned.value.serial) else None
    case _ => None
  }

  predicate ConsumerOk(b: Backend, s: State, c: nat)
    requires c in s.consumers
  {
    var p := s.consumers[c];
    && (p.Reading? || p.Deleting? ==>
          !b.atomic && p.k < |p.forms| && b.lock(p.forms[p.k]) in s.held && s.held[b.lock(p.forms[p.k])] == c)
    && (Holding(p).Some? ==> Holding(p).value in s.taken && s.taken[Holding(p).value] == c)
  }

  /** A stored value that somebody has already got is about to be deleted by just that consumer. */
  predicate KeyOk(s: State, key: string)
    requires key in s.values
  {
    var serial := s.values[key].serial;
    && serial < s.nextSerial
    && (serial in s.taken ==>
          var c := s.taken[serial];
          c in s.consumers && s.consumers[c].Deleting? &&
          s.consumers[c].k < |s.consumers[c].forms| && s.consumers[c].forms[s.consumers[c].k] == key)
  }

  predicate Inv(b: Backend, s: State) {
    && (forall c | c in s.consumers :: ConsumerOk(b, s, c))
    && (forall key | key in s.values :: KeyOk(s, key))
    && (forall serial | serial in s.taken :: serial < s.nextSerial)
    && (forall x, y | x in s.values && y in s.values && s.values[x].serial == s.values[y].serial :: x == y)
  }

  /** The value a consumer finds, alone with the key, is nobody's yet. */
  lemma Untaken(b: Backend, s: State, c: nat, key: string)
    requires Inv(b, s) && c in s.consumers && key in s.values
    requires b.atomic || (s.consumers[c].Reading? && s.consumers[c].k < |s.consumers[c].forms| &&
                          s.consumers[c].forms[s.consumers[c].k] == key)
    ensures s.values[key].serial !in s.taken
  {
    assert KeyOk(s, key);
    assert ConsumerOk(b, s, c);
  }

  /** The consumer whose step it is. */
  predicate Acts(a: Action, c: nat) {
    match a
    case TakeAtomically(x) => x == c
    case Acquire(x) => x == c
    case Get(x) => x == c
    case Delete(x) => x == c
    case ClearOne(x) => x == c
    case Finish(x) => x == c
    case GiveUp(x) => x == c
    case Start(_, _) => false
    case Put(_, _) => false
    case Drop(_) => false
    case Tick(_) => false
  }

  /** What a consumer holds, another's step leaves it. */
  lemma StepOther(b: Backend, s: State, a: Action, c: nat)
    requires Inv(b, s) && Enabled(b, s, a) && c in s.consumers && !Acts(a, c)
    ensures ConsumerOk(b, Apply(b, s, a), c)
  {
    assert ConsumerOk(b, s, c);
    if a.TakeAtomically? || a.Get? || a.Delete? {
      assert ConsumerOk(b, s, a.consumer);
      if !a.Delete? {
        var key := s.consumers[a.consumer].forms[s.consumers[a.consumer].k];
        if key in s.values { Untaken(b, s, a.consumer, key); }
      }
    }
  }

  lemma StepTaker(b: Backend, s: State, a: Action, c: nat)
    requires Inv(b, s) && Enabled(b, s, a) && c in s.consumers && Acts(a, c)
    requires a.TakeAtomically? || a.Get?
    ensures ConsumerOk(b, Apply(b, s, a), c)
  {
    assert ConsumerOk(b, s, c);
  }

  lemma StepLocker(b: Backend, s: State, a: Action, c: nat)
    requires Inv(b, s) && Enabled(b, s, a) && c in s.consumers && Acts(a, c)
    requires a.Acquire? || a.Delete?
    ensures ConsumerOk(b, Apply(b, s, a), c)
  {
    assert ConsumerOk(b, s, c);
  }

  lemma StepCloser(b: Backend, s: State, a: Action, c: nat)
    requires Inv(b, s) && Enabled(b, s, a) && c in s.consumers && Acts(a, c)
    requires a.ClearOne? || a.Finish? || a.GiveUp?
    ensures ConsumerOk(b, Apply(b, s, a), c)
  {
    assert ConsumerOk(b, s, c);
  }

  lemma StepConsumer(b: Backend, s: State, a: Action, c: nat)
    requires Inv(b, s) && Enabled(b, s, a) && c in Apply(b, s, a).consumers
    ensures ConsumerOk(b, Apply(b, s, a), c)
  {
    if c in s.consumers {
      if a.TakeAtomically? || a.Get? {
        if Acts(a, c) { StepTaker(b, s, a, c); } else { StepOther(b, s, a, c); }
      } else if a.Acquire? || a.Delete? {
        if Acts(a, c) { StepLocker(b, s, a, c); } else { StepOther(b, s, a, c); }
      } else if Acts(a, c) {
        StepCloser(b, s, a, c);
      } else {
        StepOther(b, s, a, c);
      }
    }
  }

  lemma StepKey(b: Backend, s: State, a: Action, key: string)
    requires Inv(b, s) && Enabled(b, s, a) && key in Apply(b, s, a).values
    ensures KeyOk(Apply(b, s, a), key)
  {
    if key in s.values { assert KeyOk(s, key); }
    if a.TakeAtomically? || a.Get? { assert ConsumerOk(b, s, a.consumer); }
  }

  lemma StepInv(b: Backend, s: State, a: Action)
    requires Inv(b, s) && Enabled(b, s, a)
    ensures Inv(b, Apply(b, s, a))
  {
    var s' := Apply(b, s, a);
    forall c | c in s'.consumers ensures ConsumerOk(b, s', c) { StepConsumer(b, s, a, c); }
    forall key | key in s'.values ensures KeyOk(s', key) { StepKey(b, s, a, key); }
    forall key | key in s.values ensures s.values[key].serial < s.nextSerial { assert KeyOk(s, key); }
  }

  lemma {:induction false} ExecInv(b: Backend, schedule: seq<Action>)
    requires Exec(b, EMPTY, schedule).Some?
    ensures Inv(b, Exec(b, EMPTY, schedule).value)
  {
    if schedule != [] {
      var n := |schedule| - 1;
      ExecInv(b, schedule[..n]);
      StepInv(b, Exec(b, EMPTY, schedule[..n]).value, schedule[n]);
    }
  }

  predicate Returned(s: State, c: nat, serial: nat) {
    c in s.consumers && s.consumers[c].Done? && s.consumers[c].returned.Some? && s.consumers[c].returned.value.serial == serial
  }

  /** Over all runs a stored value is returned by at most one consume, with an atomic backend as with
      in-process locks, and it is no longer stored. */
  lemma ReturnedOnce(b: Backend, schedule: seq<Action>, c: nat, d: nat, serial: nat)
    requires Exec(b, EMPTY, schedule).Some?
    requires Returned(Exec(b, EMPTY, schedule).value, c, serial) && Returned(Exec(b, EMPTY, schedule).value, d, serial)
    ensures c == d
    ensures var s := Exec(b, EMPTY, schedule).value;
            forall key | key in s.values :: s.values[key].serial != serial
  {
    ExecInv(b, schedule);
    var s := Exec(b, EMPTY, schedule).value;
    assert ConsumerOk(b, s, c) && ConsumerOk(b, s, d);
    forall key | key in s.values ensures s.values[key].serial != serial {
      assert KeyOk(s, key);
    }
  }

  // ----- what is returned

  /** The value was put under one of the forms, as it is. */
  predicate Genuine(s: State, forms: seq<string>, entry: Entry) {
    entry.serial in s.puts && s.puts[entry.serial].0 in forms && s.puts[entry.serial].1 == entry.expiresAt
  }

  predicate InHand(s: State, p: Progress) {
    match p
    case Trying(_, _) => true
    case Reading(_, _) => true
    case Deleting(forms, _, entry) => Genuine(s, forms, entry)
    case Clearing(forms, _, _, entry, at) => Genuine(s, forms, entry) && at <= entry.expiresAt && at <= s.now
    case Done(forms, returned, at) =>
      at <= s.now && (returned.Some? ==> Genuine(s, forms, returned.value) && at <= returned.value.expiresAt)
  }

  predicate AllInHand(s: State) {
    && (forall serial | serial in s.puts :: serial < s.nextSerial)
    && (forall key | key in s.values :: IsPut(s, key))
    && (forall c | c in s.consumers :: InHand(s, s.consumers[c]))
  }

  /** The value under a key is the one that was last put there. */
  predicate IsPut(s: State, key: string)
    requires key in s.values
  {
    s.values[key].serial in s.puts && s.puts[s.values[key].serial] == (key, s.values[key].expiresAt)
  }

  predicate PutsGrow(s: State, s': State) {
    s'.now >= s.now && forall serial | serial in s.puts :: serial in s'.puts && s'.puts[serial] == s.puts[serial]
  }

  lemma PutsStay(b: Backend, s: State, a: Action)
    requires AllInHand(s) && Enabled(b, s, a)
    ensures PutsGrow(s, Apply(b, s, a))
    ensures forall serial | serial in Apply(b, s, a).puts :: serial < Apply(b, s, a).nextSerial
  {
  }

  lemma ValueStays(b: Backend, s: State, a: Action, key: string)
    requires AllInHand(s) && Enabled(b, s, a) && key in Apply(b, s, a).values
    ensures IsPut(Apply(b, s, a), key)
  {
    if key in s.values { assert IsPut(s, key); }
  }

  lemma InHandStays(s: State, s': State, p: Progress)
    requires InHand(s, p) && PutsGrow(s, s')
    ensures InHand(s', p)
  {
  }

  lemma TakesInHand(b: Backend, s: State, a: Action, c: nat)
    requires AllInHand(s) && Enabled(b, s, a) && c in s.consumers && Acts(a, c) && (a.TakeAtomically? || a.Get?)
    ensures InHand(Apply(b, s, a), Apply(b, s, a).consumers[c])
  {
    var key := s.consumers[c].forms[s.consumers[c].k];
    if key in s.values { assert IsPut(s, key); }
  }

  lemma MovesInHand(b: Backend, s: State, a: Action, c: nat)
    requires AllInHand(s) && Enabled(b, s, a) && c in s.consumers && Acts(a, c) && !a.TakeAtomically? && !a.Get?
    ensures InHand(Apply(b, s, a), Apply(b, s, a).consumers[c])
  {
    assert InHand(s, s.consumers[c]);
  }

  lemma StepInHand(b: Backend, s: State, a: Action)
    requires AllInHand(s) && Enabled(b, s, a)
    ensures AllInHand(Apply(b, s, a))
  {
    var s' := Apply(b, s, a);
    PutsStay(b, s, a);
    forall key | key in s'.values ensures IsPut(s', key) { ValueStays(b, s, a, key); }
    forall c | c in s'.consumers ensures InHand(s', s'.consumers[c]) {
      if c in s.consumers {
        if !Acts(a, c) {
          InHandStays(s, s', s.consumers[c]);
        } else if a.TakeAtomically? || a.Get? {
          TakesInHand(b, s, a, c);
        } else {
          MovesInHand(b, s, a, c);
        }
      }
    }
  }

  lemma {:induction false} ExecInHand(b: Backend, schedule: seq<Action>)
    requires Exec(b, EMPTY, schedule).Some?
    ensures AllInHand(Exec(b, EMPTY, schedule).value)
  {
    if schedule != [] {
      var n := |schedule| - 1;
      ExecInHand(b, schedule[..n]);
      StepInHand(b, Exec(b, EMPTY, schedule[..n]).value, schedule[n]);
    }
  }

  /** In every interleaving, what a consume returns was put under one of the forms it looked for, and had
      not expired when it was judged. */
  lemma ReturnedIsLive(b: Backend, schedule: seq<Action>, c: nat, serial: nat)
    requires Exec(b, EMPTY, schedule).Some? && Returned(Exec(b, EMPTY, schedule).value, c, serial)
    ensures var s := Exec(b, EMPTY, schedule).value;
            var Done(forms, returned, at) := s.consumers[c];
            && serial in s.puts && s.puts[serial].0 in forms && s.puts[serial].1 == returned.value.expiresAt
            && at <= returned.value.expiresAt && at <= s.now
  {
    ExecInHand(b, schedule);
  }
}
