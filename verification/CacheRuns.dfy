/** Every interleaving of Get, Set, Delete, Clear and expiry on one cache.

A Get is a thread that runs step by step: a read under the read lock, the expiry
check, the recheck under the write lock, and the singleflight part under the
in-flight lock.  Loaders run outside every lock.  `Barrier` is the instant of the
last Set, Delete or Clear that concerned a key. */
module CacheRuns {
  import opened Wrappers
  import opened Cache

  type Tid = nat

  /** Where a Get stands. `since` is the key's barrier when the Get began; a step
      with `nested` runs inside the in-flight lock. */
  datatype Pc =
    | Idle
    | Checking(key: Key, since: nat, entry: Entry, nested: bool)
    | Purging(key: Key, since: nat, nested: bool)
    | Missed(key: Key, since: nat)
    | Reading(key: Key, since: nat)
    | Registering(key: Key, since: nat)
    | Loading(key: Key, since: nat, id: CallId)
    | Waiting(key: Key, since: nat, id: CallId)

  predicate HoldsLock(pc: Pc) {
    match pc
    case Checking(_, _, _, nested) => nested
    case Purging(_, _, nested) => nested
    case Reading(_, _) => true
    case Registering(_, _) => true
    case _ => false
  }

  /** A value handed to the caller of a Get that began at barrier `since`; `hit` is the
      time at which it was read from the cache, None if it came from a loader. */
  datatype Answer = Answer(key: Key, since: nat, value: Value, hit: Option<int>)

  datatype State = State(
    store: Store,
    lock: Option<Tid>,
    threads: map<Tid, Pc>,
    clock: nat,
    invalidated: map<Key, nat>,
    cleared: nat,
    answers: seq<Answer>)

  function PcOf(s: State, t: Tid): Pc {
    if t in s.threads then s.threads[t] else Idle
  }

  function Barrier(s: State, k: Key): nat {
    if k in s.invalidated && s.invalidated[k] >= s.cleared then s.invalidated[k] else s.cleared
  }

  datatype Action =
    | GetRead(t: Tid, key: Key)
    | GetCheck(t: Tid, now: int)
    | GetPurge(t: Tid, now: int)
    | LoadLock(t: Tid)
    | LoadRead(t: Tid)
    | LoadRegister(t: Tid, id: CallId)
    | LoaderReturns(t: Tid, loaded: Option<int>, now: int)
    | Collect(t: Tid)
    | Cancel(t: Tid)
    | SetAct(key: Key, data: int, now: int)
    | DeleteAct(key: Key)
    | ClearAct
    | ExpireAct(now: int)

  ghost predicate CanAct(s: State, a: Action) {
    match a
    case GetRead(t, _) => PcOf(s, t).Idle?
    case GetCheck(t, _) => PcOf(s, t).Checking?
    case GetPurge(t, _) => PcOf(s, t).Purging?
    case LoadLock(t) => PcOf(s, t).Missed? && s.lock.None?
    case LoadRead(t) => PcOf(s, t).Reading?
    case LoadRegister(t, id) => PcOf(s, t).Registering? && id !in s.store.calls
    case LoaderReturns(t, _, _) => PcOf(s, t).Loading? && s.lock.None? && PcOf(s, t).id in s.store.calls
    case Collect(t) => PcOf(s, t).Waiting? && PcOf(s, t).id in s.store.calls && s.store.calls[PcOf(s, t).id].done
    case Cancel(t) => PcOf(s, t).Missed? || PcOf(s, t).Waiting?
    case SetAct(_, _, _) => s.lock.None?
    case DeleteAct(_) => s.lock.None?
    case ClearAct => s.lock.None?
    case ExpireAct(_) => true
  }

  function Goto(s: State, t: Tid, pc: Pc): State {
    s.(threads := s.threads[t := pc])
  }

  function Unlock(s: State, nested: bool): State {
    if nested then s.(lock := None) else s
  }

  function Tick(s: State): State {
    s.(clock := s.clock + 1)
  }

  ghost function Act(cfg: Config, s: State, a: Action): State
    requires CanAct(s, a)
  {
    match a
    case GetRead(t, k) =>
      var since := Barrier(s, k);
      Goto(s, t, if k in s.store.entries then Checking(k, since, s.store.entries[k], false) else Missed(k, since))
    case GetCheck(t, now) =>
      var Checking(k, since, e, nested) := PcOf(s, t);
      if e.Stale(now) then Goto(s, t, Purging(k, since, nested))
      else Goto(Unlock(s, nested), t, Idle).(answers := s.answers + [Answer(k, since, e.value, Some(now))])
    case GetPurge(t, now) =>
      var Purging(k, since, nested) := PcOf(s, t);
      Goto(s.(store := Recheck(s.store, k, now)), t, if nested then Registering(k, since) else Missed(k, since))
    case LoadLock(t) =>
      var Missed(k, since) := PcOf(s, t);
      if k in s.store.inflight then Goto(s, t, Waiting(k, since, s.store.inflight[k]))
      else Goto(s.(lock := Some(t)), t, Reading(k, since))
    case LoadRead(t) =>
      var Reading(k, since) := PcOf(s, t);
      Goto(s, t, if k in s.store.entries then Checking(k, since, s.store.entries[k], true) else Registering(k, since))
    case LoadRegister(t, id) =>
      var Registering(k, since) := PcOf(s, t);
      Tick(Goto(s.(store := Register(s.store, k, id, s.clock), lock := None), t, Loading(k, since, id)))
    case LoaderReturns(t, data, now) =>
      var Loading(k, since, id) := PcOf(s, t);
      var result := if data.Some? then Some(Value(data.value, s.store.calls[id].started, now)) else None;
      Goto(s.(store := Complete(cfg, s.store, id, result, now)), t, Waiting(k, since, id))
    case Collect(t) =>
      var Waiting(k, since, id) := PcOf(s, t);
      var call := s.store.calls[id];
      if call.invalidated then Goto(s, t, Missed(k, since))
      else if call.result.None? then Goto(s, t, Idle)
      else Goto(s, t, Idle).(answers := s.answers + [Answer(k, since, call.result.value, None)])
    case Cancel(t) => Goto(s, t, Idle)
    case SetAct(k, data, now) =>
      Tick(s.(store := Cache.Set(cfg, s.store, k, Value(data, s.clock, now), now), invalidated := s.invalidated[k := s.clock]))
    case DeleteAct(k) => Tick(s.(store := Delete(s.store, k), invalidated := s.invalidated[k := s.clock]))
    case ClearAct => Tick(s.(store := Clear(s.store), cleared := s.clock))
    case ExpireAct(now) => s.(store := PurgeExpired(s.store, now))
  }

  // ----- Freshness -----

  /** No cached value is older than its key's barrier. */
  ghost predicate EntriesFresh(s: State) {
    forall k | k in s.store.entries :: s.store.entries[k].value.origin >= Barrier(s, k)
  }

  /** No Get was answered with a value older than the barrier it began at. */
  ghost predicate AnswersFresh(s: State) {
    forall i | 0 <= i < |s.answers| :: s.answers[i].value.origin >= s.answers[i].since
  }

  // Registered calls began after their key's barrier, and a finished call that was
  // not invalidated holds what its own loader returned.
  ghost predicate CallsFresh(s: State) {
    && (forall k | k in s.store.inflight ::
          s.store.inflight[k] in s.store.calls && s.store.calls[s.store.inflight[k]].started >= Barrier(s, k))
    && (forall id | id in s.store.calls && s.store.calls[id].result.Some? ::
          s.store.calls[id].result.value.origin == s.store.calls[id].started)
  }

  ghost predicate Placed(s: State, pc: Pc) {
    match pc
    case Idle => true
    case Checking(k, since, e, _) => since <= Barrier(s, k) && since <= e.value.origin
    case Purging(k, since, _) => since <= Barrier(s, k)
    case Missed(k, since) => since <= Barrier(s, k)
    case Reading(k, since) => since <= Barrier(s, k) && k !in s.store.inflight
    case Registering(k, since) => since <= Barrier(s, k) && k !in s.store.inflight
    case Loading(k, since, id) =>
      id in s.store.calls && s.store.calls[id].started >= since && !s.store.calls[id].done && since <= Barrier(s, k)
    case Waiting(k, since, id) =>
      id in s.store.calls && s.store.calls[id].started >= since && since <= Barrier(s, k)
  }

  // Inside the in-flight lock nobody else touches the in-flight table.
  ghost predicate NestedPlaced(s: State, pc: Pc) {
    (pc.Checking? || pc.Purging?) && HoldsLock(pc) ==> pc.key !in s.store.inflight
  }

  ghost predicate ThreadsPlaced(s: State) {
    && (forall t: Tid :: Placed(s, PcOf(s, t)) && NestedPlaced(s, PcOf(s, t)))
    && (forall t: Tid | HoldsLock(PcOf(s, t)) :: s.lock == Some(t))
    && (forall t: Tid, t': Tid | t != t' && PcOf(s, t).Loading? && PcOf(s, t').Loading? :: PcOf(s, t).id != PcOf(s, t').id)
  }

  ghost predicate ClockAhead(s: State) {
    && s.cleared <= s.clock
    && (forall k | k in s.invalidated :: s.invalidated[k] <= s.clock)
  }

  ghost predicate Inv(cfg: Config, s: State) {
    && Valid(cfg, s.store)
    && EntriesFresh(s) && AnswersFresh(s) && CallsFresh(s) && ThreadsPlaced(s) && ClockAhead(s)
  }

  ghost predicate Init(s: State) {
    s == State(EMPTY, None, map[], 0, map[], 0, [])
  }

  // A thread moves; the store and the barriers stay.
  lemma MoveInv(cfg: Config, s: State, s': State, t: Tid, pc: Pc)
    requires Inv(cfg, s)
    requires s' == Goto(s, t, pc).(lock := s'.lock, answers := s'.answers)
    requires AnswersFresh(s') && Placed(s, pc) && NestedPlaced(s, pc)
    requires !pc.Loading?
    requires s'.lock == if HoldsLock(pc) then Some(t) else if HoldsLock(PcOf(s, t)) then None else s.lock
    requires HoldsLock(pc) ==> s.lock.None? || s.lock == Some(t)
    ensures Inv(cfg, s')
  {
    hide Valid;
    assert forall u: Tid :: PcOf(s', u) == if u == t then pc else PcOf(s, u);
    assert forall k :: Barrier(s', k) == Barrier(s, k);
    assert forall q :: Placed(s', q) <==> Placed(s, q);
    assert forall q :: NestedPlaced(s', q) <==> NestedPlaced(s, q);
    hide Placed, NestedPlaced;
  }

  // The store changes outside the in-flight part: entries go, none come.
  lemma EntriesShrinkInv(cfg: Config, s: State, store: Store)
    requires Inv(cfg, s) && Valid(cfg, store) && OnlyDrops(s.store, store)
    ensures Inv(cfg, s.(store := store))
  {
    hide Valid;
    var s' := s.(store := store);
    assert forall u: Tid :: PcOf(s', u) == PcOf(s, u);
    assert forall k :: Barrier(s', k) == Barrier(s, k);
    assert forall q :: Placed(s', q) <==> Placed(s, q);
    assert forall q :: NestedPlaced(s', q) <==> NestedPlaced(s, q);
    hide Placed, NestedPlaced;
  }

  lemma RegisterInv(cfg: Config, s: State, t: Tid, id: CallId)
    requires Inv(cfg, s) && CanAct(s, LoadRegister(t, id))
    ensures Inv(cfg, Act(cfg, s, LoadRegister(t, id)))
  {
    var Registering(k, since) := PcOf(s, t);
    var s' := Act(cfg, s, LoadRegister(t, id));
    assert Placed(s, PcOf(s, t));
    assert Valid(cfg, s'.store) by {
      RegisterValid(s.store, k, id, s.clock);
    }
    hide Valid, EntriesFresh, CallsFresh, ThreadsPlaced;
    RegisterFresh(s, s', k, id);
    RegisterPlaced(s, s', t, id);
  }

  lemma RegisterFresh(s: State, s': State, k: Key, id: CallId)
    requires EntriesFresh(s) && CallsFresh(s) && ClockAhead(s) && id !in s.store.calls
    requires s'.store == Register(s.store, k, id, s.clock) && s'.invalidated == s.invalidated && s'.cleared == s.cleared
    ensures EntriesFresh(s') && CallsFresh(s')
  {
    assert forall x :: Barrier(s', x) == Barrier(s, x);
    assert Barrier(s, k) <= s.clock;
  }

  lemma RegisterPlaced(s: State, s': State, t: Tid, id: CallId)
    requires ThreadsPlaced(s) && ClockAhead(s) && PcOf(s, t).Registering? && id !in s.store.calls
    requires
      var Registering(k, since) := PcOf(s, t);
      && s'.store == Register(s.store, k, id, s.clock) && s'.lock == None
      && s'.threads == s.threads[t := Loading(k, since, id)]
      && s'.invalidated == s.invalidated && s'.cleared == s.cleared
    ensures ThreadsPlaced(s')
  {
    var Registering(k, since) := PcOf(s, t);
    var pc := Loading(k, since, id);
    assert Placed(s, PcOf(s, t)) && HoldsLock(PcOf(s, t));
    assert forall u: Tid :: PcOf(s', u) == if u == t then pc else PcOf(s, u);
    forall u: Tid
      ensures Placed(s', PcOf(s', u)) && NestedPlaced(s', PcOf(s', u)) && !HoldsLock(PcOf(s', u))
      ensures u != t && PcOf(s', u).Loading? ==> PcOf(s', u).id != id
    {
      assert Placed(s, PcOf(s, u));
      assert Barrier(s, k) <= s.clock;
    }
    hide Placed, NestedPlaced, HoldsLock;
  }

  lemma LoaderReturnsInv(cfg: Config, s: State, t: Tid, data: Option<int>, now: int)
    requires Inv(cfg, s) && CanAct(s, LoaderReturns(t, data, now))
    ensures Inv(cfg, Act(cfg, s, LoaderReturns(t, data, now)))
  {
    var Loading(k, since, id) := PcOf(s, t);
    var call := s.store.calls[id];
    var result := if data.Some? then Some(Value(data.value, call.started, now)) else None;
    var s' := Act(cfg, s, LoaderReturns(t, data, now));
    assert Placed(s, PcOf(s, t));
    CompleteValid(cfg, s.store, id, result, now);
    CompleteFresh(cfg, s, s', id, result, now);
    hide Complete, Valid, EntriesFresh, CallsFresh, ThreadsPlaced;
    LoaderPlaced(s, s', t);
  }

  lemma LoaderPlaced(s: State, s': State, t: Tid)
    requires ThreadsPlaced(s) && PcOf(s, t).Loading? && s.lock.None? && s'.lock.None?
    requires
      var Loading(k, since, id) := PcOf(s, t);
      && s'.threads == s.threads[t := Waiting(k, since, id)]
      && s'.invalidated == s.invalidated && s'.cleared == s.cleared && s'.clock == s.clock
      && s'.store.inflight.Keys <= s.store.inflight.Keys
      && (forall i | i in s.store.calls ::
            i in s'.store.calls && s'.store.calls[i].started == s.store.calls[i].started
            && (i != id ==> s'.store.calls[i] == s.store.calls[i]))
      && id in s'.store.calls && s'.store.calls[id].done
    ensures ThreadsPlaced(s')
  {
    var Loading(k, since, id) := PcOf(s, t);
    assert Placed(s, PcOf(s, t));
    assert forall u: Tid :: PcOf(s', u) == if u == t then Waiting(k, since, id) else PcOf(s, u);
    assert forall x :: Barrier(s', x) == Barrier(s, x);
    forall u: Tid | u != t
      ensures Placed(s', PcOf(s, u)) && NestedPlaced(s', PcOf(s, u)) && !HoldsLock(PcOf(s, u))
    {
      assert Placed(s, PcOf(s, u)) && NestedPlaced(s, PcOf(s, u));
    }
    assert Placed(s', PcOf(s', t)) && NestedPlaced(s', PcOf(s', t));
    hide Placed, NestedPlaced;
  }

  lemma CompleteFresh(cfg: Config, s: State, s': State, id: CallId, result: Option<Value>, now: int)
    requires Valid(cfg, s.store) && EntriesFresh(s) && CallsFresh(s) && id in s.store.calls && !s.store.calls[id].done
    requires result.Some? ==> result.value.origin == s.store.calls[id].started
    requires s'.store == Complete(cfg, s.store, id, result, now)
    requires s'.invalidated == s.invalidated && s'.cleared == s.cleared
    ensures EntriesFresh(s') && CallsFresh(s')
    ensures s'.store.inflight.Keys <= s.store.inflight.Keys
    ensures forall i | i in s.store.calls ::
              i in s'.store.calls && s'.store.calls[i].started == s.store.calls[i].started
              && (i != id ==> s'.store.calls[i] == s.store.calls[i])
  {
    CompleteKeeps(cfg, s.store, id, result, now);
    hide Complete, LastsFrom, Valid;
    assert forall x :: Barrier(s', x) == Barrier(s, x);
    hide Barrier;
    assert CallsFresh(s') by { hide EntriesFresh; }
    forall k | k in s'.store.entries ensures s'.store.entries[k].value.origin >= Barrier(s', k) {
      if k in s.store.entries && s'.store.entries[k] == s.store.entries[k] {
        assert s.store.entries[k].value.origin >= Barrier(s, k);
      } else {
        assert s.store.calls[s.store.inflight[k]].started >= Barrier(s, k);
      }
    }
  }

  // Set, Delete and Clear: the key's call is detached before the barrier moves.
  lemma InvalidateInv(cfg: Config, s: State, s': State)
    requires Inv(cfg, s) && s.lock.None? && Valid(cfg, s'.store)
    requires s' == s.(store := s'.store, invalidated := s'.invalidated, cleared := s'.cleared, clock := s.clock + 1)
    requires forall k :: Barrier(s', k) == Barrier(s, k) || Barrier(s', k) == s.clock
    requires EntriesFresh(s') && ClockAhead(s')
    requires OnlyInvalidates(s.store, s'.store)
    requires forall k | k in s'.store.inflight :: Barrier(s', k) == Barrier(s, k)
    ensures Inv(cfg, s')
  {
    hide Valid;
    assert forall u: Tid :: PcOf(s', u) == PcOf(s, u);
    forall u: Tid ensures Placed(s', PcOf(s, u)) && NestedPlaced(s', PcOf(s, u)) {
      assert Placed(s, PcOf(s, u)) && NestedPlaced(s, PcOf(s, u));
      assert PcOf(s, u).Idle? || Barrier(s, PcOf(s, u).key) <= s.clock;
    }
  }

  lemma SetInv(cfg: Config, s: State, k: Key, data: int, now: int)
    requires Inv(cfg, s) && s.lock.None?
    ensures Inv(cfg, Act(cfg, s, SetAct(k, data, now)))
  {
    var s' := Act(cfg, s, SetAct(k, data, now));
    SetValid(cfg, s.store, k, Value(data, s.clock, now), now);
    hide Valid, Cache.Set, OnlyInvalidates;
    assert forall x :: Barrier(s', x) == if x == k then s.clock else Barrier(s, x);
    InvalidateInv(cfg, s, s');
  }

  lemma DeleteInv(cfg: Config, s: State, k: Key)
    requires Inv(cfg, s) && s.lock.None?
    ensures Inv(cfg, Act(cfg, s, DeleteAct(k)))
  {
    var s' := Act(cfg, s, DeleteAct(k));
    DeleteValid(cfg, s.store, k);
    hide Valid, Delete, OnlyInvalidates;
    assert forall x :: Barrier(s', x) == if x == k then s.clock else Barrier(s, x);
    InvalidateInv(cfg, s, s');
  }

  lemma ClearInv(cfg: Config, s: State)
    requires Inv(cfg, s) && s.lock.None?
    ensures Inv(cfg, Act(cfg, s, ClearAct))
  {
    var s' := Act(cfg, s, ClearAct);
    ClearValid(cfg, s.store);
    assert forall x :: Barrier(s', x) == s.clock;
    assert s'.store.calls.Keys == s.store.calls.Keys;
    InvalidateInv(cfg, s, s');
  }

  lemma ActInv(cfg: Config, s: State, a: Action)
    requires Inv(cfg, s) && CanAct(s, a)
    ensures Inv(cfg, Act(cfg, s, a))
  {
    match a
    case GetPurge(t, now) => GetPurgeInv(cfg, s, t, now);
    case LoadRegister(t, id) => RegisterInv(cfg, s, t, id);
    case LoaderReturns(t, loaded, now) => LoaderReturnsInv(cfg, s, t, loaded, now);
    case SetAct(k, data, now) => SetInv(cfg, s, k, data, now);
    case DeleteAct(k) => DeleteInv(cfg, s, k);
    case ClearAct => ClearInv(cfg, s);
    case ExpireAct(now) => ExpireInv(cfg, s, now);
    case _ => ReadOnlyInv(cfg, s, a);
  }

  // Steps that leave the store alone.
  lemma ReadOnlyInv(cfg: Config, s: State, a: Action)
    requires Inv(cfg, s) && CanAct(s, a)
    requires a.GetRead? || a.GetCheck? || a.LoadLock? || a.LoadRead? || a.Collect? || a.Cancel?
    ensures Inv(cfg, Act(cfg, s, a))
  {
    hide Valid;
    var s' := Act(cfg, s, a);
    var pc := PcOf(s, a.t);
    assert Placed(s, pc) && NestedPlaced(s, pc);
    assert AnswersFresh(s');
    MoveInv(cfg, s, s', a.t, PcOf(s', a.t));
  }

  lemma GetPurgeInv(cfg: Config, s: State, t: Tid, now: int)
    requires Inv(cfg, s) && CanAct(s, GetPurge(t, now))
    ensures Inv(cfg, Act(cfg, s, GetPurge(t, now)))
  {
    var store := Recheck(s.store, PcOf(s, t).key, now);
    RecheckValid(cfg, s.store, PcOf(s, t).key, now);
    EntriesShrinkInv(cfg, s, store);
    hide Inv, Recheck;
    PurgedInv(cfg, s.(store := store), t);
  }

  lemma PurgedInv(cfg: Config, s: State, t: Tid)
    requires Inv(cfg, s) && PcOf(s, t).Purging?
    ensures
      var Purging(k, since, nested) := PcOf(s, t);
      Inv(cfg, Goto(s, t, if nested then Registering(k, since) else Missed(k, since)))
  {
    hide Valid, EntriesFresh, CallsFresh, ClockAhead;
    var Purging(k, since, nested) := PcOf(s, t);
    var pc := if nested then Registering(k, since) else Missed(k, since);
    assert Placed(s, PcOf(s, t)) && NestedPlaced(s, PcOf(s, t));
    MoveInv(cfg, s, Goto(s, t, pc), t, pc);
  }

  lemma ExpireInv(cfg: Config, s: State, now: int)
    requires Inv(cfg, s)
    ensures Inv(cfg, Act(cfg, s, ExpireAct(now)))
  {
    PurgeExpiredValid(cfg, s.store, now);
    hide PurgeExpired, Valid;
    EntriesShrinkInv(cfg, s, PurgeExpired(s.store, now));
  }

  // ----- Runs -----

  ghost predicate Reaches(cfg: Config, s: State, actions: seq<Action>, s': State)
    decreases |actions|
  {
    if actions == [] then s' == s
    else CanAct(s, actions[0]) && Reaches(cfg, Act(cfg, s, actions[0]), actions[1..], s')
  }

  lemma {:induction false} ReachesInv(cfg: Config, s: State, actions: seq<Action>, s': State)
    requires Inv(cfg, s) && Reaches(cfg, s, actions, s')
    ensures Inv(cfg, s')
    decreases |actions|
  {
    if actions != [] {
      ActInv(cfg, s, actions[0]);
      ReachesInv(cfg, Act(cfg, s, actions[0]), actions[1..], s');
    }
  }

  /** On every interleaving: no Get returns, and the cache never holds, a value
      whose loader or Set began before the last invalidation the Get could see. */
  lemma EveryRunIsFresh(cfg: Config, s: State, actions: seq<Action>, s': State)
    requires Init(s) && Reaches(cfg, s, actions, s')
    ensures AnswersFresh(s') && EntriesFresh(s') && Valid(cfg, s'.store)
  {
    ReachesInv(cfg, s, actions, s');
  }
}
