/** Sending audio and revocation notices while sessions are removed concurrently.

Any number of threads run the send path, the send drain and the revocation work
step by step.  Between two steps of one thread any other thread may step and any
registry operation may happen.  A step is a critical section of the registry or
session lock, an acquisition or release of one session's send lock, or one
datagram write.  The log records, in order, what was written and when a drain
returned. */
module Sending {
  import opened Wrappers
  import opened Sessions
  import Packet

  type Tid = nat

  datatype Event =
    | Audio(id: Id, sequence: nat)
    | Revoked(id: Id, sequence: nat)
    | DrainReturned(id: Id)

  /** Where a thread stands. */
  datatype Pc =
    | Idle
    | Found(id: Id)                                 // Send: lookup done, send lock not taken
    | Locked(id: Id)                                // Send: holds the send lock
    | Reserved(id: Id, sequence: nat)               // Send: holds it, about to write
    | Finishing(id: Id)                             // Send: holds it, about to release
    | DrainWaiting(id: Id, revoke: bool)            // drain: wants the send lock
    | DrainHolding(id: Id, revoke: bool)            // drain: holds it
    | RevokeWaiting(id: Id)                         // revocation: wants it again
    | RevokeHolding(id: Id)                         // revocation: holds it
    | RevokeReleasing(id: Id, notice: Option<nat>) // revocation: notice reserved or skipped
    | Notifying(id: Id, sequence: nat)              // revocation: lock released, about to write

  /** The session whose send lock a thread holds. */
  function Held(pc: Pc): Option<Id> {
    match pc
    case Locked(id) => Some(id)
    case Reserved(id, _) => Some(id)
    case Finishing(id) => Some(id)
    case DrainHolding(id, _) => Some(id)
    case RevokeHolding(id) => Some(id)
    case RevokeReleasing(id, _) => Some(id)
    case _ => None
  }

  /** The sequence a thread has reserved and not yet written. */
  function Outstanding(pc: Pc): Option<(Id, nat)> {
    match pc
    case Reserved(id, n) => Some((id, n))
    case RevokeReleasing(id, n) => if n.Some? then Some((id, n.value)) else None
    case Notifying(id, n) => Some((id, n))
    case _ => None
  }

  /** Revocation work handed out by a removal: whether the removal reported a live
      session, and whether a notification handler was installed. */
  datatype Work = Work(notify: bool, wired: bool)

  /** works holds the revocation work of removed sessions.  drained and endings are
      history: the sessions a drain of which has returned, and for each removed
      session whether its deadline still lay ahead. */
  datatype State = State(
    registry: Registry,
    sendLocks: map<Id, Tid>,
    threads: map<Tid, Pc>,
    log: seq<Event>,
    works: map<Id, Work>,
    drained: set<Id>,
    endings: map<Id, bool>)

  function PcOf(s: State, t: Tid): Pc {
    if t in s.threads then s.threads[t] else Idle
  }

  datatype Action =
    | RegistryStep(step: Step, quiet: bool, wired: bool) // quiet: a removal by Delete, not by Revoke
    | SendLookup(t: Tid, id: Id, retain: bool, now: int)
    | SendLock(t: Tid)
    | SendReserve(t: Tid, fits: bool)
    | SendWrite(t: Tid, written: bool)
    | SendUnlock(t: Tid)
    | DrainStart(t: Tid, id: Id, revoke: bool)
    | DrainLock(t: Tid)
    | DrainUnlock(t: Tid)
    | RevokeLock(t: Tid)
    | RevokeReserve(t: Tid)
    | RevokeUnlock(t: Tid)
    | RevokeWrite(t: Tid, written: bool)

  ghost predicate Removed(r: Registry, id: Id) {
    id in r.used && id !in r.sessions
  }

  ghost predicate CanAct(s: State, a: Action) {
    match a
    case RegistryStep(step, _, _) => Valid(s.registry) && Enabled(s.registry, step)
    case SendLookup(t, _, _, _) => Valid(s.registry) && PcOf(s, t).Idle?
    case SendLock(t) => PcOf(s, t).Found? && PcOf(s, t).id !in s.sendLocks
    case SendReserve(t, _) => PcOf(s, t).Locked? && PcOf(s, t).id in s.registry.heap
    case SendWrite(t, _) => PcOf(s, t).Reserved?
    case SendUnlock(t) => PcOf(s, t).Finishing?
    case DrainStart(t, id, revoke) => PcOf(s, t).Idle? && Removed(s.registry, id) && (revoke ==> id in s.works)
    case DrainLock(t) => PcOf(s, t).DrainWaiting? && PcOf(s, t).id !in s.sendLocks
    case DrainUnlock(t) => PcOf(s, t).DrainHolding?
    case RevokeLock(t) => PcOf(s, t).RevokeWaiting? && PcOf(s, t).id !in s.sendLocks
    case RevokeReserve(t) =>
      PcOf(s, t).RevokeHolding? && PcOf(s, t).id in s.registry.heap && PcOf(s, t).id in s.works
    case RevokeUnlock(t) => PcOf(s, t).RevokeReleasing?
    case RevokeWrite(t, _) => PcOf(s, t).Notifying?
  }

  function Goto(s: State, t: Tid, pc: Pc): State {
    s.(threads := s.threads[t := pc])
  }

  function Acquire(s: State, t: Tid, pc: Pc, id: Id): State {
    Goto(s, t, pc).(sendLocks := s.sendLocks[id := t])
  }

  function Release(s: State, t: Tid, pc: Pc, id: Id): State {
    Goto(s, t, pc).(sendLocks := s.sendLocks - {id})
  }

  function Log(s: State, e: Event): State {
    s.(log := s.log + [e])
  }

  function MarkDrained(s: State, id: Id): State {
    Log(s, DrainReturned(id)).(drained := s.drained + {id})
  }

  function ClockOf(step: Step): int {
    if step.ClearBarrierStep? then 0 else step.now
  }

  /** The revocation work that a registry step hands to its caller: replacing,
      invalidating and revoking do, deleting and expiring do not. */
  function WorkOf(r: Registry, step: Step, quiet: bool): Option<(Id, bool)>
    requires r.sessions <= r.heap.Keys && (step.ActivateStep? ==> step.id in r.heap)
  {
    match step
    case ActivateStep(id, expectedOld, allowMissing, retain, now) =>
      var out := Activate(r, id, expectedOld, allowMissing, retain, now).1;
      if out.error.None? && out.removed.Some? then Some((out.removed.value, out.notify)) else None
    case InvalidateStep(user, now) =>
      var out := InvalidateUser(r, user, now).1;
      if out.removed.Some? then Some((out.removed.value, out.notify)) else None
    case RemoveStep(id, user, now) =>
      var out := RemoveOwned(r, id, user, now).1;
      if !quiet && out.removed.Some? then Some((id, out.notify)) else None
    case _ => None
  }

  /** The registry becomes r; sessions that leave the table at `now` have ended. */
  function Become(s: State, r: Registry, now: int): State
    requires s.registry.sessions <= s.registry.heap.Keys
  {
    s.(registry := r,
       endings := s.endings + (map id | id in s.registry.sessions && id !in r.sessions :: !s.registry.heap[id].Expired(now)))
  }

  function Assign(s: State, work: Option<(Id, bool)>, wired: bool): State {
    if work.Some? then s.(works := s.works[work.value.0 := Work(work.value.1, wired)]) else s
  }

  ghost function Act(s: State, a: Action): State
    requires CanAct(s, a)
  {
    match a
    case RegistryStep(step, quiet, wired) =>
      Assign(Become(s, Apply(s.registry, step), ClockOf(step)), WorkOf(s.registry, step, quiet), wired)
    case SendLookup(t, id, retain, now) =>
      var (r, out) := Lookup(s.registry, id, retain, now);
      Goto(Become(s, r, now), t, if out.error.None? then Found(id) else Idle)
    case SendLock(t) => Acquire(s, t, Locked(PcOf(s, t).id), PcOf(s, t).id)
    case SendReserve(t, fits) =>
      var id := PcOf(s, t).id;
      var (session, granted) := ReserveSend(s.registry.heap[id]);
      var s' := s.(registry := WithSession(s.registry, id, session));
      if granted.Granted? && session.remote.Some? && fits
      then Goto(s', t, Reserved(id, granted.sequence)) else Goto(s', t, Finishing(id))
    case SendWrite(t, written) =>
      var Reserved(id, n) := PcOf(s, t);
      var s' := Goto(s, t, Finishing(id));
      if written then Log(s', Audio(id, n)) else s'
    case SendUnlock(t) => Release(s, t, Idle, PcOf(s, t).id)
    case DrainStart(t, id, revoke) => Goto(s, t, DrainWaiting(id, revoke))
    case DrainLock(t) =>
      var DrainWaiting(id, revoke) := PcOf(s, t);
      Acquire(s, t, DrainHolding(id, revoke), id)
    case DrainUnlock(t) =>
      var DrainHolding(id, revoke) := PcOf(s, t);
      Release(MarkDrained(s, id), t, if revoke then RevokeWaiting(id) else Idle, id)
    case RevokeLock(t) => Acquire(s, t, RevokeHolding(PcOf(s, t).id), PcOf(s, t).id)
    case RevokeReserve(t) =>
      var id := PcOf(s, t).id;
      var (session, n) := ReserveRevocation(s.registry.heap[id], s.works[id].notify && s.works[id].wired);
      Goto(s.(registry := WithSession(s.registry, id, session)), t, RevokeReleasing(id, n))
    case RevokeUnlock(t) =>
      var RevokeReleasing(id, n) := PcOf(s, t);
      Release(s, t, if n.Some? then Notifying(id, n.value) else Idle, id)
    case RevokeWrite(t, written) =>
      var Notifying(id, n) := PcOf(s, t);
      var s' := Goto(s, t, Idle);
      if written then Log(s', Revoked(id, n)) else s'
  }

  // ----- What the log promises -----

  /** Audio of a session is written in increasing sequence order. */
  ghost predicate AudioInOrder(log: seq<Event>) {
    forall i, j | 0 <= i < j < |log| && log[i].Audio? && log[j].Audio? && log[i].id == log[j].id ::
      log[i].sequence < log[j].sequence
  }

  /** No two datagrams of a session share a sequence. */
  ghost predicate SequencesUnique(log: seq<Event>) {
    forall i, j | 0 <= i < j < |log| && !log[i].DrainReturned? && !log[j].DrainReturned? && log[i].id == log[j].id ::
      log[i].sequence != log[j].sequence
  }

  /** Once a session's drain has returned, none of its audio is written. */
  ghost predicate NoAudioAfterDrain(log: seq<Event>) {
    forall i, j | 0 <= i < j < |log| && log[i].DrainReturned? && log[j].Audio? :: log[i].id != log[j].id
  }

  /** A revocation notice carries a sequence above all audio of its session. */
  ghost predicate RevocationAboveAudio(log: seq<Event>) {
    forall i, j | 0 <= i < |log| && 0 <= j < |log| && log[i].Audio? && log[j].Revoked? && log[i].id == log[j].id ::
      log[i].sequence < log[j].sequence
  }

  ghost predicate Safe(log: seq<Event>) {
    AudioInOrder(log) && SequencesUnique(log) && NoAudioAfterDrain(log) && RevocationAboveAudio(log)
  }

  // ----- The inductive invariant -----

  // The send lock of a session is held by exactly the thread recorded for it.
  ghost predicate LocksAgree(s: State) {
    && (forall id | id in s.sendLocks :: Held(PcOf(s, s.sendLocks[id])) == Some(id))
    && (forall t: Tid | Held(PcOf(s, t)).Some? ::
          var id := Held(PcOf(s, t)).value; id in s.sendLocks && s.sendLocks[id] == t)
  }

  // Threads name published sessions; drains name removed ones, and revocation
  // work comes after a drain of its session.
  ghost predicate Placed(s: State, pc: Pc) {
    match pc
    case Idle => true
    case Found(id) => id in s.registry.used
    case Locked(id) => id in s.registry.used
    case Reserved(id, _) => id in s.registry.used && id !in s.drained
    case Finishing(id) => id in s.registry.used
    case DrainWaiting(id, _) => Removed(s.registry, id)
    case DrainHolding(id, _) => Removed(s.registry, id)
    case RevokeWaiting(id) => id in s.drained
    case RevokeHolding(id) => id in s.drained
    case RevokeReleasing(id, _) => id in s.drained
    case Notifying(id, _) => id in s.drained
  }

  ghost predicate ThreadsPlaced(s: State) {
    && (forall t: Tid :: Placed(s, PcOf(s, t)))
    && (forall id | id in s.drained :: Removed(s.registry, id))
  }

  // A reserved sequence is the session's own and above all audio written.
  ghost predicate Above(s: State, id: Id, n: nat) {
    && id in s.registry.heap && n <= s.registry.heap[id].sendSeq
    && (forall i | 0 <= i < |s.log| && s.log[i].Audio? && s.log[i].id == id :: s.log[i].sequence < n)
    && (forall i | 0 <= i < |s.log| && s.log[i].Revoked? && s.log[i].id == id :: s.log[i].sequence != n)
  }

  ghost predicate ReservationsAbove(s: State) {
    forall t: Tid | Outstanding(PcOf(s, t)).Some? ::
      Above(s, Outstanding(PcOf(s, t)).value.0, Outstanding(PcOf(s, t)).value.1)
  }

  ghost predicate ReservationsUnique(s: State) {
    forall t: Tid, t': Tid | t != t' && Outstanding(PcOf(s, t)).Some? ::
      Outstanding(PcOf(s, t')) != Outstanding(PcOf(s, t))
  }

  ghost predicate LogWithin(s: State) {
    forall i | 0 <= i < |s.log| ::
      && s.log[i].id in s.registry.heap
      && (s.log[i].DrainReturned? || s.log[i].Revoked? ==> s.log[i].id in s.drained)
      && (!s.log[i].DrainReturned? ==> s.log[i].sequence <= s.registry.heap[s.log[i].id].sendSeq)
  }

  ghost predicate Inv(s: State) {
    && Valid(s.registry)
    && LocksAgree(s)
    && ThreadsPlaced(s)
    && ReservationsAbove(s)
    && ReservationsUnique(s)
    && LogWithin(s)
    && Safe(s.log)
  }

  ghost predicate Init(s: State) {
    s == State(EMPTY, map[], map[], [], map[], {}, map[])
  }

  lemma InitInv(s: State)
    requires Init(s)
    ensures Inv(s)
  {}

  // ----- Preservation -----

  lemma RegistryKeepsInv(s: State, r: Registry)
    requires Inv(s) && Valid(r) && Keeps(s.registry, r)
    ensures Inv(s.(registry := r))
  {
    var s' := s.(registry := r);
    assert forall id :: Removed(s.registry, id) ==> Removed(r, id);
    assert forall t: Tid :: PcOf(s', t) == PcOf(s, t);
    assert forall id: Id, n: nat :: Above(s, id, n) ==> Above(s', id, n);
    assert forall pc :: Placed(s, pc) ==> Placed(s', pc);
  }

  // No part of the invariant looks at the works or at how sessions ended.
  lemma HistoryInv(s: State, works: map<Id, Work>, endings: map<Id, bool>)
    requires Inv(s)
    ensures Inv(s.(works := works, endings := endings))
  {
    var s' := s.(works := works, endings := endings);
    SameGround(s, s');
    hide Above, Placed, LogWithin, Safe, Valid, Removed;
    assert forall t: Tid :: PcOf(s', t) == PcOf(s, t);
  }

  lemma SameGround(s: State, s': State)
    requires s'.registry == s.registry && s'.log == s.log && s'.drained == s.drained
    ensures forall id: Id, n: nat :: Above(s', id, n) <==> Above(s, id, n)
    ensures forall pc: Pc :: Placed(s', pc) <==> Placed(s, pc)
    ensures LogWithin(s') <==> LogWithin(s)
  {}

  // A thread that moves without taking or releasing a lock and without reserving
  // or writing anything.
  lemma MoveInv(s: State, t: Tid, pc: Pc)
    requires Inv(s) && Placed(s, pc) && Held(pc) == Held(PcOf(s, t))
    requires Outstanding(pc).None?
    ensures Inv(Goto(s, t, pc))
  {
    var s' := Goto(s, t, pc);
    SameGround(s, s');
    hide Above, Placed, LogWithin, Safe, Valid, Removed;
    assert forall u: Tid :: PcOf(s', u) == if u == t then pc else PcOf(s, u);
    assert LocksAgree(s') by {
      hide ReservationsUnique, ReservationsAbove, ThreadsPlaced;
    }
    hide LocksAgree;
    assert ReservationsUnique(s');
  }

  lemma AcquireInv(s: State, t: Tid, id: Id, pc: Pc)
    requires Inv(s) && id !in s.sendLocks && Placed(s, pc)
    requires Held(PcOf(s, t)).None? && Held(pc) == Some(id) && Outstanding(pc).None?
    ensures Inv(Acquire(s, t, pc, id))
  {
    var s' := Acquire(s, t, pc, id);
    SameGround(s, s');
    hide Above, Placed, LogWithin, Safe, Valid, Removed;
    assert forall u: Tid :: PcOf(s', u) == if u == t then pc else PcOf(s, u);
    assert LocksAgree(s') by {
      hide ReservationsUnique, ReservationsAbove, ThreadsPlaced;
    }
    hide LocksAgree;
    assert ReservationsUnique(s');
  }

  lemma ReleaseInv(s: State, t: Tid, id: Id, pc: Pc)
    requires Inv(s) && Placed(s, pc)
    requires Held(PcOf(s, t)) == Some(id) && Held(pc).None? && Outstanding(pc) == Outstanding(PcOf(s, t))
    ensures Inv(Release(s, t, pc, id))
  {
    var s' := Release(s, t, pc, id);
    SameGround(s, s');
    hide Above, Placed, LogWithin, Safe, Valid, Removed;
    assert forall u: Tid :: PcOf(s', u) == if u == t then pc else PcOf(s, u);
    assert LocksAgree(s') by {
      hide ReservationsUnique, ReservationsAbove, ThreadsPlaced;
    }
    hide LocksAgree;
    assert ReservationsUnique(s');
  }

  // Reserving the next sequence of a session: nobody else has it.
  lemma ReserveInv(s: State, t: Tid, id: Id, next: Session, pc: Pc)
    requires Inv(s) && id in s.registry.used && Placed(s, pc)
    requires next == s.registry.heap[id].(sendSeq := s.registry.heap[id].sendSeq + 1) && next.sendSeq <= MAX_UINT64
    requires Held(PcOf(s, t)) == Held(pc) == Some(id)
    requires Outstanding(pc).None? || Outstanding(pc) == Some((id, next.sendSeq))
    ensures Inv(Goto(s.(registry := WithSession(s.registry, id, next)), t, pc))
  {
    var s' := Goto(s.(registry := WithSession(s.registry, id, next)), t, pc);
    ReserveGround(s, s', id, next);
    hide Above, Placed, LogWithin, Safe, Valid, Removed;
    assert forall u: Tid :: PcOf(s', u) == if u == t then pc else PcOf(s, u);
    assert LocksAgree(s') by {
      hide ReservationsUnique, ReservationsAbove, ThreadsPlaced;
    }
    hide LocksAgree;
    assert ReservationsUnique(s');
  }

  lemma ReserveGround(s: State, s': State, id: Id, next: Session)
    requires Valid(s.registry) && LogWithin(s) && id in s.registry.used
    requires next == s.registry.heap[id].(sendSeq := s.registry.heap[id].sendSeq + 1) && next.sendSeq <= MAX_UINT64
    requires s'.registry == WithSession(s.registry, id, next) && s'.log == s.log && s'.drained == s.drained
    ensures Valid(s'.registry) && LogWithin(s')
    ensures forall i: Id :: Removed(s'.registry, i) <==> Removed(s.registry, i)
    ensures forall pc: Pc :: Placed(s', pc) <==> Placed(s, pc)
    ensures forall i: Id, n: nat :: Above(s, i, n) ==> Above(s', i, n) && (i == id ==> n < next.sendSeq)
    ensures Above(s', id, next.sendSeq)
  {}

  lemma WriteAudioInv(s: State, t: Tid, id: Id, n: nat)
    requires Inv(s) && PcOf(s, t) == Reserved(id, n)
    ensures Inv(Log(Goto(s, t, Finishing(id)), Audio(id, n)))
  {
    var s' := Log(Goto(s, t, Finishing(id)), Audio(id, n));
    assert forall u: Tid :: PcOf(s', u) == if u == t then Finishing(id) else PcOf(s, u);
    assert forall q :: Placed(s', q) <==> Placed(s, q);
    assert Placed(s, PcOf(s, t)) && Above(s, id, n);
    assert ReservationsAbove(s') by {
      forall u: Tid | Outstanding(PcOf(s', u)).Some?
        ensures Above(s', Outstanding(PcOf(s', u)).value.0, Outstanding(PcOf(s', u)).value.1)
      {
        OthersReserveElsewhere(s, t, u, id, n);
      }
    }
    AudioKeepsLogSafe(s, id, n);
  }

  // While a thread is about to write audio, no other has a sequence of its session.
  lemma OthersReserveElsewhere(s: State, t: Tid, u: Tid, id: Id, n: nat)
    requires Inv(s) && PcOf(s, t) == Reserved(id, n) && u != t && Outstanding(PcOf(s, u)).Some?
    ensures Outstanding(PcOf(s, u)).value.0 != id
  {
    assert Placed(s, PcOf(s, t)) && Placed(s, PcOf(s, u));
    assert Held(PcOf(s, t)) == Some(id);
    assert Held(PcOf(s, u)) != Some(id);
  }

  lemma AudioKeepsLogSafe(s: State, id: Id, n: nat)
    requires LogWithin(s) && Safe(s.log) && Above(s, id, n) && id !in s.drained
    ensures Safe(s.log + [Audio(id, n)])
  {
    assert forall i | 0 <= i < |s.log| && s.log[i].id == id :: s.log[i].Audio? && s.log[i].sequence < n;
  }

  // A drain that holds the send lock shuts out every reserved audio write.
  lemma MarkDrainedInv(s: State, t: Tid, id: Id)
    requires Inv(s) && PcOf(s, t).DrainHolding? && PcOf(s, t).id == id
    ensures Inv(MarkDrained(s, id))
  {
    var s' := MarkDrained(s, id);
    assert Held(PcOf(s, t)) == Some(id) && Placed(s, PcOf(s, t));
    DrainGround(s, s', id);
    hide Above, LogWithin, Safe, Valid;
    forall u: Tid ensures PcOf(s', u) == PcOf(s, u) && Placed(s', PcOf(s, u)) {
      assert Placed(s, PcOf(s, u));
      assert u != t ==> Held(PcOf(s, u)) != Some(id);
    }
    hide Placed;
    assert LocksAgree(s') && ReservationsUnique(s') && ReservationsAbove(s');
  }

  lemma DrainReturnInv(s: State, t: Tid, id: Id, pc: Pc)
    requires Inv(s) && PcOf(s, t).DrainHolding? && PcOf(s, t).id == id
    requires pc == RevokeWaiting(id) || pc == Idle
    ensures Inv(Release(MarkDrained(s, id), t, pc, id))
  {
    MarkDrainedInv(s, t, id);
    hide Inv;
    ReleaseInv(MarkDrained(s, id), t, id, pc);
  }

  lemma DrainGround(s: State, s': State, id: Id)
    requires LogWithin(s) && Safe(s.log) && id in s.registry.heap
    requires s'.registry == s.registry && s'.log == s.log + [DrainReturned(id)] && s'.drained == s.drained + {id}
    ensures LogWithin(s') && Safe(s'.log)
    ensures forall i: Id, n: nat :: Above(s, i, n) ==> Above(s', i, n)
  {}

  lemma WriteRevokedInv(s: State, t: Tid, id: Id, n: nat)
    requires Inv(s) && PcOf(s, t) == Notifying(id, n)
    ensures Inv(Log(Goto(s, t, Idle), Revoked(id, n)))
  {
    var s' := Log(Goto(s, t, Idle), Revoked(id, n));
    assert Outstanding(PcOf(s, t)) == Some((id, n)) && Placed(s, PcOf(s, t)) && Above(s, id, n);
    RevokedGround(s, s', id, n);
    hide Above, Placed, LogWithin, Safe, Valid, Removed;
    assert forall u: Tid :: PcOf(s', u) == if u == t then Idle else PcOf(s, u);
  }

  lemma RevokedGround(s: State, s': State, id: Id, n: nat)
    requires LogWithin(s) && Safe(s.log) && Above(s, id, n) && id in s.drained
    requires s'.registry == s.registry && s'.log == s.log + [Revoked(id, n)] && s'.drained == s.drained
    ensures LogWithin(s') && Safe(s'.log) && Placed(s', Idle)
    ensures forall pc: Pc :: Placed(s', pc) <==> Placed(s, pc)
    ensures forall i: Id, m: nat :: Above(s, i, m) && (i, m) != (id, n) ==> Above(s', i, m)
  {
    assert forall i: Id, m: nat :: Above(s, i, m) && (i, m) != (id, n) ==> Above(s', i, m) by { hide Safe, LogWithin; }
    assert Safe(s'.log) by { hide Placed; }
    hide Above, Safe;
  }

  lemma ActInv(s: State, a: Action)
    requires Inv(s) && CanAct(s, a)
    ensures Inv(Act(s, a))
  {
    hide Safe, Above, LogWithin, ReservationsUnique, ReservationsAbove, LocksAgree;
    match a
    case RegistryStep(step, quiet, wired) =>
      StepValid(s.registry, step);
      RegistryKeepsInv(s, Apply(s.registry, step));
      HistoryInv(s.(registry := Apply(s.registry, step)), Act(s, a).works, Act(s, a).endings);
    case SendLookup(t, id, retain, now) => SendLookupInv(s, t, id, retain, now);
    case SendLock(t) => AcquireInv(s, t, PcOf(s, t).id, Locked(PcOf(s, t).id));
    case SendReserve(t, fits) => SendReserveInv(s, t, fits);
    case SendWrite(t, written) =>
      var Reserved(id, n) := PcOf(s, t);
      if written {
        WriteAudioInv(s, t, id, n);
      } else {
        MoveInv(s, t, Finishing(id));
      }
    case SendUnlock(t) => ReleaseInv(s, t, PcOf(s, t).id, Idle);
    case DrainStart(t, id, revoke) => MoveInv(s, t, DrainWaiting(id, revoke));
    case DrainLock(t) => AcquireInv(s, t, PcOf(s, t).id, DrainHolding(PcOf(s, t).id, PcOf(s, t).revoke));
    case DrainUnlock(t) =>
      var DrainHolding(id, revoke) := PcOf(s, t);
      DrainReturnInv(s, t, id, if revoke then RevokeWaiting(id) else Idle);
    case RevokeLock(t) => AcquireInv(s, t, PcOf(s, t).id, RevokeHolding(PcOf(s, t).id));
    case RevokeReserve(t) => RevokeReserveInv(s, t);
    case RevokeUnlock(t) =>
      var RevokeReleasing(id, n) := PcOf(s, t);
      ReleaseInv(s, t, id, if n.Some? then Notifying(id, n.value) else Idle);
    case RevokeWrite(t, written) =>
      var Notifying(id, n) := PcOf(s, t);
      if written {
        WriteRevokedInv(s, t, id, n);
      } else {
        MoveInv(s, t, Idle);
      }
  }

  lemma SendReserveInv(s: State, t: Tid, fits: bool)
    requires Inv(s) && CanAct(s, SendReserve(t, fits))
    ensures Inv(Act(s, SendReserve(t, fits)))
  {
    var id := PcOf(s, t).id;
    var (next, granted) := ReserveSend(s.registry.heap[id]);
    var pc := if granted.Granted? && next.remote.Some? && fits then Reserved(id, granted.sequence) else Finishing(id);
    if next == s.registry.heap[id] {
      assert WithSession(s.registry, id, next) == s.registry;
      MoveInv(s, t, pc);
    } else {
      ReserveInv(s, t, id, next, pc);
    }
  }

  lemma SendLookupInv(s: State, t: Tid, id: Id, retain: bool, now: int)
    requires Inv(s) && CanAct(s, SendLookup(t, id, retain, now))
    ensures Inv(Act(s, SendLookup(t, id, retain, now)))
  {
    var (r, out) := Lookup(s.registry, id, retain, now);
    LookupValid(s.registry, id, retain, now);
    var s' := Become(s, r, now);
    assert Placed(s', if out.error.None? then Found(id) else Idle);
    hide Safe, Above, LogWithin, ReservationsUnique, ReservationsAbove, LocksAgree, Placed, Valid, Keeps, Lookup;
    RegistryKeepsInv(s, r);
    HistoryInv(s.(registry := r), s.works, s'.endings);
    MoveInv(s', t, if out.error.None? then Found(id) else Idle);
  }

  lemma RevokeReserveInv(s: State, t: Tid)
    requires Inv(s) && CanAct(s, RevokeReserve(t))
    ensures Inv(Act(s, RevokeReserve(t)))
  {
    var id := PcOf(s, t).id;
    var (next, n) := ReserveRevocation(s.registry.heap[id], s.works[id].notify && s.works[id].wired);
    if n.None? {
      assert WithSession(s.registry, id, next) == s.registry;
      MoveInv(s, t, RevokeReleasing(id, n));
    } else {
      ReserveInv(s, t, id, next, RevokeReleasing(id, n));
    }
  }

  // ----- Runs -----

  ghost predicate Reaches(s: State, actions: seq<Action>, s': State)
    decreases |actions|
  {
    if actions == [] then s' == s
    else CanAct(s, actions[0]) && Reaches(Act(s, actions[0]), actions[1..], s')
  }

  lemma {:induction false} ReachesInv(s: State, actions: seq<Action>, s': State)
    requires Inv(s) && Reaches(s, actions, s')
    ensures Inv(s')
    decreases |actions|
  {
    if actions != [] {
      ActInv(s, actions[0]);
      ReachesInv(Act(s, actions[0]), actions[1..], s');
    }
  }

  /** On every interleaving: audio in increasing order, no sequence used twice,
      no audio after a drain, and revocation notices above all audio. */
  lemma EveryRunIsSafe(s: State, actions: seq<Action>, s': State)
    requires Init(s) && Reaches(s, actions, s')
    ensures Safe(s'.log)
  {
    InitInv(s);
    ReachesInv(s, actions, s');
  }

  /** Hence no two datagrams sent under one session's key share a GCM nonce. */
  lemma EveryRunHasFreshNonces(s: State, actions: seq<Action>, s': State, i: nat, j: nat)
    requires Init(s) && Reaches(s, actions, s')
    requires i < j < |s'.log| && s'.log[i].id == s'.log[j].id
    requires !s'.log[i].DrainReturned? && !s'.log[j].DrainReturned?
    ensures s'.log[i].sequence <= MAX_UINT64 && s'.log[j].sequence <= MAX_UINT64
    ensures Packet.NonceFor(s'.log[i].sequence) != Packet.NonceFor(s'.log[j].sequence)
  {
    InitInv(s);
    ReachesInv(s, actions, s');
    Packet.NonceInjective(s'.log[i].sequence, s'.log[j].sequence);
  }
}
