/** The in-memory registry of voice sessions: at most one session a user.

Every function below is one critical section of the registry lock, with one clock
sample.  A session is named by its fresh random id; `heap` keeps every session
ever prepared, so that what happens to a removed session can be stated. */
module Sessions {
  import opened Wrappers

  const SESSION_TTL: int := 90_000 // milliseconds
  const MAX_UINT64: int := 0xFFFF_FFFF_FFFF_FFFF

  type Id = nat
  type User = int
  type Remote = nat

  datatype Session = Session(
    userID: User,
    expiresAt: int,
    active: bool,
    remote: Option<Remote>,
    encrypted: bool,
    keyed: bool,
    sendSeq: nat)
  {
    predicate Expired(now: int) {
      now >= expiresAt
    }
  }

  datatype Registry = Registry(
    heap: map<Id, Session>,
    sessions: set<Id>,
    byUser: map<User, Id>,
    barriers: set<Id>,
    used: set<Id>)

  const EMPTY := Registry(map[], {}, map[], {}, {})

  datatype Error = InvalidUserID | Precondition | Expired | NotFound | NotOwned | SequenceExhausted | NoKey

  /** Outcome of a removal: `removed` is the session taken out of the table by this
      call, `drain` the one whose send barrier the caller must run, and `notify`
      tells whether a revocation may be announced. */
  datatype Outcome = Outcome(error: Option<Error>, removed: Option<Id>, drain: Option<Id>, notify: bool)

  /** Table and index agree: they are inverse maps, so no user has two sessions;
      every tabled session is live and every removed one is dead. */
  ghost predicate Valid(r: Registry) {
    && r.sessions <= r.used <= r.heap.Keys
    && (forall u | u in r.byUser :: r.byUser[u] in r.sessions && r.heap[r.byUser[u]].userID == u)
    && (forall id | id in r.sessions ::
          r.heap[id].userID in r.byUser && r.byUser[r.heap[id].userID] == id)
    && (forall id | id in r.heap :: r.heap[id].active <==> id in r.sessions || id !in r.used)
    && r.barriers <= r.used - r.sessions
    && (forall id | id in r.heap :: r.heap[id].sendSeq <= MAX_UINT64)
  }

  function Deactivate(r: Registry, id: Id): Registry
    requires id in r.heap
  {
    r.(heap := r.heap[id := r.heap[id].(active := false)])
  }

  // deleteLocked: the user index entry goes only if it still names this session.
  function DeleteLocked(r: Registry, id: Id, user: User): Registry {
    r.(sessions := r.sessions - {id},
       byUser := if user in r.byUser && r.byUser[user] == id then r.byUser - {user} else r.byUser)
  }

  function Remove(r: Registry, id: Id): Registry
    requires id in r.heap
  {
    DeleteLocked(Deactivate(r, id), id, r.heap[id].userID)
  }

  // Natural expiry keeps a barrier when the staged expiry callback is installed.
  function Expire(r: Registry, id: Id, retain: bool): Registry
    requires id in r.heap
  {
    var gone := Remove(r, id);
    if retain then gone.(barriers := gone.barriers + {id}) else gone
  }

  function PendingDrain(r: Registry, id: Id): Option<Id> {
    if id in r.barriers then Some(id) else None
  }

  // ----- Operations -----

  function Prepare(r: Registry, id: Id, user: User, encrypted: bool, now: int): (Registry, Option<Error>)
  {
    if user <= 0 then (r, Some(InvalidUserID))
    else (r.(heap := r.heap[id := Session(user, now + SESSION_TTL, true, None, encrypted, encrypted, 0)]), None)
  }

  function Activate(r: Registry, prepared: Id, expectedOld: Option<Id>, allowMissing: bool, retain: bool, now: int)
    : (Registry, Outcome)
    requires prepared in r.heap && r.sessions <= r.heap.Keys
  {
    var user := r.heap[prepared].userID;
    var current := if user in r.byUser then Some(r.byUser[user]) else None;
    if prepared in r.used then (r, Outcome(Some(Precondition), None, None, false))
    else if expectedOld.Some? && current != expectedOld && !(allowMissing && current.None?) then
      (r, Outcome(Some(Precondition), None, None, false))
    else if expectedOld.Some? && current.Some? && current.value !in r.sessions then
      (r, Outcome(Some(Precondition), None, None, false))
    else if expectedOld.Some? && current.Some? && r.heap[current.value].Expired(now) then
      (Expire(r, current.value, retain), Outcome(Some(Expired), Some(current.value), None, false))
    else if r.heap[prepared].Expired(now) then (r, Outcome(Some(Expired), None, None, false))
    else
      var missing := if allowMissing && expectedOld.Some? && current.None?
                     then PendingDrain(r, expectedOld.value) else None;
      var prior := if current.Some? && current.value in r.sessions then current else None;
      var cleared := (if prior.Some? then Deactivate(r, prior.value) else r)
                     .(sessions := if prior.Some? then r.sessions - {prior.value} else r.sessions,
                       byUser := r.byUser - {user},
                       used := r.used + {prepared});
      (cleared.(sessions := cleared.sessions + {prepared}, byUser := cleared.byUser[user := prepared]),
       Outcome(None, prior, if prior.Some? then prior else missing,
               prior.Some? && !r.heap[prior.value].Expired(now)))
  }

  /** getSessionStaged: an expired session is removed by the lookup that finds it. */
  function Lookup(r: Registry, id: Id, retain: bool, now: int): (Registry, Outcome)
    requires r.sessions <= r.heap.Keys
  {
    if id !in r.sessions then (r, Outcome(Some(NotFound), None, PendingDrain(r, id), false))
    else if !r.heap[id].Expired(now) then (r, Outcome(None, None, None, false))
    else (Expire(r, id, retain), Outcome(Some(NotFound), Some(id), Some(id), false))
  }

  function LookupUser(r: Registry, user: User, retain: bool, now: int): (Registry, Option<Id>)
    requires r.sessions <= r.heap.Keys
  {
    if user !in r.byUser then (r, None)
    else
      var id := r.byUser[user];
      if id !in r.sessions then (r.(byUser := r.byUser - {user}), None)
      else if !r.heap[id].Expired(now) then (r, Some(id))
      else (Expire(r, id, retain), None)
  }

  function InvalidateUser(r: Registry, user: User, now: int): (Registry, Outcome)
    requires r.sessions <= r.heap.Keys
  {
    if user !in r.byUser then (r, Outcome(None, None, None, false))
    else
      var id := r.byUser[user];
      if id !in r.sessions then (r.(byUser := r.byUser - {user}), Outcome(None, None, None, false))
      else
        var off := Deactivate(r, id);
        (off.(sessions := off.sessions - {id}, byUser := off.byUser - {user}),
         Outcome(None, Some(id), Some(id), !r.heap[id].Expired(now)))
  }

  /** DeleteStaged and revokeStaged: only the owner's live session is taken. */
  function RemoveOwned(r: Registry, id: Id, user: User, now: int): (Registry, Outcome)
    requires r.sessions <= r.heap.Keys
  {
    if id !in r.sessions then (r, Outcome(Some(NotFound), None, PendingDrain(r, id), false))
    else if r.heap[id].userID != user then (r, Outcome(Some(NotOwned), None, None, false))
    else
      var expired := r.heap[id].Expired(now);
      (Remove(r, id), Outcome(if expired then Some(NotFound) else None, Some(id), Some(id), !expired))
  }

  /** Purge: the one full scan, expiring every session past its deadline. */
  ghost function Purge(r: Registry, retain: bool, now: int): Registry
    requires r.sessions <= r.heap.Keys
  {
    var dead := set id | id in r.sessions && r.heap[id].Expired(now);
    r.(heap := map id | id in r.heap :: if id in dead then r.heap[id].(active := false) else r.heap[id],
       sessions := r.sessions - dead,
       byUser := map u | u in r.byUser && r.byUser[u] !in dead :: r.byUser[u],
       barriers := if retain then r.barriers + dead else r.barriers)
  }

  function ClearBarrier(r: Registry, id: Id): Registry {
    r.(barriers := r.barriers - {id})
  }

  /** An authenticated, fresh packet slides the deadline; only one that advances
      the replay window may move the learned address. */
  function Touch(s: Session, now: int, advanced: bool, remote: Option<Remote>): Session {
    s.(expiresAt := now + SESSION_TTL, remote := if advanced && remote.Some? then remote else s.remote)
  }

  function Receive(r: Registry, id: Id, now: int, advanced: bool, remote: Option<Remote>): Registry
    requires id in r.heap
  {
    if !r.heap[id].active then r else r.(heap := r.heap[id := Touch(r.heap[id], now, advanced, remote)])
  }

  datatype Reservation = Granted(sequence: nat) | Refused(error: Error)

  // A reservation is never rolled back, even when no key is found after it.
  function ReserveSend(s: Session): (Session, Reservation) {
    if !s.active then (s, Refused(NotFound))
    else if s.sendSeq >= MAX_UINT64 then (s, Refused(SequenceExhausted))
    else
      var next := s.(sendSeq := s.sendSeq + 1);
      if s.encrypted && !s.keyed then (next, Refused(NoKey)) else (next, Granted(next.sendSeq))
  }

  // The sequence of a revocation notice, when one can be sent at all.
  function ReserveRevocation(s: Session, notify: bool): (Session, Option<nat>) {
    if notify && s.remote.Some? && s.sendSeq < MAX_UINT64
    then (s.(sendSeq := s.sendSeq + 1), Some(s.sendSeq + 1))
    else (s, None)
  }

  function WithSession(r: Registry, id: Id, s: Session): Registry {
    r.(heap := r.heap[id := s])
  }

  // ----- Every operation keeps the registry valid -----

  // What no registry operation undoes or touches.
  ghost predicate Keeps(r: Registry, r': Registry) {
    && r.used <= r'.used
    && (forall id | id in r.heap && id in r.used && id !in r.sessions ::
          id in r'.heap && id !in r'.sessions && !r'.heap[id].active)
    && (forall id | id in r.heap ::
          && id in r'.heap
          && r'.heap[id].sendSeq == r.heap[id].sendSeq
          && r'.heap[id].userID == r.heap[id].userID
          && (!r.heap[id].active ==> r'.heap[id] == r.heap[id]))
  }

  lemma RemoveValid(r: Registry, id: Id)
    requires Valid(r) && id in r.sessions
    ensures Valid(Remove(r, id)) && Keeps(r, Remove(r, id))
    ensures Remove(r, id).byUser == r.byUser - {r.heap[id].userID}
  {}

  lemma ExpireValid(r: Registry, id: Id, retain: bool)
    requires Valid(r) && id in r.sessions
    ensures Valid(Expire(r, id, retain)) && Keeps(r, Expire(r, id, retain))
  {
    RemoveValid(r, id);
  }

  lemma PrepareValid(r: Registry, id: Id, user: User, encrypted: bool, now: int)
    requires Valid(r) && id !in r.heap
    ensures
      var (r', error) := Prepare(r, id, user, encrypted, now);
      && Valid(r') && Keeps(r, r') && (error.None? <==> user > 0) && r'.sessions == r.sessions && r'.byUser == r.byUser
      && (error.None? ==> id in r'.heap && r'.heap[id].userID == user && !r'.heap[id].Expired(now) && r'.heap[id].active)
  {}

  function Publish(r: Registry, id: Id): Registry
    requires id in r.heap
  {
    r.(used := r.used + {id}, sessions := r.sessions + {id}, byUser := r.byUser[r.heap[id].userID := id])
  }

  // Publishing an unused session for a user whose index entry was cleared.
  lemma PublishValid(r: Registry, id: Id)
    requires Valid(r) && id in r.heap && id !in r.used && r.heap[id].userID !in r.byUser
    ensures Valid(Publish(r, id)) && Keeps(r, Publish(r, id))
  {}

  // A successful activation removes the user's current session, then publishes.
  lemma ActivateSteps(r: Registry, prepared: Id, expectedOld: Option<Id>, allowMissing: bool, retain: bool, now: int)
    requires Valid(r) && prepared in r.heap
    ensures
      var (r', out) := Activate(r, prepared, expectedOld, allowMissing, retain, now);
      var user := r.heap[prepared].userID;
      out.error.None? ==>
        r' == Publish(if user in r.byUser then Remove(r, r.byUser[user]) else r, prepared)
  {
    var r' := Activate(r, prepared, expectedOld, allowMissing, retain, now).0;
    var user := r.heap[prepared].userID;
    if user in r.byUser {
      RemoveValid(r, r.byUser[user]);
      assert (r.byUser - {user})[user := prepared] == r.byUser[user := prepared];
    } else {
      assert r.byUser - {user} == r.byUser;
    }
  }

  /** The caller expects nothing, or the session the user has, or may find none. */
  ghost predicate ExpectationFits(r: Registry, user: User, expectedOld: Option<Id>, allowMissing: bool) {
    || expectedOld.None?
    || (user in r.byUser && expectedOld == Some(r.byUser[user]))
    || (user !in r.byUser && allowMissing)
  }

  // And an expected session is still within its deadline.
  ghost predicate ExpectationMet(r: Registry, user: User, expectedOld: Option<Id>, allowMissing: bool, now: int)
    requires Valid(r)
  {
    && ExpectationFits(r, user, expectedOld, allowMissing)
    && (expectedOld.Some? && user in r.byUser ==> !r.heap[r.byUser[user]].Expired(now))
  }

  /** An activation succeeds exactly when the session is unused and within its
      deadline and the expectation is met.  It then publishes the session as its
      user's only one; the session it preempts is dead, must be drained, and may be
      told so unless it had expired. */
  lemma ActivateValid(r: Registry, prepared: Id, expectedOld: Option<Id>, allowMissing: bool, retain: bool, now: int)
    requires Valid(r) && prepared in r.heap
    ensures
      var (r', out) := Activate(r, prepared, expectedOld, allowMissing, retain, now);
      var user := r.heap[prepared].userID;
      && Valid(r') && Keeps(r, r')
      && (out.error.None? ==>
            && prepared !in r.used && prepared in r'.used
            && !r.heap[prepared].Expired(now) && r'.heap[prepared] == r.heap[prepared]
            && r'.byUser == r.byUser[user := prepared]
            && out.removed == (if user in r.byUser then Some(r.byUser[user]) else None)
            && (expectedOld.Some? ==> out.removed == expectedOld || (allowMissing && out.removed.None?))
            && (if out.removed.Some?
                then out.drain == out.removed && (out.notify <==> !r.heap[out.removed.value].Expired(now))
                else !out.notify && out.drain == if allowMissing && expectedOld.Some? then PendingDrain(r, expectedOld.value) else None))
      && (out.error.None? <==>
            prepared !in r.used && !r.heap[prepared].Expired(now) && ExpectationMet(r, user, expectedOld, allowMissing, now))
      && (out.error == Some(Precondition) <==> prepared in r.used || !ExpectationFits(r, user, expectedOld, allowMissing))
      && (out.error.None? || out.error == Some(Precondition) || out.error == Some(Expired))
      && (out.error.Some? ==> r'.used == r.used)
      && (out.removed.Some? ==> out.removed.value in r.sessions && !r'.heap[out.removed.value].active)
  {
    var (r', out) := Activate(r, prepared, expectedOld, allowMissing, retain, now);
    var user := r.heap[prepared].userID;
    if out.error == Some(Expired) && out.removed.Some? {
      ExpireValid(r, r.byUser[user], retain);
    } else if out.error.None? {
      ActivateSteps(r, prepared, expectedOld, allowMissing, retain, now);
      if user in r.byUser {
        RemoveValid(r, r.byUser[user]);
        PublishValid(Remove(r, r.byUser[user]), prepared);
        assert (r.byUser - {user})[user := prepared] == r.byUser[user := prepared];
      } else {
        PublishValid(r, prepared);
      }
    }
  }

  /** A lookup that finds an expired session takes it out of both tables, and any
      other lookup changes nothing. */
  lemma LookupValid(r: Registry, id: Id, retain: bool, now: int)
    requires Valid(r)
    ensures
      var (r', out) := Lookup(r, id, retain, now);
      && Valid(r') && Keeps(r, r')
      && (if id in r.sessions && r.heap[id].Expired(now)
          then && r'.sessions == r.sessions - {id} && r'.byUser == r.byUser - {r.heap[id].userID} && !r'.heap[id].active
               && (id in r'.barriers <==> retain) && out.drain == Some(id)
          else r' == r)
      && (out.error.None? <==> id in r.sessions && !r.heap[id].Expired(now))
  {
    if id in r.sessions {
      RemoveValid(r, id);
      ExpireValid(r, id, retain);
    }
  }

  lemma LookupUserValid(r: Registry, user: User, retain: bool, now: int)
    requires Valid(r)
    ensures
      var (r', found) := LookupUser(r, user, retain, now);
      && Valid(r') && Keeps(r, r')
      && found == (if user in r.byUser && !r.heap[r.byUser[user]].Expired(now) then Some(r.byUser[user]) else None)
      && r'.byUser == (if found.Some? then r.byUser else r.byUser - {user})
      && (found.Some? ==> r' == r)
  {
    if user in r.byUser {
      RemoveValid(r, r.byUser[user]);
      ExpireValid(r, r.byUser[user], retain);
    } else {
      assert r.byUser - {user} == r.byUser;
    }
  }

  lemma InvalidateValid(r: Registry, user: User, now: int)
    requires Valid(r)
    ensures
      var (r', out) := InvalidateUser(r, user, now);
      && Valid(r') && Keeps(r, r') && r'.byUser == r.byUser - {user}
      && out == (if user in r.byUser
                 then Outcome(None, Some(r.byUser[user]), Some(r.byUser[user]), !r.heap[r.byUser[user]].Expired(now))
                 else Outcome(None, None, None, false))
  {
    if user in r.byUser {
      RemoveValid(r, r.byUser[user]);
      assert InvalidateUser(r, user, now).0 == Remove(r, r.byUser[user]);
    } else {
      assert r.byUser - {user} == r.byUser;
    }
  }

  /** Exactly the caller's current session is taken; the answer tells a live one from
      an expired, a missing and a foreign one. */
  lemma RemoveOwnedValid(r: Registry, id: Id, user: User, now: int)
    requires Valid(r)
    ensures
      var (r', out) := RemoveOwned(r, id, user, now);
      && Valid(r') && Keeps(r, r')
      && (out.removed.Some? <==> user in r.byUser && r.byUser[user] == id)
      && (out.removed.Some? ==>
            && out.removed == out.drain == Some(id) && r'.byUser == r.byUser - {user} && (out.notify <==> !r.heap[id].Expired(now))
            && out.error == (if r.heap[id].Expired(now) then Some(NotFound) else None))
      && (out.removed.None? ==>
            && r' == r && !out.notify
            && (if id in r.sessions then out.error == Some(NotOwned) && out.drain.None?
                else out.error == Some(NotFound) && out.drain == PendingDrain(r, id)))
  {
    if id in r.sessions {
      RemoveValid(r, id);
    }
  }

  lemma PurgeValid(r: Registry, retain: bool, now: int)
    requires Valid(r)
    ensures var r' := Purge(r, retain, now); Valid(r') && Keeps(r, r')
    ensures Purge(r, retain, now).sessions == set id | id in r.sessions && !r.heap[id].Expired(now)
  {}

  /** A packet received at `now` keeps its session through every purge until a full
      lifetime later and no longer, and no other session notices. */
  lemma PacketPostponesPurge(r: Registry, id: Id, now: int, advanced: bool, remote: Option<Remote>, retain: bool, later: int)
    requires Valid(r) && id in r.sessions
    ensures
      var kept := Purge(Receive(r, id, now, advanced, remote), retain, later).sessions;
      && (id in kept <==> later < now + SESSION_TTL)
      && kept - {id} == Purge(r, retain, later).sessions - {id}
  {
    var r' := Receive(r, id, now, advanced, remote);
    assert r'.sessions == r.sessions && r'.heap[id] == Touch(r.heap[id], now, advanced, remote);
    assert forall x | x in r.sessions && x != id :: r'.heap[x] == r.heap[x];
  }

  /** An active session is granted its next sequence unless none is left or an
      encrypted session has no key; a reserved sequence is never handed out again. */
  lemma ReserveSendExact(s: Session)
    requires s.sendSeq <= MAX_UINT64
    ensures
      var (s', granted) := ReserveSend(s);
      && (granted.Granted? <==> s.active && s.sendSeq < MAX_UINT64 && (s.encrypted ==> s.keyed))
      && (granted.Granted? ==> granted.sequence == s.sendSeq + 1)
      && s' == s.(sendSeq := if s.active && s.sendSeq < MAX_UINT64 then s.sendSeq + 1 else s.sendSeq)
  {}

  // ----- Steps and runs of the registry -----

  datatype Step =
    | PrepareStep(id: Id, user: User, encrypted: bool, now: int)
    | ActivateStep(id: Id, expectedOld: Option<Id>, allowMissing: bool, retain: bool, now: int)
    | LookupStep(id: Id, retain: bool, now: int)
    | LookupUserStep(user: User, retain: bool, now: int)
    | InvalidateStep(user: User, now: int)
    | RemoveStep(id: Id, user: User, now: int)
    | PurgeStep(retain: bool, now: int)
    | ClearBarrierStep(id: Id)
    | ReceiveStep(id: Id, now: int, advanced: bool, remote: Option<Remote>)

  /** Random 128-bit ids are fresh, and only a prepared session can be named. */
  ghost predicate Enabled(r: Registry, step: Step) {
    match step
    case PrepareStep(id, _, _, _) => id !in r.heap
    case ActivateStep(id, _, _, _, _) => id in r.heap
    case ReceiveStep(id, _, _, _) => id in r.used
    case _ => true
  }

  ghost function Apply(r: Registry, step: Step): Registry
    requires Valid(r) && Enabled(r, step)
  {
    match step
    case PrepareStep(id, user, encrypted, now) => Prepare(r, id, user, encrypted, now).0
    case ActivateStep(id, expectedOld, allowMissing, retain, now) =>
      Activate(r, id, expectedOld, allowMissing, retain, now).0
    case LookupStep(id, retain, now) => Lookup(r, id, retain, now).0
    case LookupUserStep(user, retain, now) => LookupUser(r, user, retain, now).0
    case InvalidateStep(user, now) => InvalidateUser(r, user, now).0
    case RemoveStep(id, user, now) => RemoveOwned(r, id, user, now).0
    case PurgeStep(retain, now) => Purge(r, retain, now)
    case ClearBarrierStep(id) => ClearBarrier(r, id)
    case ReceiveStep(id, now, advanced, remote) => Receive(r, id, now, advanced, remote)
  }

  /** Every step keeps the registry valid, and a removed session stays removed. */
  lemma StepValid(r: Registry, step: Step)
    requires Valid(r) && Enabled(r, step)
    ensures Valid(Apply(r, step)) && Keeps(r, Apply(r, step))
  {
    match step
    case PrepareStep(id, user, encrypted, now) => PrepareValid(r, id, user, encrypted, now);
    case ActivateStep(id, expectedOld, allowMissing, retain, now) =>
      ActivateValid(r, id, expectedOld, allowMissing, retain, now);
    case LookupStep(id, retain, now) => LookupValid(r, id, retain, now);
    case LookupUserStep(user, retain, now) => LookupUserValid(r, user, retain, now);
    case InvalidateStep(user, now) => InvalidateValid(r, user, now);
    case RemoveStep(id, user, now) => RemoveOwnedValid(r, id, user, now);
    case PurgeStep(retain, now) => PurgeValid(r, retain, now);
    case ClearBarrierStep(_) =>
    case ReceiveStep(_, _, _, _) =>
  }

  ghost predicate Run(r: Registry, steps: seq<Step>, r': Registry)
    decreases |steps|
  {
    if steps == [] then r' == r
    else Valid(r) && Enabled(r, steps[0]) && Run(Apply(r, steps[0]), steps[1..], r')
  }

  /** After any run from a valid registry, table and index are inverse and a
      session removed before the run is still removed and dead. */
  lemma {:induction false} RunValid(r: Registry, steps: seq<Step>, r': Registry)
    requires Valid(r) && Run(r, steps, r')
    ensures Valid(r') && Keeps(r, r')
    decreases |steps|
  {
    if steps != [] {
      StepValid(r, steps[0]);
      RunValid(Apply(r, steps[0]), steps[1..], r');
    }
  }

  ghost function Activations(r: Registry, steps: seq<Step>, id: Id): nat
    requires Valid(r)
    decreases |steps|
  {
    if steps == [] || !Enabled(r, steps[0]) then 0
    else
      StepValid(r, steps[0]);
      var r' := Apply(r, steps[0]);
      (if id in r'.used && id !in r.used then 1 else 0) + Activations(r', steps[1..], id)
  }

  /** A prepared session is published at most once in any run. */
  lemma {:induction false} PublishedAtMostOnce(r: Registry, steps: seq<Step>, id: Id)
    requires Valid(r)
    ensures Activations(r, steps, id) <= 1
    ensures id in r.used ==> Activations(r, steps, id) == 0
    decreases |steps|
  {
    if steps != [] && Enabled(r, steps[0]) {
      StepValid(r, steps[0]);
      PublishedAtMostOnce(Apply(r, steps[0]), steps[1..], id);
    }
  }

  /** Until it is published, a prepared session stays as it was prepared. */
  lemma StepKeepsUnused(r: Registry, step: Step, id: Id)
    requires Valid(r) && Enabled(r, step) && id in r.heap && id !in Apply(r, step).used
    ensures id in Apply(r, step).heap && Apply(r, step).heap[id] == r.heap[id]
  {
    match step
    case ActivateStep(prepared, expectedOld, allowMissing, retain, now) =>
      ActivateValid(r, prepared, expectedOld, allowMissing, retain, now);
      ActivateSteps(r, prepared, expectedOld, allowMissing, retain, now);
    case _ =>
  }

  lemma {:induction false} RunKeepsUnused(r: Registry, steps: seq<Step>, r': Registry, id: Id)
    requires Valid(r) && Run(r, steps, r') && id in r.heap && id !in r'.used
    ensures id in r'.heap && r'.heap[id] == r.heap[id]
    decreases |steps|
  {
    if steps != [] {
      StepValid(r, steps[0]);
      RunValid(Apply(r, steps[0]), steps[1..], r');
      StepKeepsUnused(r, steps[0], id);
      hide Valid, Keeps;
      RunKeepsUnused(Apply(r, steps[0]), steps[1..], r', id);
    }
  }

  /** A session prepared at `now` and activated without expectation before its
      deadline always becomes its user's session, whatever ran in between. */
  lemma PreparedSessionTakesOver(
    r: Registry, id: Id, user: User, encrypted: bool, now: int, steps: seq<Step>, r': Registry,
    allowMissing: bool, retain: bool, later: int)
    requires Valid(r) && id !in r.heap && user > 0
    requires Run(Prepare(r, id, user, encrypted, now).0, steps, r') && id !in r'.used && later < now + SESSION_TTL
    ensures id in r'.heap && r'.sessions <= r'.heap.Keys
    ensures
      var (r'', out) := Activate(r', id, None, allowMissing, retain, later);
      out.error.None? && user in r''.byUser && r''.byUser[user] == id && r''.heap[id].active && id in r''.sessions
  {
    var prepared := Prepare(r, id, user, encrypted, now).0;
    PrepareValid(r, id, user, encrypted, now);
    RunValid(prepared, steps, r');
    RunKeepsUnused(prepared, steps, r', id);
    hide Run, Keeps;
    ActivateValid(r', id, None, allowMissing, retain, later);
  }
}
