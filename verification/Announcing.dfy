/** Which removals are announced: a revocation notice goes out only for a session that
was taken while its deadline lay ahead, and for each of those it does get its sequence. */
module Announcing {
  import opened Wrappers
  import opened Sessions
  import opened Sending

  ghost predicate Owed(s: State, id: Id) {
    id in s.works && s.works[id].notify && s.works[id].wired
  }

  /** Revocation threads carry work that a removal handed out, and a reserved notice
      is one that is owed. */
  ghost predicate Entitled(s: State, pc: Pc) {
    match pc
    case DrainWaiting(id, revoke) => revoke ==> id in s.works
    case DrainHolding(id, revoke) => revoke ==> id in s.works
    case RevokeWaiting(id) => id in s.works
    case RevokeHolding(id) => id in s.works
    case RevokeReleasing(id, notice) => id in s.works && (notice.Some? ==> Owed(s, id))
    case Notifying(id, _) => Owed(s, id)
    case _ => true
  }

  ghost predicate ThreadsEntitled(s: State) {
    forall t: Tid :: Entitled(s, PcOf(s, t))
  }

  /** Exactly the removed sessions have ended, and work reports how they did. */
  ghost predicate WorksTruthful(s: State) {
    && (forall id :: id in s.endings <==> Removed(s.registry, id))
    && (forall id | id in s.works :: id in s.endings && s.works[id].notify == s.endings[id])
  }

  ghost predicate NoticesOwed(s: State) {
    forall i | 0 <= i < |s.log| && s.log[i].Revoked? :: Owed(s, s.log[i].id)
  }

  ghost predicate Announced(s: State) {
    WorksTruthful(s) && ThreadsEntitled(s) && NoticesOwed(s)
  }

  // ----- Registry steps -----

  /** What a step hands out as work names a session it took out of the table, and
      reports it live exactly when its deadline lay ahead. */
  lemma WorkIsTruthful(r: Registry, step: Step, quiet: bool)
    requires Valid(r) && Enabled(r, step)
    ensures
      var work := WorkOf(r, step, quiet);
      work.Some? ==>
        var (id, notify) := work.value;
        id in r.sessions && id !in Apply(r, step).sessions && (notify <==> !r.heap[id].Expired(ClockOf(step)))
  {
    match step
    case ActivateStep(id, expectedOld, allowMissing, retain, now) =>
      ActivateValid(r, id, expectedOld, allowMissing, retain, now);
      ActivateSteps(r, id, expectedOld, allowMissing, retain, now);
    case InvalidateStep(user, now) => InvalidateValid(r, user, now);
    case RemoveStep(id, user, now) => RemoveOwnedValid(r, id, user, now);
    case _ =>
  }

  ghost predicate TruthfulWork(r: Registry, r': Registry, now: int, work: Option<(Id, bool)>)
    requires r.sessions <= r.heap.Keys
  {
    work.Some? ==>
      && work.value.0 in r.sessions && work.value.0 !in r'.sessions && (work.value.1 <==> !r.heap[work.value.0].Expired(now))
  }

  lemma EndingsExact(s: State, r: Registry, now: int)
    requires WorksTruthful(s) && Valid(s.registry) && Keeps(s.registry, r) && r.used - s.registry.used <= r.sessions
    ensures forall id :: id in Become(s, r, now).endings <==> Removed(r, id)
    ensures forall id | id in s.endings :: Become(s, r, now).endings[id] == s.endings[id]
  {
    forall id ensures id in Become(s, r, now).endings <==> Removed(r, id) {
      assert id in s.endings <==> Removed(s.registry, id);
    }
  }

  lemma BecomeTruthful(s: State, r: Registry, now: int, work: Option<(Id, bool)>, wired: bool)
    requires WorksTruthful(s) && Valid(s.registry) && Keeps(s.registry, r) && r.used - s.registry.used <= r.sessions
    requires TruthfulWork(s.registry, r, now, work)
    ensures
      var s' := Assign(Become(s, r, now), work, wired);
      WorksTruthful(s') && forall id | id in s.works :: id in s'.works && s'.works[id] == s.works[id]
  {
    EndingsExact(s, r, now);
    assert work.Some? ==> work.value.0 !in s.endings;
    hide Keeps, Valid;
  }

  // Works grow, and what is owed stays owed.
  lemma BecomeAnnounced(s: State, r: Registry, now: int, work: Option<(Id, bool)>, wired: bool)
    requires Announced(s) && Valid(s.registry) && Keeps(s.registry, r) && r.used - s.registry.used <= r.sessions
    requires TruthfulWork(s.registry, r, now, work)
    ensures Announced(Assign(Become(s, r, now), work, wired))
  {
    var s' := Assign(Become(s, r, now), work, wired);
    hide Valid, Keeps, Removed, WorksTruthful, TruthfulWork;
    BecomeTruthful(s, r, now, work, wired);
    assert s'.threads == s.threads && s'.log == s.log;
    hide Become, Assign;
    assert forall id :: Owed(s, id) ==> Owed(s', id);
    forall t: Tid ensures Entitled(s', PcOf(s', t)) {
      assert Entitled(s, PcOf(s, t)) && PcOf(s', t) == PcOf(s, t);
    }
  }

  /** Every newly used session is in the table. */
  lemma StepPublishes(r: Registry, step: Step)
    requires Valid(r) && Enabled(r, step)
    ensures Apply(r, step).used - r.used <= Apply(r, step).sessions
  {
    if step.ActivateStep? {
      ActivateSteps(r, step.id, step.expectedOld, step.allowMissing, step.retain, step.now);
    }
  }

  // A thread moves on entitled ground.
  lemma GotoAnnounced(s: State, s': State, t: Tid, pc: Pc)
    requires Announced(s) && s'.threads == s.threads[t := pc] && s'.works == s.works && s'.endings == s.endings
    requires forall id :: Removed(s'.registry, id) <==> Removed(s.registry, id)
    requires s'.log == s.log || (|s'.log| == |s.log| + 1 && s'.log[..|s.log|] == s.log)
    requires s'.log != s.log && s'.log[|s.log|].Revoked? ==> Owed(s, s'.log[|s.log|].id)
    requires Entitled(s, pc)
    ensures Announced(s')
  {
    assert WorksTruthful(s') by { hide ThreadsEntitled, NoticesOwed, Removed; }
    hide WorksTruthful, Removed;
    assert forall id :: Owed(s', id) <==> Owed(s, id);
    forall u: Tid ensures Entitled(s', PcOf(s', u)) {
      assert Entitled(s, PcOf(s, u));
      assert PcOf(s', u) == if u == t then pc else PcOf(s, u);
    }
    forall i | 0 <= i < |s'.log| && s'.log[i].Revoked? ensures Owed(s', s'.log[i].id) {
      if i < |s.log| { assert s'.log[i] == s'.log[..|s.log|][i] == s.log[i]; }
    }
  }

  lemma RegistryAnnounced(s: State, step: Step, quiet: bool, wired: bool)
    requires Valid(s.registry) && Announced(s) && Enabled(s.registry, step)
    ensures Announced(Act(s, RegistryStep(step, quiet, wired)))
  {
    StepValid(s.registry, step);
    StepPublishes(s.registry, step);
    WorkIsTruthful(s.registry, step, quiet);
    assert Apply(s.registry, step).used - s.registry.used <= Apply(s.registry, step).sessions;
    hide Announced, Valid, Keeps, WorkOf, Apply;
    BecomeAnnounced(s, Apply(s.registry, step), ClockOf(step), WorkOf(s.registry, step, quiet), wired);
  }

  lemma LookupAnnounced(s: State, t: Tid, id: Id, retain: bool, now: int)
    requires Valid(s.registry) && Announced(s) && CanAct(s, SendLookup(t, id, retain, now))
    ensures Announced(Act(s, SendLookup(t, id, retain, now)))
  {
    var (r, out) := Lookup(s.registry, id, retain, now);
    assert r.used == s.registry.used;
    hide Valid, Keeps, Announced;
    LookupValid(s.registry, id, retain, now);
    BecomeAnnounced(s, r, now, None, false);
    var pc := if out.error.None? then Found(id) else Idle;
    hide Lookup, Become;
    GotoAnnounced(Become(s, r, now), Goto(Become(s, r, now), t, pc), t, pc);
  }

  lemma ReserveAnnounced(s: State, t: Tid, a: Action)
    requires Inv(s) && Announced(s) && CanAct(s, a) && (a == RevokeReserve(t) || (a.SendReserve? && a.t == t))
    ensures Announced(Act(s, a))
  {
    var s' := Act(s, a);
    assert s'.registry.used == s.registry.used && s'.registry.sessions == s.registry.sessions;
    assert forall id :: Removed(s'.registry, id) <==> Removed(s.registry, id);
    assert Entitled(s, PcOf(s, t));
    assert Entitled(s, PcOf(s', t));
    hide Inv, Announced;
    GotoAnnounced(s, s', t, PcOf(s', t));
  }

  lemma ActAnnounced(s: State, a: Action)
    requires Inv(s) && Announced(s) && CanAct(s, a)
    ensures Announced(Act(s, a))
  {
    match a
    case RegistryStep(step, quiet, wired) => RegistryAnnounced(s, step, quiet, wired);
    case SendLookup(t, id, retain, now) => LookupAnnounced(s, t, id, retain, now);
    case SendReserve(t, _) => ReserveAnnounced(s, t, a);
    case RevokeReserve(t) => ReserveAnnounced(s, t, a);
    case _ => ThreadAnnounced(s, a);
  }

  lemma ThreadAnnounced(s: State, a: Action)
    requires Announced(s) && CanAct(s, a)
    requires !a.RegistryStep? && !a.SendLookup? && !a.SendReserve? && !a.RevokeReserve?
    ensures Announced(Act(s, a))
  {
    var s' := Act(s, a);
    assert Entitled(s, PcOf(s, a.t));
    assert Entitled(s, PcOf(s', a.t));
    hide Announced, Removed;
    GotoAnnounced(s, s', a.t, PcOf(s', a.t));
  }

  lemma {:induction false} ReachesAnnounced(s: State, actions: seq<Action>, s': State)
    requires Inv(s) && Announced(s) && Reaches(s, actions, s')
    ensures Inv(s') && Announced(s')
    decreases |actions|
  {
    if actions != [] {
      ActInv(s, actions[0]);
      ActAnnounced(s, actions[0]);
      hide Inv, Announced, Act;
      ReachesAnnounced(Act(s, actions[0]), actions[1..], s');
    }
  }

  lemma InitAnnounced(s: State)
    requires Init(s)
    ensures Inv(s) && Announced(s)
  {
    InitInv(s);
  }

  // ----- Promises -----

  /** On every interleaving, a revocation notice is written only for a session that was
      replaced, invalidated or revoked before its deadline with a handler installed. */
  lemma EveryNoticeIsOwed(s0: State, actions: seq<Action>, s: State)
    requires Init(s0) && Reaches(s0, actions, s)
    ensures forall i | 0 <= i < |s.log| && s.log[i].Revoked? ::
      var id := s.log[i].id;
      && id in s.endings && s.endings[id] && id in s.works && s.works[id].wired && Removed(s.registry, id)
  {
    InitAnnounced(s0);
    hide Reaches, Init, Inv;
    ReachesAnnounced(s0, actions, s);
    forall i | 0 <= i < |s.log| && s.log[i].Revoked?
      ensures
        var id := s.log[i].id;
        && id in s.endings && s.endings[id] && id in s.works && s.works[id].wired && Removed(s.registry, id)
    {
      assert Owed(s, s.log[i].id);
    }
  }

  // The thread whose step it is, if it is a thread's step.
  function ActorOf(a: Action): Option<Tid> {
    if a.RegistryStep? then None else Some(a.t)
  }

  ghost predicate WithoutThread(actions: seq<Action>, t: Tid) {
    forall i | 0 <= i < |actions| :: ActorOf(actions[i]) != Some(t)
  }

  lemma {:induction false} OthersLeaveThread(s: State, actions: seq<Action>, s': State, t: Tid)
    requires Reaches(s, actions, s') && WithoutThread(actions, t)
    ensures PcOf(s', t) == PcOf(s, t)
    decreases |actions|
  {
    if actions != [] {
      assert ActorOf(actions[0]) != Some(t);
      OthersLeaveThread(Act(s, actions[0]), actions[1..], s', t);
    }
  }

  // The notice owed to the session that a revocation thread works on.
  ghost function NoticeOf(s: State, id: Id): Option<nat>
    requires id in s.works && id in s.endings && id in s.registry.heap
  {
    var session := s.registry.heap[id];
    if s.endings[id] && s.works[id].wired && session.remote.Some? && session.sendSeq < MAX_UINT64
    then Some(session.sendSeq + 1) else None
  }

  lemma NoticeReserved(s: State, t: Tid)
    requires Inv(s) && Announced(s) && PcOf(s, t).RevokeHolding?
    ensures
      var id := PcOf(s, t).id;
      && id in s.works && id in s.endings && id in s.registry.heap && CanAct(s, RevokeReserve(t))
      && PcOf(Act(s, RevokeReserve(t)), t) == RevokeReleasing(id, NoticeOf(s, id))
  {
    hide LocksAgree, ReservationsAbove, ReservationsUnique, LogWithin, Safe;
    assert Entitled(s, PcOf(s, t)) && Placed(s, PcOf(s, t));
  }

  lemma NoticeReleased(s: State, t: Tid)
    requires PcOf(s, t).RevokeReleasing?
    ensures CanAct(s, RevokeUnlock(t))
    ensures
      var RevokeReleasing(id, notice) := PcOf(s, t);
      PcOf(Act(s, RevokeUnlock(t)), t) == if notice.Some? then Notifying(id, notice.value) else Idle
  {}

  /** A revocation thread that has the send lock gets its notice reserved, and goes on
      to write it with the session's next sequence whatever others do meanwhile,
      exactly if its session was taken before its deadline with a handler installed,
      has a learned address and has a sequence left. */
  lemma OwedNoticeIsReserved(s0: State, before: seq<Action>, s: State, t: Tid, between: seq<Action>, s': State)
    requires Init(s0) && Reaches(s0, before, s) && PcOf(s, t).RevokeHolding?
    ensures
      var id := PcOf(s, t).id;
      && id in s.works && id in s.endings && id in s.registry.heap && CanAct(s, RevokeReserve(t))
      && (Reaches(Act(s, RevokeReserve(t)), between, s') && WithoutThread(between, t) ==>
            && CanAct(s', RevokeUnlock(t))
            && PcOf(Act(s', RevokeUnlock(t)), t) ==
                 if NoticeOf(s, id).Some? then Notifying(id, NoticeOf(s, id).value) else Idle)
  {
    InitAnnounced(s0);
    hide Init, Inv, Announced, Reaches, Act, CanAct;
    ReachesAnnounced(s0, before, s);
    NoticeReserved(s, t);
    var s1 := Act(s, RevokeReserve(t));
    if Reaches(s1, between, s') && WithoutThread(between, t) {
      OthersLeaveThread(s1, between, s', t);
      NoticeReleased(s', t);
    }
  }

  /** A sender that has the send lock of an active session with an address and a
      sequence left reserves the session's next sequence, and nothing else. */
  lemma SenderReservesNext(s0: State, before: seq<Action>, s: State, t: Tid, fits: bool)
    requires Init(s0) && Reaches(s0, before, s) && PcOf(s, t).Locked?
    ensures CanAct(s, SendReserve(t, fits))
    ensures
      var id := PcOf(s, t).id;
      var session := s.registry.heap[id];
      PcOf(Act(s, SendReserve(t, fits)), t) ==
        if session.active && session.sendSeq < MAX_UINT64 && (session.encrypted ==> session.keyed) && session.remote.Some? && fits
        then Reserved(id, session.sendSeq + 1) else Finishing(id)
  {
    InitInv(s0);
    hide Init, Reaches, Inv, Act, CanAct;
    ReachesInv(s0, before, s);
    SendReserved(s, t, fits);
  }

  lemma SendReserved(s: State, t: Tid, fits: bool)
    requires Inv(s) && PcOf(s, t).Locked?
    ensures CanAct(s, SendReserve(t, fits))
    ensures
      var id := PcOf(s, t).id;
      var session := s.registry.heap[id];
      PcOf(Act(s, SendReserve(t, fits)), t) ==
        if session.active && session.sendSeq < MAX_UINT64 && (session.encrypted ==> session.keyed) && session.remote.Some? && fits
        then Reserved(id, session.sendSeq + 1) else Finishing(id)
  {
    hide LocksAgree, ReservationsAbove, ReservationsUnique, LogWithin, Safe;
    assert Placed(s, PcOf(s, t));
    ReserveSendExact(s.registry.heap[PcOf(s, t).id]);
    hide Inv;
  }
}
