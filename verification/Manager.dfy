/** The session registry as the program keeps it: session objects whose fields are
updated in place, a table, a user index and retained expiry barriers.  Every
method is proved against the registry operation of module Sessions. */
module Manager {
  import opened Wrappers
  import opened Sessions
  import Replay
  import RateLimit

  datatype ReceiveDecision = ReceiveAccepted | ReceiveDroppedReplay | ReceiveDroppedRateLimit | ReceiveDroppedInactive

  class VoiceSession {
    const id: Id
    const userID: User
    const encrypted: bool
    const keyed: bool
    const rxReplay: Replay.ReplayWindow
    const rxBudget: RateLimit.TokenBucket
    var expiresAt: int
    var remote: Option<Remote>
    var active: bool
    var sendSeq: nat

    function View(): Session
      reads this
    {
      Session(userID, expiresAt, active, remote, encrypted, keyed, sendSeq)
    }

    constructor (id: Id, userID: User, encrypted: bool, nowMS: int, rate: real, burst: int)
      ensures this.id == id
      ensures View() == Session(userID, nowMS + SESSION_TTL, true, None, encrypted, encrypted, 0)
      ensures fresh(rxReplay) && fresh(rxReplay.bits) && fresh(rxBudget)
      ensures rxReplay.Valid() && rxReplay.accepted == {}
    {
      this.id := id;
      this.userID := userID;
      this.encrypted := encrypted;
      this.keyed := encrypted;
      this.expiresAt := nowMS + SESSION_TTL;
      this.remote := None;
      this.active := true;
      this.sendSeq := 0;
      this.rxReplay := new Replay.ReplayWindow();
      this.rxBudget := new RateLimit.TokenBucket(rate, burst, nowMS as real / 1000.0);
    }

    /** acceptPacket: liveness, then replay, then budget; only a packet that passes
        all three is recorded, slides the deadline and may move the address.  The
        replay window cannot refuse what it has just said it would accept. */
    method AcceptPacket(sequence: Replay.uint64, nowMS: int, from: Option<Remote>) returns (d: ReceiveDecision)
      requires rxReplay.Valid()
      modifies this`expiresAt, this`remote, rxReplay`high, rxReplay`accepted, rxReplay.bits, rxBudget
      ensures rxReplay.Valid()
      ensures rxBudget.LimitsView() == old(rxBudget.LimitsView())
      ensures
        var admits := Replay.Admits(old(rxReplay.accepted), sequence);
        var taken := RateLimit.Take(old(rxBudget.LimitsView()), old(rxBudget.View()), nowMS as real / 1000.0);
        && d == (if !active then ReceiveDroppedInactive
                 else if !admits then ReceiveDroppedReplay
                 else if !taken.1 then ReceiveDroppedRateLimit
                 else ReceiveAccepted)
        && rxBudget.View() == (if active && admits then taken.0 else old(rxBudget.View()))
        && (d != ReceiveAccepted ==> rxReplay.accepted == old(rxReplay.accepted) && View() == old(View()))
        && (d == ReceiveAccepted ==>
              && rxReplay.accepted == old(rxReplay.accepted) + {sequence}
              && View() == Touch(old(View()), nowMS, sequence > old(rxReplay.high), from))
      ensures remote == if d == ReceiveAccepted && from.Some? && (forall a | a in old(rxReplay.accepted) :: a < sequence)
                        then from else old(remote)
      ensures expiresAt == if d == ReceiveAccepted then nowMS + SESSION_TTL else old(expiresAt)
    {
      if !active {
        return ReceiveDroppedInactive;
      }
      var would := rxReplay.WouldAccept(sequence);
      if !would {
        return ReceiveDroppedReplay;
      }
      var taken := rxBudget.TakeAt(nowMS as real / 1000.0);
      if !taken {
        return ReceiveDroppedRateLimit;
      }
      var accepted, advanced := rxReplay.Accept(sequence);
      if !accepted {
        assert false; // the program panics here
      }
      expiresAt := nowMS + SESSION_TTL;
      if advanced && from.Some? {
        remote := from;
      }
      return ReceiveAccepted;
    }

    method ReserveSendSeq() returns (r: Reservation)
      requires sendSeq <= MAX_UINT64
      modifies this`sendSeq
      ensures (View(), r) == ReserveSend(old(View()))
      ensures sendSeq <= MAX_UINT64
    {
      if !active {
        return Refused(NotFound);
      }
      if sendSeq == MAX_UINT64 {
        return Refused(SequenceExhausted);
      }
      sendSeq := sendSeq + 1;
      if encrypted && !keyed {
        return Refused(NoKey);
      }
      return Granted(sendSeq);
    }

    /** The snapshot part of runRevocation. */
    method ReserveNotice(notify: bool) returns (sequence: Option<nat>)
      requires sendSeq <= MAX_UINT64
      modifies this`sendSeq
      ensures (View(), sequence) == ReserveRevocation(old(View()), notify)
      ensures sendSeq <= MAX_UINT64
    {
      if notify && remote.Some? && sendSeq < MAX_UINT64 {
        sendSeq := sendSeq + 1;
        return Some(sendSeq);
      }
      return None;
    }
  }

  /** The registry.  Its session objects are kept by id in `heap`; `sessions` holds
      the ids in the table. */
  class SessionManager {
    var heap: map<Id, Session>
    var sessions: set<Id>
    var byUser: map<User, Id>
    var expiryBarriers: set<Id>
    var used: set<Id> // prepared sessions an activation has consumed
    const retainBarriers: bool // whether the staged expiry callback is installed

    ghost function View(): Registry
      reads this
    {
      Registry(heap, sessions, byUser, expiryBarriers, used)
    }

    constructor (retainBarriers: bool)
      ensures View() == EMPTY && Valid(View())
    {
      this.retainBarriers := retainBarriers;
      heap, sessions, byUser, expiryBarriers, used := map[], {}, map[], {}, {};
    }

    method Prepare(id: Id, userID: User, encrypted: bool, nowMS: int) returns (error: Option<Error>)
      requires Valid(View()) && id !in heap
      modifies this
      ensures Valid(View())
      ensures (View(), error) == Sessions.Prepare(old(View()), id, userID, encrypted, nowMS)
    {
      PrepareValid(View(), id, userID, encrypted, nowMS);
      hide Valid;
      if userID <= 0 {
        return Some(InvalidUserID);
      }
      heap := heap[id := Session(userID, nowMS + SESSION_TTL, true, None, encrypted, encrypted, 0)];
      return None;
    }

    // deactivateLocked, then deleteLocked.
    method RemoveLocked(id: Id)
      requires Valid(View()) && id in sessions
      modifies this
      ensures Valid(View())
      ensures View() == Remove(old(View()), id)
    {
      RemoveValid(View(), id);
      var user := heap[id].userID;
      hide Valid;
      heap := heap[id := heap[id].(active := false)];
      sessions := sessions - {id};
      if user in byUser && byUser[user] == id {
        byUser := byUser - {user};
      }
    }

    // Natural expiry: the session goes and, with the staged callback, its send
    // barrier stays.
    method ExpireLocked(id: Id)
      requires Valid(View()) && id in sessions
      modifies this
      ensures Valid(View())
      ensures View() == Expire(old(View()), id, retainBarriers)
    {
      ExpireValid(View(), id, retainBarriers);
      hide Valid;
      RemoveLocked(id);
      if retainBarriers {
        expiryBarriers := expiryBarriers + {id};
      }
    }

    /** activatePreparedStaged. */
    method ActivatePreparedStaged(prepared: Id, expectedOld: Option<Id>, allowMissing: bool, nowMS: int)
      returns (out: Outcome)
      requires Valid(View()) && prepared in heap
      modifies this
      ensures Valid(View())
      ensures (View(), out) == Activate(old(View()), prepared, expectedOld, allowMissing, retainBarriers, nowMS)
    {
      ActivateValid(View(), prepared, expectedOld, allowMissing, retainBarriers, nowMS);
      assert sessions <= heap.Keys && forall u | u in byUser :: byUser[u] in sessions;
      hide Valid, Keeps;
      if prepared in used {
        return Outcome(Some(Precondition), None, None, false);
      }
      var user := heap[prepared].userID;
      if expectedOld.Some? && (user !in byUser || byUser[user] != expectedOld.value) && !(allowMissing && user !in byUser) {
        return Outcome(Some(Precondition), None, None, false);
      }
      if expectedOld.Some? && user in byUser {
        var current := byUser[user];
        if nowMS >= heap[current].expiresAt {
          ExpireLocked(current);
          return Outcome(Some(Expired), Some(current), None, false);
        }
      }
      var drain := if allowMissing && expectedOld.Some? && user !in byUser && expectedOld.value in expiryBarriers
                   then expectedOld else None;
      if nowMS >= heap[prepared].expiresAt {
        return Outcome(Some(Expired), None, None, false);
      }
      used := used + {prepared};
      var removed: Option<Id> := None;
      var replaced := false;
      if user in byUser {
        var current := byUser[user];
        replaced := nowMS < heap[current].expiresAt;
        heap := heap[current := heap[current].(active := false)];
        sessions := sessions - {current};
        byUser := byUser - {user};
        removed, drain := Some(current), Some(current);
      }
      sessions := sessions + {prepared};
      byUser := byUser[user := prepared];
      assert byUser == (old(byUser) - {user})[user := prepared];
      return Outcome(None, removed, drain, replaced);
    }

    /** getSessionStaged. */
    method GetSessionStaged(id: Id, nowMS: int) returns (out: Outcome)
      requires Valid(View())
      modifies this
      ensures Valid(View())
      ensures (View(), out) == Lookup(old(View()), id, retainBarriers, nowMS)
    {
      if id !in sessions {
        return Outcome(Some(NotFound), None, if id in expiryBarriers then Some(id) else None, false);
      }
      if nowMS < heap[id].expiresAt {
        return Outcome(None, None, None, false);
      }
      ExpireLocked(id);
      return Outcome(Some(NotFound), Some(id), Some(id), false);
    }

    method SessionIDByUser(user: User, nowMS: int) returns (id: Option<Id>)
      requires Valid(View())
      modifies this
      ensures Valid(View())
      ensures (View(), id) == LookupUser(old(View()), user, retainBarriers, nowMS)
    {
      if user !in byUser {
        return None;
      }
      var current := byUser[user];
      if nowMS < heap[current].expiresAt {
        return Some(current);
      }
      ExpireLocked(current);
      return None;
    }

    method InvalidateUser(user: User, nowMS: int) returns (out: Outcome)
      requires Valid(View())
      modifies this
      ensures Valid(View())
      ensures (View(), out) == Sessions.InvalidateUser(old(View()), user, nowMS)
    {
      if user !in byUser {
        return Outcome(None, None, None, false);
      }
      var id := byUser[user];
      var live := nowMS < heap[id].expiresAt;
      RemoveLocked(id);
      return Outcome(None, Some(id), Some(id), live);
    }

    /** DeleteStaged and revokeStaged. */
    method RemoveOwned(id: Id, user: User, nowMS: int) returns (out: Outcome)
      requires Valid(View())
      modifies this
      ensures Valid(View())
      ensures (View(), out) == Sessions.RemoveOwned(old(View()), id, user, nowMS)
    {
      if id !in sessions {
        return Outcome(Some(NotFound), None, if id in expiryBarriers then Some(id) else None, false);
      }
      if heap[id].userID != user {
        return Outcome(Some(NotOwned), None, None, false);
      }
      var expired := nowMS >= heap[id].expiresAt;
      RemoveLocked(id);
      return Outcome(if expired then Some(NotFound) else None, Some(id), Some(id), !expired);
    }

    /** One packet for a tabled session: the session object decides, and the registry
        sees exactly what it kept. */
    method Deliver(id: Id, session: VoiceSession, sequence: Replay.uint64, nowMS: int, from: Option<Remote>)
      returns (d: ReceiveDecision)
      requires Valid(View()) && id in sessions && heap[id] == session.View() && session.rxReplay.Valid()
      modifies this, session`expiresAt, session`remote, session.rxReplay`high, session.rxReplay`accepted,
        session.rxReplay.bits, session.rxBudget
      ensures Valid(View()) && id in heap && heap[id] == session.View() && session.rxReplay.Valid()
      ensures
        View() == if d == ReceiveAccepted
                  then Receive(old(View()), id, nowMS, sequence > old(session.rxReplay.high), from)
                  else old(View())
    {
      StepValid(View(), ReceiveStep(id, nowMS, sequence > session.rxReplay.high, from));
      assert heap[id].active;
      hide Valid;
      d := session.AcceptPacket(sequence, nowMS, from);
      heap := heap[id := session.View()];
      assert d != ReceiveAccepted ==> heap == old(heap);
    }

    /** Purge: one pass over the table, in any order. */
    method Purge(nowMS: int) returns (count: nat)
      requires Valid(View())
      modifies this
      ensures Valid(View())
      ensures View() == Sessions.Purge(old(View()), retainBarriers, nowMS)
      ensures count == |old(sessions)| - |sessions|
    {
      ghost var r := View();
      count := 0;
      var todo := sessions;
      PurgeEnds(r, retainBarriers, nowMS);
      hide Purged, Valid, Sessions.Purge;
      while todo != {}
        invariant todo <= r.sessions <= r.heap.Keys && Valid(r)
        invariant Valid(View()) && View() == Purged(r, todo, retainBarriers, nowMS)
        invariant count + |sessions| == |r.sessions|
        decreases |todo|
      {
        var id :| id in todo;
        var expired := PurgeEntry(r, todo, id, nowMS);
        todo := todo - {id};
        if expired {
          count := count + 1;
        }
      }
    }

    method PurgeEntry(ghost r: Registry, ghost todo: set<Id>, id: Id, nowMS: int) returns (expired: bool)
      requires Valid(View()) && Valid(r) && todo <= r.sessions && id in todo
      requires View() == Purged(r, todo, retainBarriers, nowMS)
      modifies this
      ensures Valid(View()) && View() == Purged(r, todo - {id}, retainBarriers, nowMS)
      ensures id in old(sessions) && sessions == if expired then old(sessions) - {id} else old(sessions)
      ensures |sessions| == |old(sessions)| - if expired then 1 else 0
    {
      PurgeOne(r, r.sessions - todo, id, retainBarriers, nowMS);
      assert r.sessions - (todo - {id}) == r.sessions - todo + {id};
      hide PurgeOf, Valid;
      expired := nowMS >= heap[id].expiresAt;
      if expired {
        ExpireLocked(id);
      }
    }
  }

  // The registry after the scan has visited the sessions in `done`.
  ghost function PurgeOf(r: Registry, done: set<Id>, retain: bool, now: int): Registry
    requires done <= r.sessions <= r.heap.Keys
  {
    var dead := set id | id in done && r.heap[id].Expired(now);
    r.(heap := map id | id in r.heap :: if id in dead then r.heap[id].(active := false) else r.heap[id],
       sessions := r.sessions - dead,
       byUser := map u | u in r.byUser && r.byUser[u] !in dead :: r.byUser[u],
       barriers := if retain then r.barriers + dead else r.barriers)
  }

  ghost function Purged(r: Registry, todo: set<Id>, retain: bool, now: int): Registry
    requires todo <= r.sessions <= r.heap.Keys
  {
    PurgeOf(r, r.sessions - todo, retain, now)
  }

  lemma PurgeEnds(r: Registry, retain: bool, now: int)
    requires Valid(r)
    ensures Purged(r, r.sessions, retain, now) == r
    ensures Purged(r, {}, retain, now) == Sessions.Purge(r, retain, now)
  {
    assert r.sessions - r.sessions == {} && r.sessions - {} == r.sessions;
    assert PurgeOf(r, {}, retain, now).heap == r.heap && PurgeOf(r, {}, retain, now).byUser == r.byUser;
  }

  lemma PurgeOne(r: Registry, done: set<Id>, id: Id, retain: bool, now: int)
    requires Valid(r) && done <= r.sessions && id in r.sessions && id !in done
    ensures
      var before, after := PurgeOf(r, done, retain, now), PurgeOf(r, done + {id}, retain, now);
      && id in before.sessions && id in before.heap && before.heap[id] == r.heap[id]
      && after == (if r.heap[id].Expired(now) then Expire(before, id, retain) else before)
      && after.sessions == if r.heap[id].Expired(now) then before.sessions - {id} else before.sessions
  {
    var before, after := PurgeOf(r, done, retain, now), PurgeOf(r, done + {id}, retain, now);
    var expected := if r.heap[id].Expired(now) then Expire(before, id, retain) else before;
    assert after.heap == expected.heap;
    forall u ensures u in after.byUser <==> u in expected.byUser {
      assert u in r.byUser && r.byUser[u] == id ==> u == r.heap[id].userID;
    }
    assert after.byUser == expected.byUser;
  }
}
