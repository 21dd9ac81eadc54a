/** One user's control connections and voice authority, as the coordinator keeps
them under that user's lock.  Every function is one critical section. */
module Connections {
  import opened Wrappers

  type User = int
  type ConnId = nat
  type SessionId = nat
  type Source = nat

  /** The immutable identity that every conditional teardown must match. */
  datatype Ref = Ref(id: ConnId, user: User, generation: nat, login: int)

  datatype Phase = Opening | Active | Closing

  datatype Lease = Lease(revision: nat, expiresAt: int)

  datatype Record = Record(ref: Ref, phase: Phase, admitted: bool, source: Option<Source>, lease: Lease, attached: bool)

  datatype Authority = Authority(
    user: User, channel: int, conn: ConnId, connGeneration: nat, session: SessionId, generation: nat, joinedAt: int)

  /** connectionUser: reset to FRESH when the registry prunes an idle user. */
  datatype Entry = Entry(
    connections: map<ConnId, Record>,
    nextGen: nat,
    admitted: int,
    voice: Option<Authority>,
    tombstone: Option<Authority>,
    nextVoice: nat)

  const FRESH := Entry(map[], 0, 0, None, None, 0)

  // Zero stands for the all-zero 128-bit id.
  predicate ValidRef(ref: Ref) {
    ref.user > 0 && ref.generation > 0 && ref.login > 0 && ref.id != 0
  }

  predicate ValidAuthority(a: Authority) {
    && a.user > 0 && a.channel > 0 && a.conn != 0 && a.connGeneration > 0
    && a.session != 0 && a.generation > 0 && a.joinedAt >= 0
  }

  // The record that ref names exactly.
  predicate Names(e: Entry, ref: Ref) {
    ref.id in e.connections && e.connections[ref.id].ref == ref
  }

  predicate ActiveRef(e: Entry, ref: Ref) {
    Names(e, ref) && e.connections[ref.id].phase == Active
  }

  // ----- Lifecycle -----

  function Open(e: Entry, user: User, id: ConnId, login: int, source: Option<Source>): (Entry, Ref) {
    var ref := Ref(id, user, e.nextGen + 1, login);
    (e.(nextGen := e.nextGen + 1, admitted := e.admitted + 1,
        connections := e.connections[id := Record(ref, Opening, true, source, Lease(0, 0), false)]),
     ref)
  }

  function Activate(e: Entry, ref: Ref, expiresAt: int): (Entry, bool) {
    if Names(e, ref) && e.connections[ref.id].phase == Opening then
      var r := e.connections[ref.id].(attached := true, phase := Active, lease := Lease(1, expiresAt));
      (e.(connections := e.connections[ref.id := r]), true)
    else (e, false)
  }

  /** A renewal needs an unexpired lease; its new revision defeats older timers. */
  function Renew(e: Entry, ref: Ref, expiresAt: int, now: int): (Entry, bool) {
    if ActiveRef(e, ref) && e.connections[ref.id].lease.expiresAt > now then
      var lease := Lease(e.connections[ref.id].lease.revision + 1, expiresAt);
      (e.(connections := e.connections[ref.id := e.connections[ref.id].(lease := lease)]), true)
    else (e, false)
  }

  /** beginDisconnectLocked: the first close of a record wins; closing the owner of
      the voice authority takes the authority down with it. */
  function Close(e: Entry, ref: Ref): (Entry, bool) {
    if Names(e, ref) && e.connections[ref.id].phase != Closing then
      var closed := e.(connections := e.connections[ref.id := e.connections[ref.id].(phase := Closing)]);
      if e.voice.Some? && e.voice.value.conn == ref.id && e.voice.value.connGeneration == ref.generation
      then (closed.(voice := None, tombstone := e.voice), true)
      else (closed, true)
    else (e, false)
  }

  /** The lease timer: closes only if the lease it was armed for is still current. */
  function ExpireLease(e: Entry, ref: Ref, expected: Lease, now: int): (Entry, bool) {
    if now >= expected.expiresAt && ActiveRef(e, ref) && e.connections[ref.id].lease == expected
    then Close(e, ref) else (e, false)
  }

  ghost predicate Matches(ref: Ref, login: Option<int>) {
    login.Some? ==> ref.login == login.value
  }

  /** Closes every record of one login session, or every record. */
  ghost function CloseMatching(e: Entry, login: Option<int>): Entry {
    CloseIds(e, Hit(e, {}, login))
  }

  // The matching records outside todo.
  ghost function Hit(e: Entry, todo: set<ConnId>, login: Option<int>): set<ConnId> {
    set id | id in e.connections && id !in todo && Matches(e.connections[id].ref, login)
  }

  ghost function CloseIds(e: Entry, ids: set<ConnId>): Entry {
    var down := e.voice.Some? && OwnerClosed(e, ids);
    e.(connections := map id | id in e.connections ::
                        if id in ids then e.connections[id].(phase := Closing) else e.connections[id],
       voice := if down then None else e.voice,
       tombstone := if down then e.voice else e.tombstone)
  }

  // The owner of the voice authority is among the records that get closed.
  ghost predicate OwnerClosed(e: Entry, ids: set<ConnId>)
    requires e.voice.Some?
  {
    var a := e.voice.value;
    && a.conn in ids && a.conn in e.connections
    && e.connections[a.conn].phase != Closing && e.connections[a.conn].ref.generation == a.connGeneration
  }

  // removeLocked.
  function Remove(e: Entry, id: ConnId): Entry
    requires id in e.connections
  {
    e.(connections := e.connections - {id}, admitted := if e.connections[id].admitted then e.admitted - 1 else e.admitted)
  }

  // ----- Voice authority -----

  /** An unpublished replacement (with a prepared session) or move (without). */
  datatype Stage = Stage(
    owner: Ref, expected: Option<Authority>, channel: int, prepared: Option<SessionId>, generation: nat, joinedAt: int)

  /** StageVoiceReplacement: checks only a snapshot and changes nothing. */
  function StageVoice(e: Entry, owner: Ref, expected: Option<Authority>, channel: int,
                      prepared: Option<SessionId>, joinedAt: int): Option<Stage>
  {
    if !ValidRef(owner) || channel <= 0 || joinedAt < 0 then None
    else if expected.Some? && (!ValidAuthority(expected.value) || expected.value.user != owner.user) then None
    else if prepared == Some(0) then None
    else if prepared.None? && expected.None? then None
    else if !ActiveRef(e, owner) || e.voice != expected then None
    else if prepared.None? && (expected.value.conn != owner.id || expected.value.connGeneration != owner.generation) then None
    else Some(Stage(owner, expected, channel, prepared, e.nextVoice + 1, joinedAt))
  }

  function Proposed(s: Stage): Authority {
    Authority(s.owner.user, s.channel, s.owner.id, s.owner.generation,
              if s.prepared.Some? then s.prepared.value
              else if s.expected.Some? then s.expected.value.session else 0,
              s.generation, s.joinedAt)
  }

  // The compare-and-set of apply.
  predicate CanInstall(e: Entry, s: Stage) {
    ActiveRef(e, s.owner) && e.voice == s.expected && e.nextVoice + 1 == s.generation
  }

  function Install(e: Entry, s: Stage, session: SessionId): Entry {
    e.(nextVoice := s.generation,
       voice := Some(Authority(s.owner.user, s.channel, s.owner.id, s.owner.generation, session, s.generation, s.joinedAt)),
       tombstone := None)
  }

  /** Clears exactly the expected authority; the observed variant leaves a mark. */
  function ClearVoice(e: Entry, expected: Authority, mark: bool): (Entry, bool) {
    if e.voice == Some(expected)
    then (e.(voice := None, tombstone := if mark then e.voice else e.tombstone), true)
    else (e, false)
  }

  function ClearTombstone(e: Entry, a: Authority): Entry {
    if e.tombstone == Some(a) then e.(tombstone := None) else e
  }

  // ----- Critical sections that neither add nor remove a record -----

  datatype Section =
    | ActivateSection(ref: Ref, expiresAt: int)
    | RenewSection(ref: Ref, expiresAt: int, now: int)
    | CloseSection(ref: Ref)
    | ExpireSection(ref: Ref, lease: Lease, now: int)
    | CloseMatchingSection(login: Option<int>)
    | ClearSection(expected: Authority, mark: bool)
    | ClearTombstoneSection(expected: Authority)
    | InstallSection(stage: Stage, session: SessionId)

  ghost function Perform(e: Entry, c: Section): Entry {
    match c
    case ActivateSection(ref, expiresAt) => Activate(e, ref, expiresAt).0
    case RenewSection(ref, expiresAt, now) => Renew(e, ref, expiresAt, now).0
    case CloseSection(ref) => Close(e, ref).0
    case ExpireSection(ref, lease, now) => ExpireLease(e, ref, lease, now).0
    case CloseMatchingSection(login) => CloseMatching(e, login)
    case ClearSection(expected, mark) => ClearVoice(e, expected, mark).0
    case ClearTombstoneSection(expected) => ClearTombstone(e, expected)
    case InstallSection(stage, session) => if CanInstall(e, stage) then Install(e, stage, session) else e
  }

  /** Same records, same admission; no record comes back from closing or to opening,
      and no lease goes back to an older revision. */
  ghost predicate KeepsRecords(e: Entry, e': Entry) {
    && e'.connections.Keys == e.connections.Keys && e'.admitted == e.admitted
    && e.nextGen == e'.nextGen && e.nextVoice <= e'.nextVoice
    && (forall id | id in e.connections ::
          && e'.connections[id].ref == e.connections[id].ref && e'.connections[id].source == e.connections[id].source
          && (e.connections[id].phase == Closing ==> e'.connections[id].phase == Closing)
          && (e.connections[id].phase != Opening ==>
                e'.connections[id].phase != Opening && e.connections[id].lease.revision <= e'.connections[id].lease.revision))
  }

  // ----- What every critical section keeps -----

  /** Records are keyed by their own id, admitted and never active without a
      transport; an authority implies its active owner and no pending teardown. */
  ghost predicate EntryValid(u: User, e: Entry) {
    && (forall id | id in e.connections ::
          var r := e.connections[id];
          && r.ref.id == id && r.ref.user == u && 0 < r.ref.generation <= e.nextGen
          && r.admitted && (r.phase == Active ==> r.attached))
    && (e.voice.Some? ==> VoiceOwned(u, e, e.voice.value) && e.tombstone.None?)
    && e.admitted == |e.connections.Keys|
  }

  ghost predicate VoiceOwned(u: User, e: Entry, a: Authority) {
    && a.user == u && a.generation <= e.nextVoice
    && a.conn in e.connections && e.connections[a.conn].phase == Active
    && e.connections[a.conn].ref.generation == a.connGeneration
  }

  /** A reservation is a new opening record whose generation is above every other. */
  lemma OpenValid(u: User, e: Entry, id: ConnId, login: int, source: Option<Source>)
    requires EntryValid(u, e) && id !in e.connections
    ensures
      var (e', ref) := Open(e, u, id, login, source);
      && EntryValid(u, e') && Names(e', ref) && !ActiveRef(e', ref) && e'.voice == e.voice
      && (forall other | other in e.connections ::
            e'.connections[other] == e.connections[other] && e.connections[other].ref.generation < ref.generation)
  {}

  lemma UpdateValid(u: User, e: Entry, id: ConnId, r: Record)
    requires EntryValid(u, e) && id in e.connections
    requires r.ref == e.connections[id].ref && r.admitted && (r.phase == Active ==> r.attached)
    requires e.voice.Some? && e.voice.value.conn == id ==> r.phase == Active
    ensures EntryValid(u, e.(connections := e.connections[id := r]))
  {
    assert e.connections[id := r].Keys == e.connections.Keys;
  }

  lemma LeaseValid(u: User, e: Entry, ref: Ref, expiresAt: int, now: int)
    requires EntryValid(u, e)
    ensures EntryValid(u, Activate(e, ref, expiresAt).0)
    ensures EntryValid(u, Renew(e, ref, expiresAt, now).0)
  {
    if Names(e, ref) && e.connections[ref.id].phase != Closing {
      var r := e.connections[ref.id];
      UpdateValid(u, e, ref.id, r.(attached := true, phase := Active, lease := Lease(1, expiresAt)));
      if r.phase == Active {
        UpdateValid(u, e, ref.id, r.(lease := Lease(r.lease.revision + 1, expiresAt)));
      }
    }
  }

  lemma CloseValid(u: User, e: Entry, ref: Ref)
    requires EntryValid(u, e)
    ensures EntryValid(u, Close(e, ref).0)
  {
    if Names(e, ref) {
      var silent := e.(voice := None);
      if e.voice.None? || e.voice.value.conn != ref.id {
        UpdateValid(u, e, ref.id, e.connections[ref.id].(phase := Closing));
      }
      UpdateValid(u, silent, ref.id, e.connections[ref.id].(phase := Closing));
    }
  }

  lemma CloseMatchingValid(u: User, e: Entry, login: Option<int>)
    requires EntryValid(u, e)
    ensures EntryValid(u, CloseMatching(e, login))
  {
    assert CloseMatching(e, login).connections.Keys == e.connections.Keys;
  }

  lemma RemoveValid(u: User, e: Entry, id: ConnId)
    requires EntryValid(u, e) && id in e.connections && e.connections[id].phase != Active
    ensures EntryValid(u, Remove(e, id))
  {}

  lemma ClearVoiceValid(u: User, e: Entry, expected: Authority, mark: bool)
    requires EntryValid(u, e)
    ensures EntryValid(u, ClearVoice(e, expected, mark).0)
    ensures EntryValid(u, ClearTombstone(e, expected))
  {}

  lemma InstallValid(u: User, e: Entry, s: Stage, session: SessionId)
    requires EntryValid(u, e) && s.owner.user == u
    ensures CanInstall(e, s) ==> EntryValid(u, Install(e, s, session))
  {}

  lemma PerformValid(u: User, e: Entry, c: Section)
    requires EntryValid(u, e) && (c.InstallSection? ==> c.stage.owner.user == u)
    ensures EntryValid(u, Perform(e, c))
  {
    hide EntryValid, Activate, Renew, Close, CloseMatching, ClearVoice, ClearTombstone, Install, CanInstall;
    match c
    case ActivateSection(ref, expiresAt) => LeaseValid(u, e, ref, expiresAt, 0);
    case RenewSection(ref, expiresAt, now) => LeaseValid(u, e, ref, expiresAt, now);
    case CloseSection(ref) => CloseValid(u, e, ref);
    case ExpireSection(ref, lease, now) => CloseValid(u, e, ref);
    case CloseMatchingSection(login) => CloseMatchingValid(u, e, login);
    case ClearSection(expected, mark) => ClearVoiceValid(u, e, expected, mark);
    case ClearTombstoneSection(expected) => ClearVoiceValid(u, e, expected, true);
    case InstallSection(stage, session) => InstallValid(u, e, stage, session);
  }

  lemma PerformKeepsRecords(u: User, e: Entry, c: Section)
    requires EntryValid(u, e)
    ensures KeepsRecords(e, Perform(e, c))
  {
    var e' := Perform(e, c);
    hide EntryValid;
    assert e'.connections.Keys == e.connections.Keys;
  }

  // ----- When each section succeeds -----

  /** A close leaves its connection closing and every other record alone; the voice
      authority falls, with its tombstone, exactly when that connection owned it. */
  lemma CloseExact(u: User, e: Entry, ref: Ref)
    requires EntryValid(u, e)
    ensures
      var (e', won) := Close(e, ref);
      && (Names(e, ref) ==> Names(e', ref) && e'.connections[ref.id].phase == Closing)
      && (won <==> Names(e, ref) && e.connections[ref.id].phase != Closing)
      && (forall id | id in e.connections && id != ref.id :: id in e'.connections && e'.connections[id] == e.connections[id])
      && (if Names(e, ref) && e.voice.Some? && e.voice.value.conn == ref.id
          then e'.voice.None? && e'.tombstone == e.voice
          else e'.voice == e.voice && e'.tombstone == e.tombstone)
  {}

  /** A lease runs from activation or renewal to its expiry: until then a renewal
      succeeds and the timer does nothing, from then on a renewal is refused and the
      timer closes the connection. */
  lemma LeaseRunsToItsExpiry(u: User, e: Entry, ref: Ref, expiresAt: int, next: int, now: int)
    requires EntryValid(u, e) && Names(e, ref)
    ensures
      var (active, ok) := Activate(e, ref, expiresAt);
      && (ok <==> e.connections[ref.id].phase == Opening)
      && (ok ==>
            && ActiveRef(active, ref)
            && (now < expiresAt <==> Renew(active, ref, next, now).1)
            && (now >= expiresAt <==> ExpireLease(active, ref, active.connections[ref.id].lease, now).1)
            && (now < expiresAt ==> forall later: int ::
                  var renewed := Renew(active, ref, next, now).0;
                  ExpireLease(renewed, ref, renewed.connections[ref.id].lease, later).1 <==> later >= next))
  {}

  /** A well-formed request is staged exactly when its owner is active and the expected
      authority is the current one, its own for a move; and the stage can be installed
      as long as nothing has changed. */
  lemma StagedIff(e: Entry, owner: Ref, expected: Option<Authority>, channel: int, prepared: Option<SessionId>, joinedAt: int)
    requires ValidRef(owner) && channel > 0 && joinedAt >= 0 && prepared != Some(0)
    requires expected.Some? ==> ValidAuthority(expected.value) && expected.value.user == owner.user
    ensures
      var stage := StageVoice(e, owner, expected, channel, prepared, joinedAt);
      && (stage.Some? <==>
            && ActiveRef(e, owner) && e.voice == expected
            && (prepared.None? ==> expected.Some? && expected.value.conn == owner.id && expected.value.connGeneration == owner.generation))
      && (stage.Some? ==> CanInstall(e, stage.value))
  {}

  // ----- Whole lives of one entry -----

  datatype Step = Do(section: Section) | Add(id: ConnId, login: int, source: Option<Source>) | Delete(id: ConnId)

  /** New records have new ids, and only a record that is not active is removed. */
  ghost predicate CanStep(u: User, e: Entry, step: Step, used: set<ConnId>) {
    match step
    case Do(c) => c.InstallSection? ==> c.stage.owner.user == u
    case Add(id, _, _) => id !in used && id !in e.connections
    case Delete(id) => id in e.connections && e.connections[id].phase != Active
  }

  ghost function After(u: User, e: Entry, step: Step): Entry {
    match step
    case Do(c) => Perform(e, c)
    case Add(id, login, source) => Open(e, u, id, login, source).0
    case Delete(id) => if id in e.connections then Remove(e, id) else e
  }

  ghost predicate Lives(u: User, e: Entry, steps: seq<Step>, used: set<ConnId>)
    decreases |steps|
  {
    steps == [] || (CanStep(u, e, steps[0], used) && Lives(u, After(u, e, steps[0]), steps[1..], used))
  }

  ghost function AfterAll(u: User, e: Entry, steps: seq<Step>): Entry
    decreases |steps|
  {
    if steps == [] then e else AfterAll(u, After(u, e, steps[0]), steps[1..])
  }

  lemma AfterValid(u: User, e: Entry, step: Step, used: set<ConnId>)
    requires EntryValid(u, e) && CanStep(u, e, step, used)
    ensures EntryValid(u, After(u, e, step))
  {
    hide EntryValid, Perform, Open, Remove;
    match step
    case Do(c) => PerformValid(u, e, c);
    case Add(id, login, source) => OpenValid(u, e, id, login, source);
    case Delete(id) => RemoveValid(u, e, id);
  }

  /** The connection has left the lease behind, or is gone. */
  ghost predicate Overtaken(e: Entry, ref: Ref, lease: Lease) {
    Names(e, ref) ==> e.connections[ref.id].phase != Opening && lease.revision < e.connections[ref.id].lease.revision
  }

  lemma OvertakenKept(u: User, e: Entry, step: Step, used: set<ConnId>, ref: Ref, lease: Lease)
    requires EntryValid(u, e) && CanStep(u, e, step, used) && ref.id in used && Overtaken(e, ref, lease)
    ensures Overtaken(After(u, e, step), ref, lease)
  {
    if step.Do? {
      PerformKeepsRecords(u, e, step.section);
      hide Perform;
    }
  }

  lemma {:induction false} OvertakenForever(u: User, e: Entry, steps: seq<Step>, used: set<ConnId>, ref: Ref, lease: Lease)
    requires EntryValid(u, e) && Lives(u, e, steps, used) && ref.id in used && Overtaken(e, ref, lease)
    ensures Overtaken(AfterAll(u, e, steps), ref, lease)
    decreases |steps|
  {
    if steps != [] {
      hide EntryValid, Overtaken, After, CanStep;
      AfterValid(u, e, steps[0], used);
      OvertakenKept(u, e, steps[0], used, ref, lease);
      OvertakenForever(u, After(u, e, steps[0]), steps[1..], used, ref, lease);
    }
  }

  /** Once a renewal has succeeded, a timer armed for any lease up to the one it
      replaced never closes the connection, whatever happens in between. */
  lemma RenewalDefeatsTimers(
    u: User, e: Entry, ref: Ref, expiresAt: int, now: int, lease: Lease, steps: seq<Step>, used: set<ConnId>, later: int)
    requires EntryValid(u, e) && Renew(e, ref, expiresAt, now).1 && ref.id in used
    requires lease.revision <= e.connections[ref.id].lease.revision
    requires Lives(u, Renew(e, ref, expiresAt, now).0, steps, used)
    ensures
      var e' := AfterAll(u, Renew(e, ref, expiresAt, now).0, steps);
      ExpireLease(e', ref, lease, later) == (e', false)
  {
    var renewed := Renew(e, ref, expiresAt, now).0;
    LeaseValid(u, e, ref, expiresAt, now);
    assert Overtaken(renewed, ref, lease);
    hide EntryValid, Lives, AfterAll;
    OvertakenForever(u, renewed, steps, used, ref, lease);
  }

  // The step is a close of ref, by request or by its timer, that wins.
  ghost predicate Wins(e: Entry, step: Step, ref: Ref) {
    && step.Do?
    && match step.section
       case CloseSection(r) => r == ref && Close(e, ref).1
       case ExpireSection(r, lease, now) => r == ref && ExpireLease(e, ref, lease, now).1
       case _ => false
  }

  ghost function Closes(u: User, e: Entry, steps: seq<Step>, ref: Ref): nat
    decreases |steps|
  {
    if steps == [] then 0
    else (if Wins(e, steps[0], ref) then 1 else 0) + Closes(u, After(u, e, steps[0]), steps[1..], ref)
  }

  ghost predicate Closed(e: Entry, ref: Ref) {
    Names(e, ref) ==> e.connections[ref.id].phase == Closing
  }

  lemma ClosedStep(u: User, e: Entry, step: Step, used: set<ConnId>, ref: Ref)
    requires EntryValid(u, e) && CanStep(u, e, step, used) && ref.id in used
    ensures Closed(e, ref) ==> !Wins(e, step, ref) && Closed(After(u, e, step), ref)
    ensures Wins(e, step, ref) ==> Closed(After(u, e, step), ref)
  {
    if step.Do? { PerformKeepsRecords(u, e, step.section); }
  }

  /** Over the whole life of a connection at most one close wins. */
  lemma {:induction false} OneCloseWins(u: User, e: Entry, steps: seq<Step>, used: set<ConnId>, ref: Ref)
    requires EntryValid(u, e) && Lives(u, e, steps, used) && ref.id in used
    ensures Closes(u, e, steps, ref) <= 1
    ensures Closed(e, ref) ==> Closes(u, e, steps, ref) == 0
    decreases |steps|
  {
    if steps != [] {
      hide EntryValid, Closed, After, CanStep, Wins;
      AfterValid(u, e, steps[0], used);
      ClosedStep(u, e, steps[0], used, ref);
      OneCloseWins(u, After(u, e, steps[0]), steps[1..], used, ref);
    }
  }

  // ----- The entry as the program keeps it -----

  class ConnectionUser {
    const user: User
    var connections: map<ConnId, Record>
    var nextGen: nat
    var admitted: int
    var voice: Option<Authority>
    var tombstone: Option<Authority>
    var nextVoice: nat

    ghost function View(): Entry
      reads this
    {
      Entry(connections, nextGen, admitted, voice, tombstone, nextVoice)
    }

    constructor (user: User)
      ensures this.user == user && View() == FRESH && EntryValid(user, View())
    {
      this.user := user;
      connections, nextGen, admitted := map[], 0, 0;
      voice, tombstone, nextVoice := None, None, 0;
    }

    method ActivateConnection(ref: Ref, expiresAt: int) returns (ok: bool)
      requires EntryValid(user, View())
      modifies this
      ensures EntryValid(user, View()) && (View(), ok) == Activate(old(View()), ref, expiresAt)
    {
      if ref.id !in connections || connections[ref.id].ref != ref || connections[ref.id].phase != Opening {
        return false;
      }
      connections := connections[ref.id := connections[ref.id].(attached := true, phase := Active, lease := Lease(1, expiresAt))];
      return true;
    }

    method BeginDisconnectLocked(ref: Ref) returns (ok: bool)
      requires EntryValid(user, View())
      modifies this
      ensures EntryValid(user, View()) && (View(), ok) == Close(old(View()), ref)
    {
      if ref.id !in connections || connections[ref.id].ref != ref || connections[ref.id].phase == Closing {
        return false;
      }
      connections := connections[ref.id := connections[ref.id].(phase := Closing)];
      if voice.Some? && voice.value.conn == ref.id && voice.value.connGeneration == ref.generation {
        tombstone := voice;
        voice := None;
      }
      return true;
    }

    /** The loop of disconnectMatching and DisconnectAll over one user. */
    method DisconnectMatching(login: Option<int>)
      requires EntryValid(user, View())
      modifies this
      ensures EntryValid(user, View()) && View() == CloseMatching(old(View()), login)
    {
      ghost var e := View();
      var todo := connections.Keys;
      CloseNone(e);
      assert Hit(e, todo, login) == {};
      hide CloseIds, EntryValid;
      while todo != {}
        invariant todo <= e.connections.Keys
        invariant EntryValid(user, e) && EntryValid(user, View())
        invariant View() == CloseIds(e, Hit(e, todo, login))
        decreases |todo|
      {
        var id :| id in todo;
        CloseIfMatching(id, e, todo, login);
        todo := todo - {id};
      }
    }

    method CloseIfMatching(id: ConnId, ghost e: Entry, ghost todo: set<ConnId>, login: Option<int>)
      requires EntryValid(user, e) && EntryValid(user, View()) && id in todo && id in e.connections
      requires View() == CloseIds(e, Hit(e, todo, login))
      modifies this
      ensures EntryValid(user, View()) && View() == CloseIds(e, Hit(e, todo - {id}, login))
    {
      ghost var hit := Hit(e, todo, login);
      CloseOneMore(user, e, hit, id);
      hide EntryValid, CloseIds, Close;
      assert connections[id] == View().connections[id];
      var ref := connections[id].ref;
      if login.None? || ref.login == login.value {
        var closed := BeginDisconnectLocked(ref);
        assert Hit(e, todo - {id}, login) == hit + {id};
      } else {
        assert Hit(e, todo - {id}, login) == hit;
      }
    }

    /** apply without its session activation: compare, then set. */
    method InstallVoice(s: Stage, session: SessionId) returns (ok: bool)
      requires EntryValid(user, View()) && s.owner.user == user
      modifies this
      ensures EntryValid(user, View())
      ensures ok <==> CanInstall(old(View()), s)
      ensures View() == if ok then Install(old(View()), s, session) else old(View())
    {
      if s.owner.id !in connections || connections[s.owner.id].ref != s.owner || connections[s.owner.id].phase != Active
         || voice != s.expected || nextVoice + 1 != s.generation {
        return false;
      }
      nextVoice := s.generation;
      voice := Some(Authority(s.owner.user, s.channel, s.owner.id, s.owner.generation, session, s.generation, s.joinedAt));
      tombstone := None;
      return true;
    }
  }

  lemma CloseNone(e: Entry)
    ensures CloseIds(e, {}) == e
  {
    assert CloseIds(e, {}).connections == e.connections;
  }

  lemma CloseOneMore(u: User, e: Entry, ids: set<ConnId>, id: ConnId)
    requires EntryValid(u, e) && id in e.connections && id !in ids
    ensures id in CloseIds(e, ids).connections && CloseIds(e, ids).connections[id] == e.connections[id]
    ensures Close(CloseIds(e, ids), e.connections[id].ref).0 == CloseIds(e, ids + {id})
  {
    var before, after := CloseIds(e, ids), CloseIds(e, ids + {id});
    var step := Close(before, e.connections[id].ref).0;
    assert step.connections == after.connections;
    assert step.voice == after.voice && step.tombstone == after.tombstone;
  }
}
