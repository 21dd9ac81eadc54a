/** The coordinator's voice authorities together with the session registry: staged
replacements commit by compare-and-set while connections close, entries are pruned
and sessions expire in between. */
module Voice {
  import opened Wrappers
  import opened Connections
  import S = Sessions

  /** issued, stages and installed record history: every connection id handed out,
      every stage built and every authority installed, oldest first. */
  datatype State = State(
    entries: map<User, Entry>, registry: S.Registry,
    issued: set<ConnId>, stages: set<Stage>, installed: seq<Authority>)

  function EntryOf(s: State, u: User): Entry {
    if u in s.entries then s.entries[u] else FRESH
  }

  function SetEntry(s: State, u: User, e: Entry): State {
    s.(entries := s.entries[u := e])
  }

  datatype Action =
    | Reserve(user: User, id: ConnId, login: int, source: Option<Source>)
    | Critical(user: User, section: Section)
    | RemoveRecord(user: User, id: ConnId)
    | Prune(user: User)
    | Build(owner: Ref, expected: Option<Authority>, channel: int, prepared: Option<SessionId>, joinedAt: int)
    | Commit(stage: Stage, allowMissing: bool, retain: bool, now: int)
    | Teardown(target: Authority, managed: bool, mark: bool, now: int)
    | Sessions(step: S.Step)

  /** Sections on one user that leave the installed authority's session alone. */
  predicate PlainSection(c: Section) {
    !c.InstallSection? && !c.ClearSection?
  }

  // The owner check that StageVoiceReplacement makes on a prepared session.
  predicate PreparedFor(r: S.Registry, prepared: Option<SessionId>, u: User) {
    prepared.Some? ==> prepared.value in r.heap && r.heap[prepared.value].userID == u
  }

  ghost predicate CanAct(s: State, a: Action) {
    match a
    case Reserve(u, id, login, source) => id !in s.issued
    case Critical(u, section) => PlainSection(section)
    case RemoveRecord(u, id) => id in EntryOf(s, u).connections && EntryOf(s, u).connections[id].phase != Active
    case Prune(u) => EntryOf(s, u).connections == map[]
    case Build(owner, expected, channel, prepared, joinedAt) => PreparedFor(s.registry, prepared, owner.user)
    case Commit(stage, allowMissing, retain, now) => stage in s.stages
    case Teardown(target, managed, mark, now) => true
    case Sessions(step) => S.Enabled(s.registry, step) && !step.ActivateStep?
  }

  function ExpectedSession(s: Stage): Option<S.Id> {
    if s.expected.Some? then Some(s.expected.value.session) else None
  }

  /** apply: compare, activate or look up the session, and only then install. */
  function CommitStage(s: State, st: Stage, allowMissing: bool, retain: bool, now: int): (State, Option<Authority>)
    requires s.registry.sessions <= s.registry.heap.Keys && PreparedFor(s.registry, st.prepared, st.owner.user)
  {
    var e := EntryOf(s, st.owner.user);
    if !ValidRef(st.owner) || (st.prepared.None? && st.expected.None?) || !CanInstall(e, st) then (s, None)
    else if st.prepared.Some? then
      var (r, out) := S.Activate(s.registry, st.prepared.value, ExpectedSession(st), allowMissing, retain, now);
      if out.error.Some? then (s.(registry := r), None)
      else Installed(s.(registry := r), st, st.prepared.value)
    else
      var session := st.expected.value.session;
      var (r, out) := S.Lookup(s.registry, session, retain, now);
      if out.error.Some? || s.registry.heap[session].userID != st.owner.user then (s.(registry := r), None)
      else Installed(s.(registry := r), st, session)
  }

  function Installed(s: State, st: Stage, session: SessionId): (State, Option<Authority>) {
    var e := Install(EntryOf(s, st.owner.user), st, session);
    (SetEntry(s, st.owner.user, e).(installed := s.installed + [e.voice.value]), e.voice)
  }

  /** beginVoiceDisconnect and beginVoiceRevoke: a missing session counts as gone,
      another user's session stops the teardown. */
  function TeardownVoice(s: State, expected: Authority, managed: bool, mark: bool, now: int): (State, bool)
    requires s.registry.sessions <= s.registry.heap.Keys
  {
    var e := EntryOf(s, expected.user);
    if !ValidAuthority(expected) || e.voice != Some(expected) then (s, false)
    else
      var (r, out) := S.RemoveOwned(s.registry, expected.session, expected.user, now);
      if managed && out.error == Some(S.NotOwned) then (s, false)
      else (SetEntry(s, expected.user, ClearVoice(e, expected, mark).0).(registry := if managed then r else s.registry), true)
  }

  ghost function Act(s: State, a: Action): State
    requires CanAct(s, a) && Inv(s)
  {
    match a
    case Reserve(u, id, login, source) =>
      SetEntry(s, u, Open(EntryOf(s, u), u, id, login, source).0).(issued := s.issued + {id})
    case Critical(u, section) => SetEntry(s, u, Perform(EntryOf(s, u), section))
    case RemoveRecord(u, id) => SetEntry(s, u, Remove(EntryOf(s, u), id))
    case Prune(u) => s.(entries := s.entries - {u})
    case Build(owner, expected, channel, prepared, joinedAt) =>
      var built := StageVoice(EntryOf(s, owner.user), owner, expected, channel, prepared, joinedAt);
      if built.Some? then s.(stages := s.stages + {built.value}) else s
    case Commit(stage, allowMissing, retain, now) => CommitStage(s, stage, allowMissing, retain, now).0
    case Teardown(target, managed, mark, now) => TeardownVoice(s, target, managed, mark, now).0
    case Sessions(step) => s.(registry := S.Apply(s.registry, step))
  }

  // ----- The invariant -----

  ghost predicate EntryFits(u: User, e: Entry, issued: set<ConnId>) {
    EntryValid(u, e) && e.connections.Keys <= issued
  }

  /** A user's session, while it has one, is the one its authority names. */
  ghost predicate Agrees(u: User, e: Entry, byUser: map<User, S.Id>) {
    e.voice.Some? && u in byUser ==> byUser[u] == e.voice.value.session
  }

  ghost predicate EntriesFit(s: State) {
    forall u | u in s.entries :: EntryFits(u, s.entries[u], s.issued) && Agrees(u, s.entries[u], s.registry.byUser)
  }

  // What StageVoiceReplacement has checked of a stage it built.
  predicate WellBuilt(st: Stage) {
    && ValidRef(st.owner) && st.channel > 0 && st.joinedAt >= 0 && st.generation > 0
    && st.prepared != Some(0) && (st.expected.Some? ==> ValidAuthority(st.expected.value))
  }

  ghost predicate StageFits(r: S.Registry, st: Stage) {
    PreparedFor(r, st.prepared, st.owner.user) && WellBuilt(st)
  }

  ghost predicate StagesFit(s: State) {
    forall st | st in s.stages :: StageFits(s.registry, st)
  }

  /** Every authority is complete, and its session is one prepared for its user. */
  ghost predicate Genuine(r: S.Registry, installed: seq<Authority>) {
    forall a | a in installed :: ValidAuthority(a) && OwnSession(r, a.session, a.user)
  }

  ghost predicate OwnSession(r: S.Registry, session: S.Id, u: User) {
    session in r.heap && r.heap[session].userID == u
  }

  /** While its connection lives, an installed authority is not above the counter. */
  ghost predicate Counted(s: State, a: Authority) {
    && a.conn in s.issued
    && (a.conn in EntryOf(s, a.user).connections ==> a.generation <= EntryOf(s, a.user).nextVoice)
  }

  ghost predicate InstalledFit(s: State) {
    && (forall a | a in s.installed :: Counted(s, a))
    && (forall u | u in s.entries && s.entries[u].voice.Some? :: s.entries[u].voice.value in s.installed)
  }

  ghost predicate Distinct(log: seq<Authority>) {
    forall i, j | 0 <= i < j < |log| :: log[i] != log[j]
  }

  ghost predicate Inv(s: State) {
    && S.Valid(s.registry) && EntriesFit(s) && StagesFit(s) && InstalledFit(s) && Distinct(s.installed)
    && Genuine(s.registry, s.installed)
  }

  ghost predicate Init(s: State) {
    s == State(map[], S.EMPTY, {}, {}, [])
  }

  lemma InitInv(s: State)
    requires Init(s)
    ensures Inv(s)
  {}

  // ----- Steps of the registry alone -----

  ghost predicate Shrinks(byUser: map<User, S.Id>, byUser': map<User, S.Id>) {
    forall u | u in byUser' :: u in byUser && byUser'[u] == byUser[u]
  }

  /** Only an activation can give a user a session. */
  lemma StepShrinks(r: S.Registry, step: S.Step)
    requires S.Valid(r) && S.Enabled(r, step) && !step.ActivateStep?
    ensures Shrinks(r.byUser, S.Apply(r, step).byUser)
  {
    match step
    case LookupStep(id, retain, now) => if id in r.sessions { S.RemoveValid(r, id); }
    case LookupUserStep(user, retain, now) => if user in r.byUser { S.RemoveValid(r, r.byUser[user]); }
    case RemoveStep(id, user, now) => S.RemoveOwnedValid(r, id, user, now);
    case _ =>
  }

  lemma RegistryInv(s: State, r: S.Registry)
    requires Inv(s) && S.Valid(r) && S.Keeps(s.registry, r) && Shrinks(s.registry.byUser, r.byUser)
    ensures Inv(s.(registry := r))
  {
    var s' := s.(registry := r);
    hide S.Valid, EntryFits;
    assert Genuine(r, s.installed) by { hide EntriesFit, StagesFit, InstalledFit; }
    assert StagesFit(s') by { hide EntriesFit, InstalledFit, Genuine; }
    hide Genuine;
    assert EntriesFit(s') by { hide S.Keeps, InstalledFit, StagesFit; }
    assert InstalledFit(s') by { hide S.Keeps, EntriesFit, StagesFit; }
  }

  // ----- Steps of one entry -----

  /** The entry gains only new connection ids and keeps or loses its authority. */
  ghost predicate Quiet(s: State, u: User, e: Entry, issued: set<ConnId>) {
    && s.issued <= issued && EntryFits(u, e, issued)
    && e.connections.Keys <= EntryOf(s, u).connections.Keys + (issued - s.issued)
    && EntryOf(s, u).nextVoice <= e.nextVoice
    && (e.voice.None? || e.voice == EntryOf(s, u).voice)
  }

  lemma EntryKept(s: State, u: User, e: Entry, issued: set<ConnId>)
    requires EntriesFit(s) && StagesFit(s) && InstalledFit(s) && Quiet(s, u, e, issued)
    ensures
      var s' := SetEntry(s, u, e).(issued := issued);
      EntriesFit(s') && StagesFit(s') && InstalledFit(s')
  {
    var s' := SetEntry(s, u, e).(issued := issued);
    hide EntryValid;
    assert StagesFit(s') by { hide EntriesFit, InstalledFit; }
    assert EntriesFit(s') by { hide InstalledFit, StagesFit; }
    assert InstalledFit(s') by { hide EntriesFit, StagesFit, EntryFits; }
  }

  lemma PruneInv(s: State, u: User)
    requires Inv(s) && EntryOf(s, u).connections == map[]
    ensures Inv(s.(entries := s.entries - {u}))
  {
    var s' := s.(entries := s.entries - {u});
    hide S.Valid, EntryFits;
    assert forall v :: EntryOf(s', v) == if v == u then FRESH else EntryOf(s, v);
    assert InstalledFit(s') by { hide EntriesFit, StagesFit; }
    assert EntriesFit(s') by { hide InstalledFit, StagesFit; }
  }

  lemma EntryFacts(s: State, u: User)
    requires EntriesFit(s)
    ensures EntryFits(u, EntryOf(s, u), s.issued) && Agrees(u, EntryOf(s, u), s.registry.byUser)
  {}

  lemma VoiceGenuine(s: State, u: User)
    requires EntriesFit(s) && InstalledFit(s) && Genuine(s.registry, s.installed) && EntryOf(s, u).voice.Some?
    ensures
      var a := EntryOf(s, u).voice.value;
      a.user == u && ValidAuthority(a) && OwnSession(s.registry, a.session, u)
  {
    assert s.entries[u].voice.value in s.installed;
  }

  lemma ReserveInv(s: State, u: User, id: ConnId, login: int, source: Option<Source>)
    requires Inv(s) && id !in s.issued
    ensures Inv(SetEntry(s, u, Open(EntryOf(s, u), u, id, login, source).0).(issued := s.issued + {id}))
  {
    EntryFacts(s, u);
    OpenValid(u, EntryOf(s, u), id, login, source);
    hide EntriesFit, StagesFit, InstalledFit, S.Valid, EntryValid;
    EntryKept(s, u, Open(EntryOf(s, u), u, id, login, source).0, s.issued + {id});
  }

  lemma PlainKeepsVoice(e: Entry, c: Section)
    requires PlainSection(c)
    ensures Perform(e, c).voice.None? || Perform(e, c).voice == e.voice
  {}

  lemma CriticalInv(s: State, u: User, c: Section)
    requires Inv(s) && PlainSection(c)
    ensures Inv(SetEntry(s, u, Perform(EntryOf(s, u), c)))
  {
    EntryFacts(s, u);
    hide EntriesFit, StagesFit, InstalledFit, S.Valid, EntryValid, Perform;
    PerformValid(u, EntryOf(s, u), c);
    PerformKeepsRecords(u, EntryOf(s, u), c);
    PlainKeepsVoice(EntryOf(s, u), c);
    EntryKept(s, u, Perform(EntryOf(s, u), c), s.issued);
  }

  lemma RemoveRecordInv(s: State, u: User, id: ConnId)
    requires Inv(s) && id in EntryOf(s, u).connections && EntryOf(s, u).connections[id].phase != Active
    ensures Inv(SetEntry(s, u, Remove(EntryOf(s, u), id)))
  {
    EntryFacts(s, u);
    hide EntriesFit, StagesFit, InstalledFit, S.Valid, EntryValid;
    RemoveValid(u, EntryOf(s, u), id);
    EntryKept(s, u, Remove(EntryOf(s, u), id), s.issued);
  }

  // ----- Committing and tearing down -----

  /** An installation never repeats an earlier authority. */
  lemma InstallInv(s: State, st: Stage, session: SessionId, r: S.Registry)
    requires Inv(s) && CanInstall(EntryOf(s, st.owner.user), st) && WellBuilt(st) && session != 0
    requires S.Valid(r) && S.Keeps(s.registry, r) && OwnSession(s.registry, session, st.owner.user)
    requires Shrinks(s.registry.byUser[st.owner.user := session], r.byUser)
    ensures Inv(Installed(s.(registry := r), st, session).0)
  {
    var u := st.owner.user;
    var e := Install(EntryOf(s, u), st, session);
    var s' := Installed(s.(registry := r), st, session).0;
    EntryFacts(s, u);
    InstallValid(u, EntryOf(s, u), st, session);
    assert EntryFits(u, e, s.issued) by { hide Inv; }
    assert Genuine(r, s'.installed) by { hide EntriesFit, StagesFit, InstalledFit, S.Valid, EntryValid; }
    hide S.Valid, EntryValid, Genuine;
    assert StagesFit(s') by { hide EntriesFit, InstalledFit; }
    assert EntriesFit(s') by { hide InstalledFit, StagesFit, S.Keeps; }
    InstallLogged(s, st, session, r);
  }

  lemma InstallLogged(s: State, st: Stage, session: SessionId, r: S.Registry)
    requires InstalledFit(s) && Distinct(s.installed) && CanInstall(EntryOf(s, st.owner.user), st)
    requires EntryOf(s, st.owner.user).connections.Keys <= s.issued
    ensures InstalledFit(Installed(s.(registry := r), st, session).0)
    ensures Distinct(Installed(s.(registry := r), st, session).0.installed)
  {
    var u := st.owner.user;
    var s' := Installed(s.(registry := r), st, session).0;
    var a := s'.entries[u].voice.value;
    assert forall b | b in s'.installed :: b in s.installed || b == a;
    forall b | b in s.installed ensures b != a && Counted(s', b) {
      assert Counted(s, b);
    }
    assert forall i | 0 <= i < |s.installed| :: s.installed[i] in s.installed;
  }

  lemma ActivateShrinks(r: S.Registry, id: S.Id, expected: Option<S.Id>, allowMissing: bool, retain: bool, now: int)
    requires S.Valid(r) && id in r.heap
    requires S.Activate(r, id, expected, allowMissing, retain, now).1.error.Some?
    ensures Shrinks(r.byUser, S.Activate(r, id, expected, allowMissing, retain, now).0.byUser)
  {
    var user := r.heap[id].userID;
    if user in r.byUser { S.RemoveValid(r, r.byUser[user]); }
  }

  lemma CommitInv(s: State, st: Stage, allowMissing: bool, retain: bool, now: int)
    requires Inv(s) && StageFits(s.registry, st)
    ensures Inv(CommitStage(s, st, allowMissing, retain, now).0)
  {
    var r := s.registry;
    hide S.Activate, S.Lookup, S.Keeps, Inv, Installed;
    if !ValidRef(st.owner) || (st.prepared.None? && st.expected.None?) || !CanInstall(EntryOf(s, st.owner.user), st) {
    } else if st.prepared.Some? {
      CommitPreparedInv(s, st, allowMissing, retain, now);
    } else {
      CommitMoveInv(s, st, retain, now);
    }
  }

  lemma CommitPreparedInv(s: State, st: Stage, allowMissing: bool, retain: bool, now: int)
    requires Inv(s) && StageFits(s.registry, st) && st.prepared.Some?
    requires CanInstall(EntryOf(s, st.owner.user), st)
    ensures
      var (r, out) := S.Activate(s.registry, st.prepared.value, ExpectedSession(st), allowMissing, retain, now);
      if out.error.Some? then Inv(s.(registry := r)) else Inv(Installed(s.(registry := r), st, st.prepared.value).0)
  {
    var (r, out) := S.Activate(s.registry, st.prepared.value, ExpectedSession(st), allowMissing, retain, now);
    S.ActivateValid(s.registry, st.prepared.value, ExpectedSession(st), allowMissing, retain, now);
    if out.error.Some? { ActivateShrinks(s.registry, st.prepared.value, ExpectedSession(st), allowMissing, retain, now); }
    hide S.Activate, S.Valid, S.Keeps, EntriesFit, StagesFit, InstalledFit, CanInstall, Installed, Genuine;
    if out.error.Some? {
      RegistryInv(s, r);
    } else {
      InstallInv(s, st, st.prepared.value, r);
    }
  }

  lemma CommitMoveInv(s: State, st: Stage, retain: bool, now: int)
    requires Inv(s) && WellBuilt(st) && st.prepared.None? && st.expected.Some? && CanInstall(EntryOf(s, st.owner.user), st)
    ensures
      var session := st.expected.value.session;
      var (r, out) := S.Lookup(s.registry, session, retain, now);
      if out.error.Some? || s.registry.heap[session].userID != st.owner.user then Inv(s.(registry := r))
      else Inv(Installed(s.(registry := r), st, session).0)
  {
    var session := st.expected.value.session;
    var (r, out) := S.Lookup(s.registry, session, retain, now);
    EntryFacts(s, st.owner.user);
    VoiceGenuine(s, st.owner.user);
    StepShrinks(s.registry, S.LookupStep(session, retain, now));
    S.LookupValid(s.registry, session, retain, now);
    hide S.Valid, S.Keeps, EntriesFit, StagesFit, InstalledFit, Installed, EntryFits, Genuine;
    RegistryInv(s, r);
    if out.error.None? && s.registry.heap[session].userID == st.owner.user {
      InstallInv(s, st, session, r);
    }
  }

  lemma TeardownInv(s: State, a: Authority, managed: bool, mark: bool, now: int)
    requires Inv(s)
    ensures Inv(TeardownVoice(s, a, managed, mark, now).0)
  {
    hide EntriesFit, StagesFit, InstalledFit, S.RemoveOwned, ClearVoice;
    RemoveOwnedInv(s, a.session, a.user, now);
    ClearInv(s, a, mark);
    ClearInv(s.(registry := S.RemoveOwned(s.registry, a.session, a.user, now).0), a, mark);
  }

  lemma ClearInv(s: State, a: Authority, mark: bool)
    requires Inv(s)
    ensures Inv(SetEntry(s, a.user, ClearVoice(EntryOf(s, a.user), a, mark).0))
  {
    EntryFacts(s, a.user);
    ClearVoiceValid(a.user, EntryOf(s, a.user), a, mark);
    hide EntriesFit, StagesFit, InstalledFit, S.Valid, EntryValid;
    EntryKept(s, a.user, ClearVoice(EntryOf(s, a.user), a, mark).0, s.issued);
  }

  lemma RemoveOwnedInv(s: State, id: S.Id, user: User, now: int)
    requires Inv(s)
    ensures Inv(s.(registry := S.RemoveOwned(s.registry, id, user, now).0))
  {
    S.RemoveOwnedValid(s.registry, id, user, now);
    StepShrinks(s.registry, S.RemoveStep(id, user, now));
    hide S.Valid, EntriesFit, StagesFit, InstalledFit, S.RemoveOwned;
    RegistryInv(s, S.RemoveOwned(s.registry, id, user, now).0);
  }

  lemma ActInv(s: State, a: Action)
    requires Inv(s) && CanAct(s, a)
    ensures Inv(Act(s, a))
  {
    hide S.Valid, S.Keeps, EntriesFit, InstalledFit, CommitStage, TeardownVoice;
    match a
    case Reserve(u, id, login, source) => ReserveInv(s, u, id, login, source);
    case Critical(u, section) => CriticalInv(s, u, section);
    case RemoveRecord(u, id) => RemoveRecordInv(s, u, id);
    case Prune(u) => PruneInv(s, u);
    case Build(owner, expected, channel, prepared, joinedAt) => BuildInv(s, owner, expected, channel, prepared, joinedAt);
    case Commit(stage, allowMissing, retain, now) => CommitInv(s, stage, allowMissing, retain, now);
    case Teardown(target, managed, mark, now) => TeardownInv(s, target, managed, mark, now);
    case Sessions(step) =>
      S.StepValid(s.registry, step);
      StepShrinks(s.registry, step);
      RegistryInv(s, S.Apply(s.registry, step));
  }

  lemma BuiltWell(e: Entry, owner: Ref, expected: Option<Authority>, channel: int, prepared: Option<SessionId>, joinedAt: int)
    ensures
      var built := StageVoice(e, owner, expected, channel, prepared, joinedAt);
      built.Some? ==> WellBuilt(built.value) && built.value.owner == owner && built.value.prepared == prepared
  {}

  lemma BuildInv(s: State, owner: Ref, expected: Option<Authority>, channel: int, prepared: Option<SessionId>, joinedAt: int)
    requires Inv(s) && PreparedFor(s.registry, prepared, owner.user)
    ensures Inv(Act(s, Build(owner, expected, channel, prepared, joinedAt)))
  {
    var s' := Act(s, Build(owner, expected, channel, prepared, joinedAt));
    BuiltWell(EntryOf(s, owner.user), owner, expected, channel, prepared, joinedAt);
    hide S.Valid, EntryFits, StageVoice, WellBuilt, Genuine;
    assert StagesFit(s') by { hide EntriesFit, InstalledFit; }
    assert EntriesFit(s') by { hide InstalledFit, StagesFit; }
    assert InstalledFit(s') by { hide EntriesFit, StagesFit; }
  }

  // ----- Whole runs -----

  ghost predicate Reaches(s: State, actions: seq<Action>, s': State)
    requires Inv(s)
    decreases |actions|
  {
    if actions == [] then s == s'
    else CanAct(s, actions[0]) && (ActInv(s, actions[0]); Reaches(Act(s, actions[0]), actions[1..], s'))
  }

  lemma {:induction false} ReachesInv(s: State, actions: seq<Action>, s': State)
    requires Inv(s) && Reaches(s, actions, s')
    ensures Inv(s')
    decreases |actions|
  {
    hide Inv, Act, CanAct;
    if actions != [] {
      ActInv(s, actions[0]);
      ReachesInv(Act(s, actions[0]), actions[1..], s');
    }
  }

  /** In every reachable state an authority implies its active owner of the same
      generation, no pending teardown, and no session of that user but the one it
      names; and no authority was ever installed twice. */
  lemma AuthorityMatchesSession(s0: State, actions: seq<Action>, s: State)
    requires Init(s0) && (InitInv(s0); Reaches(s0, actions, s))
    ensures forall u | u in s.entries && s.entries[u].voice.Some? ::
      && VoiceOwned(u, s.entries[u], s.entries[u].voice.value) && s.entries[u].tombstone.None?
      && (u in s.registry.byUser ==> s.registry.byUser[u] == s.entries[u].voice.value.session)
    ensures Distinct(s.installed)
  {
    InitInv(s0);
    hide Reaches, Init;
    ReachesInv(s0, actions, s);
  }

  /** What a commit installs is what its stage proposed. */
  lemma CommitInstallsProposal(s: State, st: Stage, allowMissing: bool, retain: bool, now: int)
    requires Inv(s) && PreparedFor(s.registry, st.prepared, st.owner.user)
    ensures
      var (s', a) := CommitStage(s, st, allowMissing, retain, now);
      if a.Some? then a.value == Proposed(st) && EntryOf(s', st.owner.user).voice == a && s'.installed == s.installed + [a.value]
      else s'.entries == s.entries && s'.installed == s.installed
  {
    hide EntriesFit, StagesFit, InstalledFit, Genuine, Distinct, S.Valid, S.Activate, S.Lookup;
  }

  /** A stage commits if and only if the compare-and-set still holds and its session can
      be published, or for a move is live. */
  lemma CommitSucceedsIff(s: State, st: Stage, allowMissing: bool, retain: bool, now: int)
    requires Inv(s) && st in s.stages
    ensures PreparedFor(s.registry, st.prepared, st.owner.user) && s.registry.sessions <= s.registry.heap.Keys
    ensures CommitStage(s, st, allowMissing, retain, now).1.Some? <==>
      && CanInstall(EntryOf(s, st.owner.user), st)
      && if st.prepared.Some?
         then && st.prepared.value !in s.registry.used && !s.registry.heap[st.prepared.value].Expired(now)
              && S.ExpectationMet(s.registry, st.owner.user, ExpectedSession(st), allowMissing, now)
         else && st.expected.Some? && st.expected.value.session in s.registry.sessions
              && !s.registry.heap[st.expected.value.session].Expired(now)
  {
    assert StageFits(s.registry, st);
    if st.prepared.Some? {
      S.ActivateValid(s.registry, st.prepared.value, ExpectedSession(st), allowMissing, retain, now);
      hide S.Activate, S.Keeps;
    } else if st.expected.Some? && EntryOf(s, st.owner.user).voice == st.expected {
      VoiceGenuine(s, st.owner.user);
      S.LookupValid(s.registry, st.expected.value.session, retain, now);
      hide S.Lookup, S.Keeps;
    }
    hide EntriesFit, StagesFit, InstalledFit, Genuine;
  }

  /** In every reachable state a teardown succeeds if and only if its target is the
      user's current authority, whether the session is live, expired or already gone;
      a managed one then leaves neither authority nor session. */
  lemma TeardownSucceedsIff(s0: State, actions: seq<Action>, s: State, a: Authority, managed: bool, mark: bool, now: int)
    requires Init(s0) && (InitInv(s0); Reaches(s0, actions, s))
    ensures s.registry.sessions <= s.registry.heap.Keys
    ensures
      var (s', ok) := TeardownVoice(s, a, managed, mark, now);
      && (ok <==> EntryOf(s, a.user).voice == Some(a))
      && (ok ==> EntryOf(s', a.user).voice.None? && (mark ==> EntryOf(s', a.user).tombstone == Some(a)))
      && (ok && managed ==> a.user !in s'.registry.byUser && a.session !in s'.registry.sessions)
      && (!ok ==> s' == s)
  {
    InitInv(s0);
    hide Reaches, Init;
    ReachesInv(s0, actions, s);
    EntryFacts(s, a.user);
    if EntryOf(s, a.user).voice == Some(a) {
      VoiceGenuine(s, a.user);
    }
    S.RemoveOwnedValid(s.registry, a.session, a.user, now);
    hide S.RemoveOwned, EntriesFit, StagesFit, InstalledFit, Genuine;
  }

  /** A teardown meant for an earlier authority never removes a later one. */
  lemma StaleTeardownIsHarmless(s: State, i: nat, j: nat, managed: bool, mark: bool, now: int)
    requires Inv(s) && i < j < |s.installed| && EntryOf(s, s.installed[j].user).voice == Some(s.installed[j])
    requires s.installed[i].user == s.installed[j].user
    ensures TeardownVoice(s, s.installed[i], managed, mark, now) == (s, false)
  {
    assert s.installed[i] != s.installed[j];
  }

  // ----- Competing stages -----

  /** st can no longer commit: its owner is gone or its generation was passed. */
  ghost predicate Spent(s: State, st: Stage) {
    && st.owner.id in s.issued
    && (st.owner.id in EntryOf(s, st.owner.user).connections ==> st.generation <= EntryOf(s, st.owner.user).nextVoice)
  }

  /** An id leaves its entry for good, and counters fall only when it has. */
  ghost predicate Ages(s: State, s': State) {
    && s.issued <= s'.issued
    && (forall u, id | id in s.issued && id in EntryOf(s', u).connections ::
          id in EntryOf(s, u).connections && EntryOf(s, u).nextVoice <= EntryOf(s', u).nextVoice)
  }

  lemma SetEntryAges(s: State, u: User, e: Entry, issued: set<ConnId>)
    requires s.issued <= issued && e.connections.Keys <= EntryOf(s, u).connections.Keys + (issued - s.issued)
    requires EntryOf(s, u).nextVoice <= e.nextVoice
    ensures Ages(s, SetEntry(s, u, e).(issued := issued))
  {}

  lemma ActAges(s: State, a: Action)
    requires Inv(s) && CanAct(s, a)
    ensures Ages(s, Act(s, a))
  {
    hide Inv, S.Activate, S.Lookup, S.RemoveOwned, S.Apply, S.Enabled;
    match a
    case Reserve(u, id, login, source) => SetEntryAges(s, u, Open(EntryOf(s, u), u, id, login, source).0, s.issued + {id});
    case Critical(u, section) =>
      EntryValidOf(s, u);
      PerformKeepsRecords(u, EntryOf(s, u), section);
      SetEntryAges(s, u, Perform(EntryOf(s, u), section), s.issued);
    case RemoveRecord(u, id) => SetEntryAges(s, u, Remove(EntryOf(s, u), id), s.issued);
    case Prune(u) =>
    case Build(owner, expected, channel, prepared, joinedAt) =>
    case Commit(st, allowMissing, retain, now) =>
    case Teardown(target, managed, mark, now) =>
    case Sessions(step) =>
  }

  lemma EntryValidOf(s: State, u: User)
    requires Inv(s)
    ensures EntryValid(u, EntryOf(s, u))
  {
    EntryFacts(s, u);
  }

  lemma {:induction false} SpentForever(s: State, st: Stage, actions: seq<Action>, s': State)
    requires Inv(s) && Reaches(s, actions, s') && st.owner.id in s.issued
    ensures st.owner.id in s'.issued
    ensures Spent(s, st) ==> Spent(s', st)
    decreases |actions|
  {
    hide Inv, Act, CanAct;
    if actions != [] {
      ActInv(s, actions[0]);
      ActAges(s, actions[0]);
      SpentForever(Act(s, actions[0]), st, actions[1..], s');
    }
  }

  /** Of two stages built from one coordinator state, once one has committed the
      other, or the same one again, is refused in every later state. */
  lemma AtMostOneCommits(
    s: State, st: Stage, rival: Stage, before: seq<Action>, s1: State,
    allowMissing: bool, retain: bool, now: int, after: seq<Action>, s2: State)
    requires Inv(s) && BuiltFrom(s, st) && BuiltFrom(s, rival) && st.owner.user == rival.owner.user
    requires Reaches(s, before, s1) && (ReachesInv(s, before, s1); CanAct(s1, Commit(st, allowMissing, retain, now)))
    requires CommitStage(s1, st, allowMissing, retain, now).1.Some?
    requires (CommitInv(s1, st, allowMissing, retain, now);
              Reaches(CommitStage(s1, st, allowMissing, retain, now).0, after, s2))
    ensures !CanInstall(EntryOf(s2, rival.owner.user), rival)
  {
    EntryValidOf(s, st.owner.user);
    OwnerIssued(s, rival);
    ReachesInv(s, before, s1);
    SpentForever(s, rival, before, s1);
    var committed := CommitStage(s1, st, allowMissing, retain, now).0;
    CommitInv(s1, st, allowMissing, retain, now);
    CommitInstallsProposal(s1, st, allowMissing, retain, now);
    CommitSpends(s1, st, rival, allowMissing, retain, now);
    hide Inv, CommitStage, Reaches;
    SpentForever(committed, rival, after, s2);
  }

  ghost predicate BuiltFrom(s: State, st: Stage) {
    StageVoice(EntryOf(s, st.owner.user), st.owner, st.expected, st.channel, st.prepared, st.joinedAt) == Some(st)
  }

  lemma OwnerIssued(s: State, st: Stage)
    requires Inv(s) && BuiltFrom(s, st)
    ensures st.owner.id in s.issued && st.generation == EntryOf(s, st.owner.user).nextVoice + 1
  {
    EntryFacts(s, st.owner.user);
  }

  lemma CommitSpends(s: State, st: Stage, rival: Stage, allowMissing: bool, retain: bool, now: int)
    requires Inv(s) && PreparedFor(s.registry, st.prepared, st.owner.user)
    requires CommitStage(s, st, allowMissing, retain, now).1.Some?
    requires rival.owner.user == st.owner.user && rival.generation == st.generation && rival.owner.id in s.issued
    ensures Spent(CommitStage(s, st, allowMissing, retain, now).0, rival)
  {
    hide Inv, S.Activate, S.Lookup;
  }
}
