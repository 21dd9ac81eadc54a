/** Connection admission over the refcounted user registry: threads retain a user
object, lock it, take an admission slot and only then insert their record, while
shutdown stops admission and sweeps every registered user. */
module Admission {
  import opened Wrappers
  import opened Connections

  type Tid = nat
  type ObjId = nat

  const MAX_CONNECTIONS := 4096
  const MAX_PER_USER := 8
  const MAX_PER_SOURCE := 64

  // ----- The counters under admissionMu -----

  datatype Counters = Counters(accepting: bool, admitted: int, waiting: int, sources: map<Source, int>)

  function CountOf(c: Counters, source: Source): int {
    if source in c.sources then c.sources[source] else 0
  }

  predicate HasRoom(c: Counters, source: Option<Source>) {
    && c.accepting && c.admitted < MAX_CONNECTIONS
    && (source.Some? ==> CountOf(c, source.value) < MAX_PER_SOURCE)
  }

  function Take(c: Counters, source: Option<Source>): Counters {
    c.(admitted := c.admitted + 1, waiting := c.waiting + 1,
       sources := if source.None? then c.sources else c.sources[source.value := CountOf(c, source.value) + 1])
  }

  // A source whose count reaches zero leaves the table.
  function Free(c: Counters, source: Option<Source>): Counters {
    c.(admitted := c.admitted - 1, waiting := c.waiting - 1,
       sources := if source.None? then c.sources
                  else if CountOf(c, source.value) == 1 then c.sources - {source.value}
                  else c.sources[source.value := CountOf(c, source.value) - 1])
  }

  /** Who holds each slot that has been taken and not given back. */
  datatype Ticket = Ticket(owner: ObjId, source: Option<Source>)

  ghost function FromSource(ledger: map<ConnId, Ticket>, source: Source): set<ConnId> {
    set id | id in ledger && ledger[id].source == Some(source)
  }

  ghost predicate Balanced(c: Counters, ledger: map<ConnId, Ticket>) {
    && c.admitted == c.waiting == |ledger.Keys| <= MAX_CONNECTIONS
    && (forall source: Source :: SourceBalanced(c, ledger, source))
    && (forall source | source in c.sources :: c.sources[source] > 0)
  }

  ghost predicate SourceBalanced(c: Counters, ledger: map<ConnId, Ticket>, source: Source) {
    CountOf(c, source) == |FromSource(ledger, source)| <= MAX_PER_SOURCE
  }

  lemma TakeBalanced(c: Counters, ledger: map<ConnId, Ticket>, id: ConnId, ticket: Ticket)
    requires Balanced(c, ledger) && id !in ledger && HasRoom(c, ticket.source)
    ensures Balanced(Take(c, ticket.source), ledger[id := ticket])
  {
    var c', ledger' := Take(c, ticket.source), ledger[id := ticket];
    assert ledger'.Keys == ledger.Keys + {id};
    hide SourceBalanced, FromSource;
    forall source: Source ensures SourceBalanced(c', ledger', source) {
      TakeSource(c, ledger, id, ticket, source);
    }
  }

  lemma TakeSource(c: Counters, ledger: map<ConnId, Ticket>, id: ConnId, ticket: Ticket, source: Source)
    requires SourceBalanced(c, ledger, source) && id !in ledger && HasRoom(c, ticket.source)
    ensures SourceBalanced(Take(c, ticket.source), ledger[id := ticket], source)
  {
    var ledger' := ledger[id := ticket];
    if ticket.source == Some(source) {
      assert FromSource(ledger', source) == FromSource(ledger, source) + {id};
    } else {
      assert FromSource(ledger', source) == FromSource(ledger, source);
    }
  }

  lemma FreeBalanced(c: Counters, ledger: map<ConnId, Ticket>, id: ConnId)
    requires Balanced(c, ledger) && id in ledger
    ensures Balanced(Free(c, ledger[id].source), ledger - {id})
  {
    var c', ledger' := Free(c, ledger[id].source), ledger - {id};
    assert ledger'.Keys == ledger.Keys - {id};
    forall source: Source ensures SourceBalanced(c', ledger', source) {
      assert SourceBalanced(c, ledger, source);
      if ledger[id].source == Some(source) {
        assert id in FromSource(ledger, source);
        assert FromSource(ledger', source) == FromSource(ledger, source) - {id};
      } else {
        assert FromSource(ledger', source) == FromSource(ledger, source);
      }
    }
    if ledger[id].source.Some? {
      assert SourceBalanced(c, ledger, ledger[id].source.value);
      assert id in FromSource(ledger, ledger[id].source.value);
    }
  }

  /** The counters as the coordinator updates them. */
  class AdmissionGate {
    var accepting: bool
    var admitted: int
    var waiting: int
    var sources: map<Source, int>

    ghost function View(): Counters
      reads this
    {
      Counters(accepting, admitted, waiting, sources)
    }

    constructor ()
      ensures View() == Counters(true, 0, 0, map[]) && Balanced(View(), map[])
    {
      accepting, admitted, waiting, sources := true, 0, 0, map[];
      new;
      assert forall source: Source :: FromSource(map[], source) == {};
    }

    method StopAdmission()
      modifies this
      ensures View() == old(View()).(accepting := false)
    {
      accepting := false;
    }

    method ReserveAdmission(source: Option<Source>, ghost ledger: map<ConnId, Ticket>, ghost id: ConnId, ghost owner: ObjId)
      returns (ok: bool)
      requires Balanced(View(), ledger) && id !in ledger
      modifies this
      ensures ok <==> HasRoom(old(View()), source)
      ensures View() == if ok then Take(old(View()), source) else old(View())
      ensures ok ==> Balanced(View(), ledger[id := Ticket(owner, source)])
    {
      if !accepting || admitted >= MAX_CONNECTIONS {
        return false;
      }
      var used := if source.Some? && source.value in sources then sources[source.value] else 0;
      if source.Some? && used >= MAX_PER_SOURCE {
        return false;
      }
      TakeBalanced(View(), ledger, id, Ticket(owner, source));
      admitted := admitted + 1;
      if source.Some? {
        sources := sources[source.value := used + 1];
      }
      waiting := waiting + 1;
      return true;
    }

    method ReleaseAdmission(source: Option<Source>, ghost ledger: map<ConnId, Ticket>, ghost id: ConnId)
      requires Balanced(View(), ledger) && id in ledger && ledger[id].source == source
      modifies this
      ensures View() == Free(old(View()), source) && Balanced(View(), ledger - {id})
    {
      FreeBalanced(View(), ledger, id);
      if source.Some? {
        assert SourceBalanced(View(), ledger, source.value) && id in FromSource(ledger, source.value);
      }
      admitted := admitted - 1;
      if source.Some? {
        sources := sources[source.value := sources[source.value] - 1];
        if sources[source.value] == 0 {
          sources := sources - {source.value};
        }
      }
      waiting := waiting - 1;
    }
  }

  // ----- Threads, user objects and their actions -----

  datatype Object = Object(user: User, entry: Entry, refs: int, mu: Option<Tid>)

  /** A reservation past reserveAdmission and before its insertion. */
  datatype Pending = Pending(owner: ObjId, id: ConnId, login: int, source: Option<Source>)

  /** A DisconnectAll pass: what it has yet to sweep, and whether it began after
      admission was stopped. */
  datatype Pass = Pass(todo: set<ObjId>, afterStop: bool)

  datatype Thread = Thread(held: set<ObjId>, pending: Option<Pending>, pass: Option<Pass>)

  const IDLE := Thread({}, None, None)

  /** ledger, issued, returned and swept record history; no action looks at them
      except that a new connection id has never been issued. */
  datatype State = State(
    users: map<User, ObjId>, objects: map<ObjId, Object>, threads: map<Tid, Thread>, counters: Counters,
    ledger: map<ConnId, Ticket>, issued: set<ConnId>, returned: multiset<ConnId>, swept: bool)

  function ThreadOf(s: State, t: Tid): Thread {
    if t in s.threads then s.threads[t] else IDLE
  }

  datatype Action =
    | Acquire(t: Tid, user: User, fresh': ObjId)
    | Release(t: Tid, o: ObjId)
    | Critical(t: Tid, o: ObjId, section: Section)
    | Admit(t: Tid, o: ObjId, id: ConnId, login: int, source: Option<Source>)
    | Insert(t: Tid)
    | Finish(t: Tid, o: ObjId, ref: Ref)
    | Abort(t: Tid, o: ObjId, ref: Ref)
    | Stop
    | BeginPass(t: Tid)
    | Sweep(t: Tid, o: ObjId)
    | EndPass(t: Tid)

  // t retains o and can lock it now.
  predicate CanLock(s: State, t: Tid, o: ObjId) {
    o in ThreadOf(s, t).held && o in s.objects && s.objects[o].mu.None? && ThreadOf(s, t).pending.None?
  }

  predicate CanRetain(s: State, t: Tid, u: User, fresh': ObjId) {
    if u in s.users then s.users[u] !in ThreadOf(s, t).held && s.users[u] in s.objects else fresh' !in s.objects
  }

  predicate CanDrop(s: State, t: Tid, o: ObjId) {
    var th := ThreadOf(s, t);
    && o in th.held && o in s.objects
    && (th.pending.Some? ==> th.pending.value.owner != o) && (th.pass.Some? ==> o !in th.pass.value.todo)
  }

  predicate CanTake(s: State, t: Tid, o: ObjId, id: ConnId) {
    CanLock(s, t, o) && id !in s.issued
  }

  predicate CanInsert(s: State, t: Tid) {
    ThreadOf(s, t).pending.Some? && ThreadOf(s, t).pending.value.owner in s.objects
  }

  predicate CanSweep(s: State, t: Tid, o: ObjId) {
    CanLock(s, t, o) && ThreadOf(s, t).pass.Some? && o in ThreadOf(s, t).pass.value.todo
  }

  predicate CanPerform(s: State, t: Tid, o: ObjId, section: Section) {
    CanLock(s, t, o) && (section.InstallSection? ==> section.stage.owner.user == s.objects[o].user)
  }

  predicate CanAct(s: State, a: Action) {
    match a
    case Acquire(t, u, fresh') => CanRetain(s, t, u, fresh')
    case Release(t, o) => CanDrop(s, t, o)
    case Critical(t, o, section) => CanPerform(s, t, o, section)
    case Admit(t, o, id, login, source) => CanTake(s, t, o, id)
    case Insert(t) => CanInsert(s, t)
    case Finish(t, o, ref) => CanLock(s, t, o)
    case Abort(t, o, ref) => CanLock(s, t, o)
    case Stop => true
    case BeginPass(t) => ThreadOf(s, t) == IDLE
    case Sweep(t, o) => CanSweep(s, t, o)
    case EndPass(t) => ThreadOf(s, t).pass.Some? && ThreadOf(s, t).pass.value.todo == {}
  }

  function SetObject(s: State, o: ObjId, x: Object): State {
    s.(objects := s.objects[o := x])
  }

  function SetThread(s: State, t: Tid, x: Thread): State {
    s.(threads := s.threads[t := x])
  }

  /** acquireUser: the registered object, or a new one. */
  function Retain(s: State, t: Tid, u: User, fresh': ObjId): State
    requires CanRetain(s, t, u, fresh')
  {
    var o := if u in s.users then s.users[u] else fresh';
    var x := if u in s.users then s.objects[o] else Object(u, FRESH, 0, None);
    var th := ThreadOf(s, t);
    SetThread(SetObject(s, o, x.(refs := x.refs + 1)), t, th.(held := th.held + {o})).(users := s.users[u := o])
  }

  /** releaseUser: the last reference to a user without records unregisters it. */
  function Drop(s: State, t: Tid, o: ObjId): State
    requires CanDrop(s, t, o)
  {
    var x := s.objects[o].(refs := s.objects[o].refs - 1);
    var th := ThreadOf(s, t);
    var s' := SetThread(SetObject(s, o, x), t, th.(held := th.held - {o}));
    if x.refs == 0 && x.entry.connections == map[] && x.user in s.users && s.users[x.user] == o
    then s'.(users := s.users - {x.user}) else s'
  }

  /** ReserveConnectFrom up to reserveAdmission; on success the user stays locked. */
  function TakeSlot(s: State, t: Tid, o: ObjId, id: ConnId, login: int, source: Option<Source>): State
    requires CanTake(s, t, o, id)
  {
    if s.objects[o].entry.admitted < MAX_PER_USER && HasRoom(s.counters, source) then
      SetThread(SetObject(s, o, s.objects[o].(mu := Some(t))), t,
                ThreadOf(s, t).(pending := Some(Pending(o, id, login, source))))
      .(counters := Take(s.counters, source), ledger := s.ledger[id := Ticket(o, source)], issued := s.issued + {id})
    else s
  }

  function InsertRecord(s: State, t: Tid): State
    requires CanInsert(s, t)
  {
    var p := ThreadOf(s, t).pending.value;
    var x := s.objects[p.owner];
    SetThread(SetObject(s, p.owner, x.(entry := Open(x.entry, x.user, p.id, p.login, p.source).0, mu := None)), t,
              ThreadOf(s, t).(pending := None))
  }

  /** finish removes a closing record, abort one without a transport. */
  predicate Removable(e: Entry, ref: Ref, finish: bool) {
    Names(e, ref) && if finish then e.connections[ref.id].phase == Closing else !e.connections[ref.id].attached
  }

  function RemoveRecord(s: State, o: ObjId, ref: Ref, finish: bool): State
    requires o in s.objects
  {
    var x := s.objects[o];
    if Removable(x.entry, ref, finish) then
      var c := if x.entry.connections[ref.id].admitted then Free(s.counters, x.entry.connections[ref.id].source) else s.counters;
      SetObject(s, o, x.(entry := Remove(x.entry, ref.id)))
      .(counters := c, ledger := s.ledger - {ref.id}, returned := s.returned + multiset{ref.id})
    else s
  }

  function RetainAll(s: State, t: Tid): State {
    var all := set u | u in s.users :: s.users[u];
    SetThread(s, t, Thread(all, None, Some(Pass(all, !s.counters.accepting))))
    .(objects := map o | o in s.objects :: if o in all then s.objects[o].(refs := s.objects[o].refs + 1) else s.objects[o])
  }

  ghost function SweepUser(s: State, t: Tid, o: ObjId): State
    requires CanSweep(s, t, o)
  {
    var x, th := s.objects[o], ThreadOf(s, t);
    SetThread(SetObject(s, o, x.(entry := CloseMatching(x.entry, None))), t,
              th.(pass := Some(th.pass.value.(todo := th.pass.value.todo - {o}))))
  }

  ghost function Act(s: State, a: Action): State
    requires CanAct(s, a)
  {
    match a
    case Acquire(t, u, fresh') => Retain(s, t, u, fresh')
    case Release(t, o) => Drop(s, t, o)
    case Critical(t, o, section) =>
      SetObject(s, o, s.objects[o].(entry := Perform(s.objects[o].entry, section)))
    case Admit(t, o, id, login, source) => TakeSlot(s, t, o, id, login, source)
    case Insert(t) => InsertRecord(s, t)
    case Finish(t, o, ref) => RemoveRecord(s, o, ref, true)
    case Abort(t, o, ref) => RemoveRecord(s, o, ref, false)
    case Stop => s.(counters := s.counters.(accepting := false))
    case BeginPass(t) => RetainAll(s, t)
    case Sweep(t, o) => SweepUser(s, t, o)
    case EndPass(t) =>
      var th := ThreadOf(s, t);
      SetThread(s, t, th.(pass := None)).(swept := s.swept || th.pass.value.afterStop)
  }

  // ----- The invariant -----

  ghost function Holders(threads: map<Tid, Thread>, o: ObjId): set<Tid> {
    set t | t in threads && o in threads[t].held
  }

  /** One registered object a user; a retained or occupied object is registered;
      refs counts the retaining threads. */
  ghost predicate Registered(s: State) {
    && (forall u | u in s.users :: s.users[u] in s.objects && s.objects[s.users[u]].user == u)
    && (forall o | o in s.objects && (s.objects[o].refs > 0 || s.objects[o].entry.connections != map[]) ::
          s.objects[o].user in s.users && s.users[s.objects[o].user] == o)
    && (forall t | t in s.threads :: s.threads[t].held <= s.objects.Keys)
  }

  ghost predicate Counted(s: State) {
    forall o | o in s.objects :: s.objects[o].refs == |Holders(s.threads, o)|
  }

  /** A user object stays locked exactly while a reservation is pending on it. */
  ghost predicate Locked(s: State) {
    && (forall o | o in s.objects && s.objects[o].mu.Some? ::
          && s.objects[o].mu.value in s.threads
          && PendingOn(s.threads[s.objects[o].mu.value], o))
    && (forall t | t in s.threads && s.threads[t].pending.Some? ::
          var o := s.threads[t].pending.value.owner;
          o in s.threads[t].held && o in s.objects && s.objects[o].mu == Some(t))
  }

  ghost predicate PendingOn(th: Thread, o: ObjId) {
    th.pending.Some? && th.pending.value.owner == o
  }

  ghost predicate EntriesValid(s: State) {
    forall o | o in s.objects ::
      && EntryValid(s.objects[o].user, s.objects[o].entry)
      && s.objects[o].entry.admitted <= (if s.objects[o].mu.Some? then MAX_PER_USER - 1 else MAX_PER_USER)
  }

  /** The ledger lists exactly the live records and the pending reservations. */
  ghost predicate Ledgered(s: State) {
    RecordsListed(s) && PendingListed(s) && (forall id | id in s.ledger :: Accounted(s, id, s.ledger[id].owner))
  }

  ghost predicate RecordsListed(s: State) {
    forall o, id | o in s.objects && id in s.objects[o].entry.connections ::
      id in s.ledger && s.ledger[id] == Ticket(o, s.objects[o].entry.connections[id].source)
  }

  ghost predicate PendingListed(s: State) {
    forall t | t in s.threads && s.threads[t].pending.Some? ::
      var p := s.threads[t].pending.value;
      && p.id in s.ledger && s.ledger[p.id] == Ticket(p.owner, p.source)
      && p.owner in s.objects && p.id !in s.objects[p.owner].entry.connections
  }

  ghost predicate Accounted(s: State, id: ConnId, o: ObjId) {
    && o in s.objects
    && (id in s.objects[o].entry.connections
        || (s.objects[o].mu.Some? && PendingId(ThreadOf(s, s.objects[o].mu.value), id)))
  }

  ghost predicate PendingId(th: Thread, id: ConnId) {
    th.pending.Some? && th.pending.value.id == id
  }

  /** Every issued slot is either still out or was given back exactly once. */
  ghost predicate ReturnedOnce(s: State) {
    && s.ledger.Keys <= s.issued
    && (forall id :: s.returned[id] == if id in s.issued && id !in s.ledger then 1 else 0)
  }

  ghost predicate AllClosing(x: Object) {
    x.mu.None? && forall id | id in x.entry.connections :: x.entry.connections[id].phase == Closing
  }

  ghost predicate SweptExcept(s: State, todo: set<ObjId>) {
    !s.counters.accepting && forall o | o in s.objects && o !in todo :: AllClosing(s.objects[o])
  }

  ghost predicate PassesSweep(s: State) {
    && (forall t | t in s.threads && s.threads[t].pass.Some? ::
          && s.threads[t].pass.value.todo <= s.threads[t].held
          && (s.threads[t].pass.value.afterStop ==> SweptExcept(s, s.threads[t].pass.value.todo)))
    && (s.swept ==> SweptExcept(s, {}))
  }

  ghost predicate Inv(s: State) {
    && Registered(s) && Counted(s) && Locked(s) && EntriesValid(s) && Ledgered(s)
    && Balanced(s.counters, s.ledger) && ReturnedOnce(s) && PassesSweep(s)
  }

  ghost predicate Init(s: State) {
    s == State(map[], map[], map[], Counters(true, 0, 0, map[]), map[], {}, multiset{}, false)
  }

  lemma InitInv(s: State)
    requires Init(s)
    ensures Inv(s)
  {
    assert forall source: Source :: FromSource(map[], source) == {};
  }

  // ----- Steps on one object by one thread -----

  /** Only object o and thread t differ, and both were there. */
  ghost predicate Local(s: State, s': State, t: Tid, o: ObjId) {
    && o in s.objects && o in s'.objects && t in s.threads && t in s'.threads
    && s'.objects == s.objects[o := s'.objects[o]] && s'.threads == s.threads[t := s'.threads[t]]
    && s'.objects[o].user == s.objects[o].user && s'.users == s.users
  }

  // t keeps what it retains, and o keeps its references.
  ghost predicate SameHolds(s: State, s': State, t: Tid, o: ObjId) {
    Local(s, s', t, o) && s'.threads[t].held == s.threads[t].held && s'.objects[o].refs == s.objects[o].refs
  }

  lemma CountedKept(s: State, s': State, t: Tid, o: ObjId)
    requires SameHolds(s, s', t, o) && Counted(s)
    ensures Counted(s')
  {
    forall p | p in s'.objects ensures s'.objects[p].refs == |Holders(s'.threads, p)| {
      assert Holders(s'.threads, p) == Holders(s.threads, p);
    }
  }

  lemma RegisteredKept(s: State, s': State, t: Tid, o: ObjId)
    requires SameHolds(s, s', t, o) && Registered(s) && (o in s.threads[t].held) && Counted(s)
    ensures Registered(s')
  {
    assert t in Holders(s.threads, o);
    assert s.objects[o].refs > 0;
  }

  lemma LockedKept(s: State, s': State, t: Tid, o: ObjId)
    requires Local(s, s', t, o) && Locked(s) && o in s'.threads[t].held
    requires s'.objects[o].mu == if s'.threads[t].pending.Some? then Some(t) else None
    requires s'.threads[t].pending.Some? ==> s'.threads[t].pending.value.owner == o
    requires s.objects[o].mu.None? || s.objects[o].mu == Some(t)
    requires s.threads[t].pending.Some? ==> s.threads[t].pending.value.owner == o
    ensures Locked(s')
  {}

  lemma EntriesKept(s: State, s': State, t: Tid, o: ObjId)
    requires Local(s, s', t, o) && EntriesValid(s)
    requires EntryValid(s'.objects[o].user, s'.objects[o].entry)
    requires s'.objects[o].entry.admitted <= if s'.objects[o].mu.Some? then MAX_PER_USER - 1 else MAX_PER_USER
    ensures EntriesValid(s')
  {
    hide EntryValid;
  }

  lemma SweptKept(s: State, s': State, t: Tid, o: ObjId)
    requires Local(s, s', t, o) && PassesSweep(s) && (s'.swept ==> s.swept)
    requires s'.threads[t].pass == s.threads[t].pass && s.threads[t].held <= s'.threads[t].held
    requires !s.counters.accepting ==> !s'.counters.accepting && (AllClosing(s.objects[o]) ==> AllClosing(s'.objects[o]))
    ensures PassesSweep(s')
  {
    hide AllClosing;
  }

  /** What a step of a thread on a user object that it retains and locks keeps. */
  lemma LocalKept(s: State, s': State, t: Tid, o: ObjId)
    requires Inv(s) && SameHolds(s, s', t, o) && o in s.threads[t].held
    requires s'.objects[o].mu == if s'.threads[t].pending.Some? then Some(t) else None
    requires s'.threads[t].pending.Some? ==> s'.threads[t].pending.value.owner == o
    requires s.objects[o].mu.None? || s.objects[o].mu == Some(t)
    requires s.threads[t].pending.Some? ==> s.threads[t].pending.value.owner == o
    requires EntryValid(s'.objects[o].user, s'.objects[o].entry)
    requires s'.objects[o].entry.admitted <= if s'.objects[o].mu.Some? then MAX_PER_USER - 1 else MAX_PER_USER
    requires s'.swept == s.swept && s'.threads[t].pass == s.threads[t].pass && s'.counters.accepting == s.counters.accepting
    requires !s.counters.accepting ==> AllClosing(s.objects[o]) ==> AllClosing(s'.objects[o])
    ensures Registered(s') && Counted(s') && Locked(s') && EntriesValid(s') && PassesSweep(s')
  {
    hide EntryValid, Balanced, Registered, Counted, Locked, EntriesValid, Ledgered, PassesSweep, ReturnedOnce, AllClosing;
    CountedKept(s, s', t, o);
    RegisteredKept(s, s', t, o);
    LockedKept(s, s', t, o);
    EntriesKept(s, s', t, o);
    SweptKept(s, s', t, o);
  }

  lemma ReturnedKept(s: State, s': State)
    requires ReturnedOnce(s) && s'.ledger == s.ledger && s'.issued == s.issued && s'.returned == s.returned
    ensures ReturnedOnce(s')
  {}

  // ----- Critical sections -----

  lemma EntryStepInv(s: State, t: Tid, o: ObjId, e: Entry)
    requires Inv(s) && CanLock(s, t, o)
    requires EntryValid(s.objects[o].user, e) && KeepsRecords(s.objects[o].entry, e)
    ensures Inv(SetObject(s, o, s.objects[o].(entry := e)))
  {
    var s' := SetObject(s, o, s.objects[o].(entry := e));
    assert s'.threads == s.threads[t := s.threads[t]];
    assert s.objects[o].entry.admitted <= MAX_PER_USER by { hide EntryValid; }
    assert AllClosing(s.objects[o]) ==> AllClosing(s'.objects[o]);
    hide EntryValid, Balanced, Registered, Counted, Locked, EntriesValid, Ledgered, PassesSweep, ReturnedOnce, AllClosing;
    LocalKept(s, s', t, o);
    EntryStepLedgered(s, o, e);
    ReturnedKept(s, s');
  }

  lemma EntryStepLedgered(s: State, o: ObjId, e: Entry)
    requires Ledgered(s) && o in s.objects && KeepsRecords(s.objects[o].entry, e)
    ensures Ledgered(SetObject(s, o, s.objects[o].(entry := e)))
  {
    var s' := SetObject(s, o, s.objects[o].(entry := e));
    forall id | id in s'.ledger ensures Accounted(s', id, s'.ledger[id].owner) {
      assert Accounted(s, id, s.ledger[id].owner);
    }
  }

  lemma CriticalInv(s: State, t: Tid, o: ObjId, section: Section)
    requires Inv(s) && CanPerform(s, t, o, section)
    ensures Inv(SetObject(s, o, s.objects[o].(entry := Perform(s.objects[o].entry, section))))
  {
    assert EntryValid(s.objects[o].user, s.objects[o].entry);
    hide EntryValid, Balanced, Registered, Counted, Locked, Ledgered, PassesSweep, ReturnedOnce, KeepsRecords, Perform;
    PerformValid(s.objects[o].user, s.objects[o].entry, section);
    PerformKeepsRecords(s.objects[o].user, s.objects[o].entry, section);
    EntryStepInv(s, t, o, Perform(s.objects[o].entry, section));
  }

  // ----- Reserving and removing -----

  lemma AdmitInv(s: State, t: Tid, o: ObjId, id: ConnId, login: int, source: Option<Source>)
    requires Inv(s) && CanTake(s, t, o, id)
    ensures Inv(TakeSlot(s, t, o, id, login, source))
  {
    var s' := TakeSlot(s, t, o, id, login, source);
    if s.objects[o].entry.admitted < MAX_PER_USER && HasRoom(s.counters, source) {
      AdmitLocal(s, t, o, id, login, source);
      AdmitFacts(s, t, o, id);
      hide TakeSlot, Local, EntryValid, Balanced, Registered, Counted, Locked, EntriesValid, Ledgered, PassesSweep, ReturnedOnce, AllClosing;
      TakeBalanced(s.counters, s.ledger, id, Ticket(o, source));
      AdmitLedgered(s, t, o, id, login, source);
      AdmitReturned(s, s', id, Ticket(o, source));
      hide HasRoom, Take;
      LocalKept(s, s', t, o);
    }
  }

  lemma AdmitLocal(s: State, t: Tid, o: ObjId, id: ConnId, login: int, source: Option<Source>)
    requires CanTake(s, t, o, id) && s.objects[o].entry.admitted < MAX_PER_USER && HasRoom(s.counters, source)
    ensures
      var s' := TakeSlot(s, t, o, id, login, source);
      && SameHolds(s, s', t, o) && s'.threads[t].pass == s.threads[t].pass && s'.swept == s.swept
      && PendingOn(s'.threads[t], o) && s'.objects[o] == s.objects[o].(mu := Some(t))
      && s'.counters == Take(s.counters, source) && s'.counters.accepting && s.counters.accepting
      && s'.ledger == s.ledger[id := Ticket(o, source)] && s'.issued == s.issued + {id} && s'.returned == s.returned
  {}

  lemma AdmitFacts(s: State, t: Tid, o: ObjId, id: ConnId)
    requires Inv(s) && CanTake(s, t, o, id)
    ensures EntryValid(s.objects[o].user, s.objects[o].entry) && s.ledger.Keys <= s.issued && id !in s.ledger
  {
    hide Balanced, Registered, Counted, Locked, PassesSweep, Ledgered;
  }

  lemma AdmitReturned(s: State, s': State, id: ConnId, ticket: Ticket)
    requires ReturnedOnce(s) && id !in s.issued
    requires s'.ledger == s.ledger[id := ticket] && s'.issued == s.issued + {id} && s'.returned == s.returned
    ensures ReturnedOnce(s')
  {}

  lemma AdmitLedgered(s: State, t: Tid, o: ObjId, id: ConnId, login: int, source: Option<Source>)
    requires Ledgered(s) && Locked(s) && CanTake(s, t, o, id) && s.ledger.Keys <= s.issued
    ensures Ledgered(TakeSlot(s, t, o, id, login, source))
  {
    var s' := TakeSlot(s, t, o, id, login, source);
    AdmitListed(s, t, o, id, login, source);
    hide RecordsListed, PendingListed, Accounted, Locked;
    forall i | i in s'.ledger ensures Accounted(s', i, s'.ledger[i].owner) {
      AdmitAccounted(s, t, o, id, login, source, i);
    }
  }

  lemma AdmitListed(s: State, t: Tid, o: ObjId, id: ConnId, login: int, source: Option<Source>)
    requires RecordsListed(s) && PendingListed(s) && CanTake(s, t, o, id) && s.ledger.Keys <= s.issued
    ensures RecordsListed(TakeSlot(s, t, o, id, login, source)) && PendingListed(TakeSlot(s, t, o, id, login, source))
  {
    assert RecordsListed(TakeSlot(s, t, o, id, login, source)) by { hide PendingListed; }
  }

  lemma AdmitAccounted(s: State, t: Tid, o: ObjId, id: ConnId, login: int, source: Option<Source>, i: ConnId)
    requires Locked(s) && CanTake(s, t, o, id) && i in TakeSlot(s, t, o, id, login, source).ledger
    requires i in s.ledger ==> Accounted(s, i, s.ledger[i].owner)
    ensures Accounted(TakeSlot(s, t, o, id, login, source), i, TakeSlot(s, t, o, id, login, source).ledger[i].owner)
  {}

  lemma InsertFacts(s: State, t: Tid)
    requires Locked(s) && EntriesValid(s) && PendingListed(s) && CanInsert(s, t)
    ensures
      var p := ThreadOf(s, t).pending.value;
      var x := s.objects[p.owner];
      && x.mu == Some(t) && p.owner in s.threads[t].held && !AllClosing(x)
      && EntryValid(x.user, x.entry) && x.entry.admitted < MAX_PER_USER && p.id !in x.entry.connections
  {}

  lemma InsertInv(s: State, t: Tid)
    requires Inv(s) && CanInsert(s, t)
    ensures Inv(InsertRecord(s, t))
  {
    var p := ThreadOf(s, t).pending.value;
    var x := s.objects[p.owner];
    InsertFacts(s, t);
    InsertLocal(s, t);
    hide InsertRecord, Local, EntryValid, Balanced, Registered, Counted, Locked, EntriesValid, Ledgered, PassesSweep, ReturnedOnce, AllClosing;
    InsertLedgered(s, t);
    OpenValid(x.user, x.entry, p.id, p.login, p.source);
    LocalKept(s, InsertRecord(s, t), t, p.owner);
    ReturnedKept(s, InsertRecord(s, t));
  }

  lemma InsertLocal(s: State, t: Tid)
    requires CanInsert(s, t)
    ensures
      var s' := InsertRecord(s, t);
      var p := ThreadOf(s, t).pending.value;
      var x := s.objects[p.owner];
      && SameHolds(s, s', t, p.owner) && s'.threads[t] == s.threads[t].(pending := None)
      && s'.objects[p.owner] == x.(entry := Open(x.entry, x.user, p.id, p.login, p.source).0, mu := None)
      && s' == s.(objects := s'.objects, threads := s'.threads)
  {}

  lemma InsertLedgered(s: State, t: Tid)
    requires Ledgered(s) && Locked(s) && CanInsert(s, t)
    ensures Ledgered(InsertRecord(s, t))
  {
    var s' := InsertRecord(s, t);
    InsertListed(s, t);
    hide RecordsListed, PendingListed, Accounted, Locked, InsertRecord;
    forall i | i in s'.ledger ensures Accounted(s', i, s'.ledger[i].owner) {
      InsertAccounted(s, t, i);
    }
  }

  lemma InsertListed(s: State, t: Tid)
    requires RecordsListed(s) && PendingListed(s) && Locked(s) && CanInsert(s, t)
    ensures InsertRecord(s, t).ledger == s.ledger
    ensures RecordsListed(InsertRecord(s, t)) && PendingListed(InsertRecord(s, t))
  {
    var s', p := InsertRecord(s, t), ThreadOf(s, t).pending.value;
    assert s'.objects[p.owner].entry.connections.Keys == s.objects[p.owner].entry.connections.Keys + {p.id};
    assert RecordsListed(s') by { hide Locked; }
    hide RecordsListed;
    assert s.objects[p.owner].mu == Some(t);
    assert forall u | u in s'.threads && s'.threads[u].pending.Some? :: s'.threads[u].pending.value.owner != p.owner;
    hide Locked;
  }

  lemma InsertAccounted(s: State, t: Tid, i: ConnId)
    requires Locked(s) && CanInsert(s, t) && i in s.ledger && Accounted(s, i, s.ledger[i].owner)
    ensures InsertRecord(s, t).ledger == s.ledger && Accounted(InsertRecord(s, t), i, s.ledger[i].owner)
  {
    var p := ThreadOf(s, t).pending.value;
    assert p.id in InsertRecord(s, t).objects[p.owner].entry.connections;
  }

  lemma RemovableFacts(s: State, t: Tid, o: ObjId, ref: Ref, finish: bool)
    requires Inv(s) && CanLock(s, t, o) && Removable(s.objects[o].entry, ref, finish)
    ensures
      var x := s.objects[o];
      && t in s.threads
      && EntryValid(x.user, x.entry) && x.entry.admitted <= MAX_PER_USER
      && x.entry.connections[ref.id].admitted && x.entry.connections[ref.id].phase != Active
      && ref.id in s.ledger && s.ledger[ref.id] == Ticket(o, x.entry.connections[ref.id].source)
  {
    hide Balanced, Registered, Counted, Locked, PassesSweep, ReturnedOnce, PendingListed, Accounted;
  }

  lemma RemoveCloses(x: Object, id: ConnId)
    requires id in x.entry.connections && AllClosing(x)
    ensures AllClosing(x.(entry := Remove(x.entry, id)))
  {}

  lemma RemoveReturned(s: State, s': State, id: ConnId)
    requires ReturnedOnce(s) && id in s.ledger
    requires s'.ledger == s.ledger - {id} && s'.issued == s.issued && s'.returned == s.returned + multiset{id}
    ensures ReturnedOnce(s')
  {}

  lemma RemoveInv(s: State, t: Tid, o: ObjId, ref: Ref, finish: bool)
    requires Inv(s) && CanLock(s, t, o)
    ensures Inv(RemoveRecord(s, o, ref, finish))
  {
    var s' := RemoveRecord(s, o, ref, finish);
    var x := s.objects[o];
    if Removable(x.entry, ref, finish) {
      RemovableFacts(s, t, o, ref, finish);
      RemoveLocal(s, t, o, ref, finish);
      hide RemoveRecord, Local, Removable, EntryValid, Balanced, Registered, Counted, Locked, EntriesValid, Ledgered, PassesSweep, ReturnedOnce, AllClosing;
      if AllClosing(x) { RemoveCloses(x, ref.id); }
      RemoveValid(x.user, x.entry, ref.id);
      FreeBalanced(s.counters, s.ledger, ref.id);
      RemoveLedgered(s, o, ref, finish);
      RemoveReturned(s, s', ref.id);
      hide Free;
      LocalKept(s, s', t, o);
    }
  }

  lemma RemoveLocal(s: State, t: Tid, o: ObjId, ref: Ref, finish: bool)
    requires CanLock(s, t, o) && Removable(s.objects[o].entry, ref, finish) && s.objects[o].entry.connections[ref.id].admitted
    ensures
      var s', x := RemoveRecord(s, o, ref, finish), s.objects[o];
      && SameHolds(s, s', t, o) && s'.threads == s.threads && s'.swept == s.swept
      && s'.objects[o] == x.(entry := Remove(x.entry, ref.id))
      && s'.counters == Free(s.counters, x.entry.connections[ref.id].source) && s'.counters.accepting == s.counters.accepting
      && s'.ledger == s.ledger - {ref.id} && s'.issued == s.issued && s'.returned == s.returned + multiset{ref.id}
  {
    assert s.threads == s.threads[t := s.threads[t]];
  }

  lemma RemoveLedgered(s: State, o: ObjId, ref: Ref, finish: bool)
    requires Ledgered(s) && Locked(s) && o in s.objects && s.objects[o].mu.None?
    requires Removable(s.objects[o].entry, ref, finish)
    ensures Ledgered(RemoveRecord(s, o, ref, finish))
  {
    var s' := RemoveRecord(s, o, ref, finish);
    assert s.ledger[ref.id].owner == o;
    forall i | i in s'.ledger ensures Accounted(s', i, s'.ledger[i].owner) {
      assert Accounted(s, i, s.ledger[i].owner);
    }
  }

  // ----- Steps that leave every entry, lock and reservation alone -----

  ghost predicate Alike(s: State, s': State) {
    && s.objects.Keys <= s'.objects.Keys && s'.ledger == s.ledger
    && (forall o | o in s'.objects :: if o in s.objects then SameObject(s.objects[o], s'.objects[o]) else Unused(s'.objects[o]))
    && s.threads.Keys <= s'.threads.Keys
    && (forall t | t in s'.threads :: s'.threads[t].pending == ThreadOf(s, t).pending)
    && (forall t | t in s.threads && s.threads[t].pending.Some? :: s.threads[t].pending.value.owner in s'.threads[t].held)
  }

  ghost predicate SameObject(x: Object, x': Object) {
    x'.user == x.user && x'.entry == x.entry && x'.mu == x.mu
  }

  ghost predicate Unused(x: Object) {
    x.entry == FRESH && x.mu.None?
  }

  lemma AlikeLocked(s: State, s': State)
    requires Alike(s, s') && Locked(s)
    ensures Locked(s')
  {}

  lemma AlikeEntries(s: State, s': State)
    requires Alike(s, s') && EntriesValid(s)
    ensures EntriesValid(s')
  {}

  lemma AlikeLedgered(s: State, s': State)
    requires Alike(s, s') && Ledgered(s) && Locked(s)
    ensures Ledgered(s')
  {
    forall i | i in s'.ledger ensures Accounted(s', i, s'.ledger[i].owner) {
      assert Accounted(s, i, s.ledger[i].owner);
    }
  }

  lemma AlikeRest(s: State, s': State)
    requires Inv(s) && Alike(s, s') && s'.issued == s.issued && s'.returned == s.returned
    ensures Locked(s') && EntriesValid(s') && Ledgered(s') && ReturnedOnce(s')
  {
    hide EntryValid, Balanced, Registered, Counted, Locked, EntriesValid, Ledgered, PassesSweep, ReturnedOnce, AllClosing;
    AlikeLocked(s, s');
    AlikeEntries(s, s');
    AlikeLedgered(s, s');
    ReturnedKept(s, s');
  }

  // ----- Retaining and dropping user objects -----

  lemma AcquireInv(s: State, t: Tid, u: User, fresh': ObjId)
    requires Inv(s) && CanRetain(s, t, u, fresh')
    ensures Inv(Retain(s, t, u, fresh'))
  {
    hide EntryValid, Balanced, Registered, Counted, Locked, EntriesValid, Ledgered, PassesSweep, ReturnedOnce, AllClosing, Alike;
    var s' := Retain(s, t, u, fresh');
    AcquireCounted(s, t, u, fresh');
    AcquireSweeps(s, t, u, fresh');
    AcquireRegistered(s, t, u, fresh');
    AcquireAlike(s, t, u, fresh');
    AlikeRest(s, s');
  }

  lemma HoldersGain(threads: map<Tid, Thread>, t: Tid, th: Thread, o: ObjId)
    requires th.held == (if t in threads then threads[t].held else {}) + {o}
    ensures Holders(threads[t := th], o) == Holders(threads, o) + {t}
    ensures forall p | p != o :: Holders(threads[t := th], p) == Holders(threads, p)
  {}

  lemma AcquireCounted(s: State, t: Tid, u: User, fresh': ObjId)
    requires Counted(s) && Registered(s) && CanRetain(s, t, u, fresh')
    ensures Counted(Retain(s, t, u, fresh'))
  {
    var s' := Retain(s, t, u, fresh');
    var o := s'.users[u];
    assert o !in s.objects ==> Holders(s.threads, o) == {};
    assert t !in Holders(s.threads, o);
    HoldersGain(s.threads, t, s'.threads[t], o);
    hide Holders, Registered;
  }

  lemma AcquireAlike(s: State, t: Tid, u: User, fresh': ObjId)
    requires Locked(s) && CanRetain(s, t, u, fresh')
    ensures Alike(s, Retain(s, t, u, fresh'))
  {}

  lemma AcquireSweeps(s: State, t: Tid, u: User, fresh': ObjId)
    requires PassesSweep(s) && CanRetain(s, t, u, fresh')
    ensures PassesSweep(Retain(s, t, u, fresh'))
  {}

  lemma AcquireRegistered(s: State, t: Tid, u: User, fresh': ObjId)
    requires Registered(s) && CanRetain(s, t, u, fresh')
    ensures Registered(Retain(s, t, u, fresh'))
  {}

  lemma ReleaseInv(s: State, t: Tid, o: ObjId)
    requires Inv(s) && CanDrop(s, t, o)
    ensures Inv(Drop(s, t, o))
  {
    hide EntryValid, Balanced, Registered, Counted, Locked, EntriesValid, Ledgered, PassesSweep, ReturnedOnce, AllClosing, Alike;
    var s' := Drop(s, t, o);
    ReleaseCounted(s, t, o);
    ReleaseRegistered(s, t, o);
    ReleaseSweeps(s, t, o);
    ReleaseAlike(s, t, o);
    AlikeRest(s, s');
  }

  lemma ReleaseAlike(s: State, t: Tid, o: ObjId)
    requires Locked(s) && CanDrop(s, t, o)
    ensures Alike(s, Drop(s, t, o))
  {
    var s' := Drop(s, t, o);
    assert s'.objects == s.objects[o := s'.objects[o]] && s'.threads == s.threads[t := s'.threads[t]];
    assert SameObject(s.objects[o], s'.objects[o]) && s'.threads[t].pending == ThreadOf(s, t).pending;
    hide Drop, SameObject;
    assert forall p | p in s.objects && p != o :: SameObject(s.objects[p], s'.objects[p]) by { SameIsSame(); }
  }

  lemma SameIsSame()
    ensures forall x: Object :: SameObject(x, x)
  {}

  lemma ReleaseSweeps(s: State, t: Tid, o: ObjId)
    requires PassesSweep(s) && CanDrop(s, t, o)
    ensures PassesSweep(Drop(s, t, o))
  {}

  lemma HoldersLose(threads: map<Tid, Thread>, t: Tid, th: Thread, o: ObjId)
    requires t in threads && o in threads[t].held && th.held == threads[t].held - {o}
    ensures t in Holders(threads, o) && Holders(threads[t := th], o) == Holders(threads, o) - {t}
    ensures forall p | p != o :: Holders(threads[t := th], p) == Holders(threads, p)
  {}

  lemma ReleaseCounted(s: State, t: Tid, o: ObjId)
    requires Counted(s) && CanDrop(s, t, o)
    ensures Counted(Drop(s, t, o))
  {
    var s' := Drop(s, t, o);
    HoldersLose(s.threads, t, s'.threads[t], o);
    hide Holders;
  }

  lemma ReleaseRegistered(s: State, t: Tid, o: ObjId)
    requires Registered(s) && Counted(s) && CanDrop(s, t, o)
    ensures Registered(Drop(s, t, o))
  {
    assert t in Holders(s.threads, o) && s.objects[o].refs > 0;
    hide Counted;
  }

  // ----- Shutdown -----

  lemma StopInv(s: State)
    requires Inv(s)
    ensures Inv(s.(counters := s.counters.(accepting := false)))
  {
    var s' := s.(counters := s.counters.(accepting := false));
    assert Registered(s') by { hide Counted, Locked, EntryValid, EntriesValid, Ledgered, PassesSweep; }
    assert PassesSweep(s') by { hide Counted, Locked, EntryValid, EntriesValid, Ledgered, Registered, AllClosing; }
    assert Balanced(s'.counters, s'.ledger) by {
      forall source: Source ensures SourceBalanced(s'.counters, s'.ledger, source) {
        assert SourceBalanced(s.counters, s.ledger, source);
      }
    }
    assert Alike(s, s') by { hide Counted, EntryValid, EntriesValid, Ledgered, Registered, PassesSweep; }
    hide EntryValid, Balanced, Registered, Counted, Locked, EntriesValid, Ledgered, PassesSweep, ReturnedOnce, AllClosing, Alike;
    SameHoldersCounted(s, s');
    AlikeRest(s, s');
  }

  lemma SameHoldersCounted(s: State, s': State)
    requires Counted(s) && s'.objects == s.objects
    requires s'.threads.Keys == s.threads.Keys && (forall t | t in s.threads :: s'.threads[t].held == s.threads[t].held)
    ensures Counted(s')
  {
    forall o | o in s.objects ensures Holders(s'.threads, o) == Holders(s.threads, o) {}
  }

  // A pass may forget what is swept, and sets the mark once nothing is left.
  lemma PassChangeInv(s: State, t: Tid, pass: Option<Pass>, swept: bool)
    requires Inv(s) && t in s.threads
    requires pass.Some? ==> pass.value.todo <= s.threads[t].held
    requires pass.Some? && pass.value.afterStop ==> SweptExcept(s, pass.value.todo)
    requires swept ==> SweptExcept(s, {})
    ensures Inv(SetThread(s, t, s.threads[t].(pass := pass)).(swept := swept))
  {
    var s' := SetThread(s, t, s.threads[t].(pass := pass)).(swept := swept);
    PassChangeParts(s, t, pass, swept);
    hide EntryValid, Balanced, Registered, Counted, Locked, EntriesValid, Ledgered, PassesSweep, ReturnedOnce, AllClosing, Alike;
    SameHoldersCounted(s, s');
    AlikeRest(s, s');
  }

  lemma PassChangeParts(s: State, t: Tid, pass: Option<Pass>, swept: bool)
    requires Registered(s) && Locked(s) && PassesSweep(s) && t in s.threads
    requires pass.Some? ==> pass.value.todo <= s.threads[t].held
    requires pass.Some? && pass.value.afterStop ==> SweptExcept(s, pass.value.todo)
    requires swept ==> SweptExcept(s, {})
    ensures
      var s' := SetThread(s, t, s.threads[t].(pass := pass)).(swept := swept);
      Registered(s') && PassesSweep(s') && Alike(s, s')
  {
    var s' := SetThread(s, t, s.threads[t].(pass := pass)).(swept := swept);
    hide AllClosing;
    assert Registered(s') by { hide Locked, PassesSweep; }
    assert PassesSweep(s') by { hide Locked, Registered; }
    assert Alike(s, s') by { hide Registered, PassesSweep; }
  }

  /** A pass finds every object that a pending reservation or a record occupies. */
  lemma OccupiedIsRegistered(s: State, o: ObjId)
    requires Registered(s) && Counted(s) && Locked(s) && o in s.objects && !AllClosing(s.objects[o])
    ensures s.objects[o].user in s.users && s.users[s.objects[o].user] == o
  {
    if s.objects[o].mu.Some? {
      assert s.objects[o].mu.value in Holders(s.threads, o);
      assert s.objects[o].refs > 0;
    }
  }

  lemma BeginPassInv(s: State, t: Tid)
    requires Inv(s) && ThreadOf(s, t) == IDLE
    ensures Inv(RetainAll(s, t))
  {
    var s' := RetainAll(s, t);
    hide EntryValid, Balanced, Registered, Counted, Locked, EntriesValid, Ledgered, PassesSweep, ReturnedOnce, AllClosing, Alike;
    forall o | o in s.objects && o !in (set u | u in s.users :: s.users[u]) ensures AllClosing(s.objects[o]) {
      if !AllClosing(s.objects[o]) { OccupiedIsRegistered(s, o); }
    }
    BeginPassSweeps(s, t);
    BeginPassCounted(s, t);
    BeginPassRegistered(s, t);
    BeginPassAlike(s, t);
    AlikeRest(s, s');
  }

  lemma BeginPassAlike(s: State, t: Tid)
    requires Locked(s) && ThreadOf(s, t) == IDLE
    ensures Alike(s, RetainAll(s, t))
  {}

  lemma BeginPassSweeps(s: State, t: Tid)
    requires PassesSweep(s) && ThreadOf(s, t) == IDLE && Registered(s)
    requires forall o | o in s.objects && o !in (set u | u in s.users :: s.users[u]) :: AllClosing(s.objects[o])
    ensures PassesSweep(RetainAll(s, t))
  {
    var s' := RetainAll(s, t);
    assert forall o | o in s.objects :: AllClosing(s.objects[o]) <==> AllClosing(s'.objects[o]);
    hide AllClosing;
  }

  lemma BeginPassRegistered(s: State, t: Tid)
    requires Registered(s) && ThreadOf(s, t) == IDLE
    ensures Registered(RetainAll(s, t))
  {}

  lemma BeginPassCounted(s: State, t: Tid)
    requires Counted(s) && ThreadOf(s, t) == IDLE
    ensures Counted(RetainAll(s, t))
  {
    var s' := RetainAll(s, t);
    var all := set u | u in s.users :: s.users[u];
    forall o | o in s'.objects ensures s'.objects[o].refs == |Holders(s'.threads, o)| {
      if o in all {
        assert Holders(s'.threads, o) == Holders(s.threads, o) + {t};
      } else {
        assert Holders(s'.threads, o) == Holders(s.threads, o);
      }
    }
  }

  lemma SweepInv(s: State, t: Tid, o: ObjId)
    requires Inv(s) && CanSweep(s, t, o)
    ensures Inv(SweepUser(s, t, o))
  {
    hide EntryValid, Balanced, Registered, Counted, Locked, EntriesValid, Ledgered, PassesSweep, ReturnedOnce, AllClosing, CloseMatching;
    var s1 := SetObject(s, o, s.objects[o].(entry := CloseMatching(s.objects[o].entry, None)));
    CloseAllCloses(s.objects[o]);
    CriticalInv(s, t, o, CloseMatchingSection(None));
    var pass := s.threads[t].pass.value;
    SweptOneMore(s1, t, o);
    PassChangeInv(s1, t, Some(pass.(todo := pass.todo - {o})), s.swept);
  }

  lemma CloseAllCloses(x: Object)
    requires x.mu.None?
    ensures AllClosing(x.(entry := CloseMatching(x.entry, None)))
  {}

  lemma SweptOneMore(s: State, t: Tid, o: ObjId)
    requires PassesSweep(s) && t in s.threads && s.threads[t].pass.Some? && o in s.objects && AllClosing(s.objects[o])
    ensures s.swept ==> SweptExcept(s, {})
    ensures s.threads[t].pass.value.todo <= s.threads[t].held
    ensures s.threads[t].pass.value.afterStop ==> SweptExcept(s, s.threads[t].pass.value.todo - {o})
  {
    hide AllClosing;
  }

  lemma ActInv(s: State, a: Action)
    requires Inv(s) && CanAct(s, a)
    ensures Inv(Act(s, a))
  {
    hide EntryValid, Balanced, Registered, Counted, Locked, EntriesValid, Ledgered, ReturnedOnce, AllClosing;
    match a
    case Acquire(t, u, fresh') => AcquireInv(s, t, u, fresh');
    case Release(t, o) => ReleaseInv(s, t, o);
    case Critical(t, o, section) => CriticalInv(s, t, o, section);
    case Admit(t, o, id, login, source) => AdmitInv(s, t, o, id, login, source);
    case Insert(t) => InsertInv(s, t);
    case Finish(t, o, ref) => RemoveInv(s, t, o, ref, true);
    case Abort(t, o, ref) => RemoveInv(s, t, o, ref, false);
    case Stop => StopInv(s);
    case BeginPass(t) => BeginPassInv(s, t);
    case Sweep(t, o) => SweepInv(s, t, o);
    case EndPass(t) => PassChangeInv(s, t, None, s.swept || s.threads[t].pass.value.afterStop);
  }

  // ----- Whole runs -----

  ghost predicate Reaches(s: State, actions: seq<Action>, s': State)
    decreases |actions|
  {
    if actions == [] then s == s'
    else CanAct(s, actions[0]) && Reaches(Act(s, actions[0]), actions[1..], s')
  }

  lemma {:induction false} ReachesInv(s: State, actions: seq<Action>, s': State)
    requires Inv(s) && Reaches(s, actions, s')
    ensures Inv(s')
    decreases |actions|
  {
    if actions != [] {
      ActInv(s, actions[0]);
      ReachesInv(Act(s, actions[0]), actions[1..], s');
    }
  }

  // The connection has a live record with this source, or is about to be inserted with it.
  ghost predicate RecordFrom(s: State, id: ConnId, source: Option<Source>) {
    exists o :: o in s.objects && id in s.objects[o].entry.connections && s.objects[o].entry.connections[id].source == source
  }

  ghost predicate PendingFrom(s: State, id: ConnId, source: Option<Source>) {
    exists t :: t in s.threads && s.threads[t].pending.Some? && IsPendingOf(s.threads[t].pending.value, id, source)
  }

  ghost predicate IsPendingOf(p: Pending, id: ConnId, source: Option<Source>) {
    p.id == id && p.source == source
  }

  ghost predicate OutFrom(s: State, id: ConnId, source: Option<Source>) {
    RecordFrom(s, id, source) || PendingFrom(s, id, source)
  }

  ghost predicate Out(s: State, id: ConnId) {
    exists source :: OutFrom(s, id, source)
  }

  /** The connections that exist, or are about to, from one source. */
  ghost function LiveFrom(s: State, source: Source): set<ConnId> {
    set id | id in s.issued && OutFrom(s, id, Some(source))
  }

  ghost function Live(s: State): set<ConnId> {
    set id | id in s.issued && Out(s, id)
  }

  lemma LedgerIsOut(s: State, id: ConnId, source: Option<Source>)
    requires Ledgered(s)
    ensures id in s.ledger && s.ledger[id].source == source <==> OutFrom(s, id, source)
  {
    if id in s.ledger && s.ledger[id].source == source {
      var o := s.ledger[id].owner;
      assert Accounted(s, id, o);
      if id in s.objects[o].entry.connections {
        assert RecordFrom(s, id, source);
      } else {
        var t := s.objects[o].mu.value;
        assert t in s.threads && IsPendingOf(s.threads[t].pending.value, id, source);
      }
    }
  }

  lemma LedgerIsLive(s: State)
    requires Ledgered(s) && ReturnedOnce(s)
    ensures Live(s) == s.ledger.Keys
    ensures forall source: Source :: LiveFrom(s, source) == FromSource(s.ledger, source)
  {
    hide Ledgered, OutFrom;
    forall id: ConnId ensures id in s.ledger <==> Out(s, id) {
      if id in s.ledger {
        LedgerIsOut(s, id, s.ledger[id].source);
      } else if Out(s, id) {
        var source :| OutFrom(s, id, source);
        LedgerIsOut(s, id, source);
      }
    }
    forall source: Source, id: ConnId
      ensures id in s.ledger && s.ledger[id].source == Some(source) <==> OutFrom(s, id, Some(source))
    {
      LedgerIsOut(s, id, Some(source));
    }
  }

  /** No id has two records, or a record and a reservation, or two reservations. */
  ghost predicate NoneTwice(s: State) {
    && (forall o, o', id | o in s.objects && o' in s.objects && id in s.objects[o].entry.connections
                           && id in s.objects[o'].entry.connections :: o == o')
    && (forall o, t | o in s.objects && t in s.threads && s.threads[t].pending.Some? ::
          s.threads[t].pending.value.id !in s.objects[o].entry.connections)
    && (forall t, t' | t in s.threads && t' in s.threads && t != t' && s.threads[t].pending.Some? && s.threads[t'].pending.Some? ::
          s.threads[t].pending.value.id != s.threads[t'].pending.value.id)
  }

  lemma LedgeredNoneTwice(s: State)
    requires Ledgered(s) && Locked(s)
    ensures NoneTwice(s)
  {
    hide Accounted;
    forall o, o', id | o in s.objects && o' in s.objects && id in s.objects[o].entry.connections
                       && id in s.objects[o'].entry.connections
      ensures o == o'
    {
      assert s.ledger[id].owner == o && s.ledger[id].owner == o';
    }
    forall o, t | o in s.objects && t in s.threads && s.threads[t].pending.Some?
      ensures s.threads[t].pending.value.id !in s.objects[o].entry.connections
    {
      var p := s.threads[t].pending.value;
      assert s.ledger[p.id] == Ticket(p.owner, p.source);
      assert p.owner != o ==> p.id !in s.objects[o].entry.connections;
    }
    forall t, t' | t in s.threads && t' in s.threads && t != t' && s.threads[t].pending.Some? && s.threads[t'].pending.Some?
      ensures s.threads[t].pending.value.id != s.threads[t'].pending.value.id
    {
      var p, q := s.threads[t].pending.value, s.threads[t'].pending.value;
      assert s.objects[p.owner].mu == Some(t) && s.objects[q.owner].mu == Some(t');
      assert s.ledger[p.id].owner == p.owner && s.ledger[q.id].owner == q.owner;
    }
  }

  /** In every reachable state each counter equals the number of matching records
      and pending reservations, the caps hold, no source is kept at zero, no id is
      counted twice, and each issued slot has been given back at most once, exactly
      when its connection neither exists nor is about to. */
  lemma AdmissionIsConserved(s0: State, actions: seq<Action>, s: State)
    requires Init(s0) && Reaches(s0, actions, s)
    ensures s.counters.admitted == s.counters.waiting == |Live(s)| <= MAX_CONNECTIONS
    ensures forall source: Source :: CountOf(s.counters, source) == |LiveFrom(s, source)| <= MAX_PER_SOURCE
    ensures forall source | source in s.counters.sources :: s.counters.sources[source] > 0
    ensures forall o | o in s.objects :: s.objects[o].entry.admitted == |s.objects[o].entry.connections.Keys| <= MAX_PER_USER
    ensures NoneTwice(s)
    ensures forall id :: s.returned[id] == if id in s.issued && id !in Live(s) then 1 else 0
  {
    InitInv(s0);
    ReachesInv(s0, actions, s);
    hide Reaches, Init, Live, LiveFrom;
    LedgerIsLive(s);
    assert NoneTwice(s) by { hide Balanced, Registered, Counted, EntriesValid, PassesSweep, ReturnedOnce; LedgeredNoneTwice(s); }
    hide NoneTwice;
    forall source: Source ensures CountOf(s.counters, source) == |LiveFrom(s, source)| <= MAX_PER_SOURCE {
      assert SourceBalanced(s.counters, s.ledger, source);
    }
    assert forall o | o in s.objects :: s.objects[o].entry.admitted == |s.objects[o].entry.connections.Keys| <= MAX_PER_USER by {
      hide Balanced, Registered, Counted, Locked, PassesSweep, ReturnedOnce, Ledgered;
    }
    hide Registered, Counted, Locked, PassesSweep, Ledgered, EntriesValid;
  }

  /** In every reachable state a reservation is granted if and only if admission is
      open and fewer connections than each cap exist or are pending: in all, from the
      source and of the user. */
  lemma ReservationGrantedIff(
    s0: State, actions: seq<Action>, s: State, t: Tid, o: ObjId, id: ConnId, login: int, source: Option<Source>)
    requires Init(s0) && Reaches(s0, actions, s) && CanTake(s, t, o, id)
    ensures
      var s' := TakeSlot(s, t, o, id, login, source);
      && (PendingId(ThreadOf(s', t), id) <==>
            && s.counters.accepting && |Live(s)| < MAX_CONNECTIONS
            && (source.Some? ==> |LiveFrom(s, source.value)| < MAX_PER_SOURCE)
            && |s.objects[o].entry.connections.Keys| < MAX_PER_USER)
      && (!PendingId(ThreadOf(s', t), id) ==> s' == s)
  {
    hide Reaches, Init, Live, LiveFrom;
    AdmissionIsConserved(s0, actions, s);
    if source.Some? {
      assert CountOf(s.counters, source.value) == |LiveFrom(s, source.value)|;
    }
  }

  /** Finishing a closing connection, or aborting one that never got a transport, gives
      its slot back at once. */
  lemma RemovalFreesSlot(s0: State, actions: seq<Action>, s: State, t: Tid, o: ObjId, ref: Ref, finish: bool)
    requires Init(s0) && Reaches(s0, actions, s) && CanLock(s, t, o) && Names(s.objects[o].entry, ref)
    requires var r := s.objects[o].entry.connections[ref.id]; if finish then r.phase == Closing else !r.attached
    ensures
      var s' := RemoveRecord(s, o, ref, finish);
      && ref.id in Live(s) && Live(s') == Live(s) - {ref.id} && s'.returned[ref.id] == 1
      && s'.counters.admitted == s.counters.admitted - 1 && s'.counters.waiting == s.counters.waiting - 1
  {
    InitInv(s0);
    hide Reaches, Init, Live;
    ReachesInv(s0, actions, s);
    var s' := RemoveRecord(s, o, ref, finish);
    RemoveInv(s, t, o, ref, finish);
    RemovableFacts(s, t, o, ref, finish);
    RemoveLocal(s, t, o, ref, finish);
    hide RemoveRecord, Local, Registered, Counted, Locked, EntriesValid, PassesSweep, Balanced, Ledgered;
    LedgerIsLive(s);
    LedgerIsLive(s');
  }

  // ----- The registry keeps no idle user -----

  /** A registered user object is retained by a thread or has a record. */
  ghost predicate NoneIdle(s: State) {
    forall u | u in s.users :: s.users[u] in s.objects && InUse(s.objects[s.users[u]])
  }

  ghost predicate InUse(x: Object) {
    x.refs > 0 || x.entry.connections != map[]
  }

  // A thread that retains an object keeps it in use.
  lemma RetainedInUse(s: State, t: Tid, o: ObjId)
    requires Counted(s) && o in s.objects && o in ThreadOf(s, t).held
    ensures s.objects[o].refs > 0
  {
    assert t in Holders(s.threads, o);
  }

  lemma ObjectNoneIdle(s: State, s': State, o: ObjId)
    requires NoneIdle(s) && s'.users == s.users && o in s.objects && o in s'.objects
    requires s'.objects == s.objects[o := s'.objects[o]] && s'.objects[o].refs > 0
    ensures NoneIdle(s')
  {}

  lemma ActNoneIdle(s: State, a: Action)
    requires Inv(s) && NoneIdle(s) && CanAct(s, a)
    ensures NoneIdle(Act(s, a))
  {
    hide EntriesValid, Ledgered, Balanced, ReturnedOnce, PassesSweep, EntryValid, Locked;
    match a
    case Acquire(t, u, fresh') => AcquireNoneIdle(s, t, u, fresh');
    case Release(t, o) => ReleaseNoneIdle(s, t, o);
    case Critical(t, o, section) =>
      RetainedInUse(s, t, o);
      ObjectNoneIdle(s, Act(s, a), o);
    case Admit(t, o, id, login, source) =>
      RetainedInUse(s, t, o);
      if TakeSlot(s, t, o, id, login, source) != s { ObjectNoneIdle(s, Act(s, a), o); }
    case Insert(t) => InsertNoneIdle(s, t);
    case Finish(t, o, ref) =>
      RetainedInUse(s, t, o);
      if Removable(s.objects[o].entry, ref, true) { ObjectNoneIdle(s, Act(s, a), o); }
    case Abort(t, o, ref) =>
      RetainedInUse(s, t, o);
      if Removable(s.objects[o].entry, ref, false) { ObjectNoneIdle(s, Act(s, a), o); }
    case Stop =>
    case BeginPass(t) => PassNoneIdle(s, t);
    case Sweep(t, o) =>
      RetainedInUse(s, t, o);
      ObjectNoneIdle(s, Act(s, a), o);
    case EndPass(t) =>
  }

  lemma AcquireNoneIdle(s: State, t: Tid, u: User, fresh': ObjId)
    requires NoneIdle(s) && Counted(s) && CanRetain(s, t, u, fresh')
    ensures NoneIdle(Retain(s, t, u, fresh'))
  {}

  lemma ReleaseNoneIdle(s: State, t: Tid, o: ObjId)
    requires NoneIdle(s) && Registered(s) && Counted(s) && CanDrop(s, t, o)
    ensures NoneIdle(Drop(s, t, o))
  {
    RetainedInUse(s, t, o);
    assert s.users[s.objects[o].user] == o;
  }

  lemma InsertNoneIdle(s: State, t: Tid)
    requires NoneIdle(s) && CanInsert(s, t)
    ensures NoneIdle(InsertRecord(s, t))
  {
    var p := ThreadOf(s, t).pending.value;
    var s' := InsertRecord(s, t);
    assert p.id in s'.objects[p.owner].entry.connections;
  }

  lemma PassNoneIdle(s: State, t: Tid)
    requires NoneIdle(s) && Counted(s)
    ensures NoneIdle(RetainAll(s, t))
  {}

  lemma {:induction false} ReachesNoneIdle(s: State, actions: seq<Action>, s': State)
    requires Inv(s) && NoneIdle(s) && Reaches(s, actions, s')
    ensures NoneIdle(s')
    decreases |actions|
  {
    if actions != [] {
      ActInv(s, actions[0]);
      ActNoneIdle(s, actions[0]);
      hide Inv, Act, CanAct, NoneIdle;
      ReachesNoneIdle(Act(s, actions[0]), actions[1..], s');
    }
  }

  /** In every reachable state the registry holds only users that have a connection or
      that some thread is working on. */
  lemma RegistryIsPruned(s0: State, actions: seq<Action>, s: State)
    requires Init(s0) && Reaches(s0, actions, s)
    ensures forall u | u in s.users ::
      && s.users[u] in s.objects
      && (s.objects[s.users[u]].entry.connections != map[] || exists t :: t in s.threads && s.users[u] in s.threads[t].held)
  {
    InitInv(s0);
    assert NoneIdle(s0);
    hide Init;
    ReachesInv(s0, actions, s);
    ReachesNoneIdle(s0, actions, s);
    hide Reaches, Locked, EntriesValid, Ledgered, Balanced, ReturnedOnce, PassesSweep;
    forall u | u in s.users && s.objects[s.users[u]].entry.connections == map[]
      ensures exists t :: t in s.threads && s.users[u] in s.threads[t].held
    {
      var o := s.users[u];
      assert InUse(s.objects[o]) && |Holders(s.threads, o)| > 0;
      var t :| t in Holders(s.threads, o);
    }
  }

  /** Once a pass that began after StopAdmission has ended, no connection is opening
      or active and none is about to be inserted, in that and every later state. */
  lemma ShutdownIsFinal(s0: State, before: seq<Action>, s1: State, after: seq<Action>, s2: State, t: Tid)
    requires Init(s0) && Reaches(s0, before, s1)
    requires CanAct(s1, EndPass(t)) && ThreadOf(s1, t).pass.value.afterStop
    requires Reaches(Act(s1, EndPass(t)), after, s2)
    ensures !s2.counters.accepting
    ensures forall o, id | o in s2.objects && id in s2.objects[o].entry.connections ::
      s2.objects[o].entry.connections[id].phase == Closing
    ensures forall u | u in s2.threads :: s2.threads[u].pending.None?
  {
    hide Inv, Reaches, Init, CanAct;
    InitInv(s0);
    ReachesInv(s0, before, s1);
    ActInv(s1, EndPass(t));
    var ended := Act(s1, EndPass(t));
    EndPassSweeps(s1, t);
    hide Act;
    ReachesInv(ended, after, s2);
    SweptForever(ended, after, s2);
    SweptMeans(s2);
  }

  lemma EndPassSweeps(s: State, t: Tid)
    requires CanAct(s, EndPass(t)) && ThreadOf(s, t).pass.value.afterStop
    ensures Act(s, EndPass(t)).swept
  {}

  lemma SweptMeans(s: State)
    requires Inv(s) && s.swept
    ensures !s.counters.accepting
    ensures forall o, id | o in s.objects && id in s.objects[o].entry.connections ::
      s.objects[o].entry.connections[id].phase == Closing
    ensures forall u | u in s.threads :: s.threads[u].pending.None?
  {
    hide Balanced, Registered, Counted, EntriesValid, ReturnedOnce, Ledgered;
    assert forall o | o in s.objects :: AllClosing(s.objects[o]);
  }

  lemma {:induction false} SweptForever(s: State, actions: seq<Action>, s': State)
    requires s.swept && Reaches(s, actions, s')
    ensures s'.swept
    decreases |actions|
  {
    if actions != [] {
      SweptForever(Act(s, actions[0]), actions[1..], s');
    }
  }
}
