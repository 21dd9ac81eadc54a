/** The principal cache under the per-user locks, and which mutations keep it true.

Readers load and read a user's principal while they hold that user's lock.  A
mutation locks its users, commits, drops the cache entries on its list and unlocks.
Nothing here ties what a commit changes to what it locked or drops: that is the
condition under which the cache stays coherent. */
module PrincipalCoherence {
  import opened Wrappers
  import Locks = PrincipalLocks

  type User = int
  type Tid = nat

  /** The role bindings are named by their row ids. */
  datatype Principal = Principal(bindings: set<nat>, banned: bool, authVersion: int)

  /** One transaction: the users it locks, what it does to existing users (None
      deletes the user), the users it registers, and the entries it drops after. */
  datatype Transaction = Transaction(
    locks: seq<User>, changes: map<User, Option<Principal>>, creates: map<User, Principal>, drops: seq<User>)

  type Mutation = m: Transaction | m.changes.Keys !! m.creates.Keys witness Transaction([], map[], map[], [])

  // Rows that are missing are not changed.
  function Committed(store: map<User, Principal>, m: Mutation): map<User, Principal> {
    (map u | u in store && !(u in m.changes && m.changes[u].None?) ::
       if u in m.changes then m.changes[u].value else store[u]) + m.creates
  }

  /** What a thread is in the middle of while it holds its locks. */
  datatype Work =
    | Free
    | Loaded(user: User, snapshot: Principal)  // the loader has read the store
    | Dropping(todo: seq<User>)                // committed, entries still to drop

  /** A principal handed out, with what the store held at that moment. */
  datatype Answer = Answer(user: User, given: Principal, stored: Option<Principal>)

  datatype State = State(
    locks: Locks.State,
    store: map<User, Principal>,
    cache: map<User, Principal>,
    work: map<Tid, Work>,
    answers: seq<Answer>)

  function WorkOf(s: State, t: Tid): Work {
    if t in s.work then s.work[t] else Free
  }

  function StoredOf(s: State, u: User): Option<Principal> {
    if u in s.store then Some(s.store[u]) else None
  }

  datatype Action =
    | LockStep(step: Locks.Action)
    | Hit(t: Tid, user: User)
    | Load(t: Tid, user: User)
    | Join(t: Tid, loader: Tid)
    | Publish(t: Tid)
    | Expire(user: User)
    | Commit(t: Tid, m: Mutation)
    | Drop(t: Tid)

  // Every lock of the caller is held and none is being given back.
  ghost predicate Inside(s: State, t: Tid) {
    && t in s.locks.callers
    && var c := s.locks.callers[t]; !c.releasing && c.held == |c.ids|
  }

  ghost predicate Holds(s: State, t: Tid, u: User) {
    Inside(s, t) && u in s.locks.callers[t].ids
  }

  /** New users have new ids; the loader of a missing user fails. */
  ghost predicate CanAct(s: State, a: Action) {
    match a
    case LockStep(step) => Locks.CanAct(s.locks, step) && (step.BeginRelease? ==> WorkOf(s, step.t).Free?)
    case Hit(t, u) => Holds(s, t, u) && u in s.cache && WorkOf(s, t).Free?
    case Load(t, u) => Holds(s, t, u) && u in s.store && WorkOf(s, t).Free?
    case Join(t, l) => WorkOf(s, l).Loaded? && Holds(s, t, WorkOf(s, l).user)
    case Publish(t) => WorkOf(s, t).Loaded?
    case Expire(u) => true
    case Commit(t, m) =>
      && Inside(s, t) && s.locks.callers[t].write && WorkOf(s, t).Free?
      && s.locks.callers[t].ids == Locks.SortCompact(m.locks) && m.creates.Keys !! s.store.Keys
    case Drop(t) => WorkOf(s, t).Dropping? && WorkOf(s, t).todo != []
  }

  function AfterDrop(todo: seq<User>): Work {
    if todo == [] then Free else Dropping(todo)
  }

  /** Dropping an entry also detaches the loads of that user that are under way;
      their threads load again. */
  function Detached(work: map<Tid, Work>, u: User): map<Tid, Work> {
    map t | t in work :: if work[t].Loaded? && work[t].user == u then Free else work[t]
  }

  ghost function Act(s: State, a: Action): State
    requires CanAct(s, a)
  {
    match a
    case LockStep(step) => s.(locks := Locks.Act(s.locks, step))
    case Hit(t, u) => s.(answers := s.answers + [Answer(u, s.cache[u], StoredOf(s, u))])
    case Load(t, u) => s.(work := s.work[t := Loaded(u, s.store[u])])
    case Join(t, l) =>
      var Loaded(u, p) := WorkOf(s, l);
      s.(answers := s.answers + [Answer(u, p, StoredOf(s, u))])
    case Publish(t) =>
      var Loaded(u, p) := WorkOf(s, t);
      s.(cache := s.cache[u := p], work := s.work[t := Free], answers := s.answers + [Answer(u, p, StoredOf(s, u))])
    case Expire(u) => s.(cache := s.cache - {u})
    case Commit(t, m) => s.(store := Committed(s.store, m), work := s.work[t := AfterDrop(m.drops)])
    case Drop(t) =>
      var todo := WorkOf(s, t).todo;
      s.(cache := s.cache - {todo[0]}, work := Detached(s.work, todo[0])[t := AfterDrop(todo[1..])])
  }

  ghost predicate Init(s: State) {
    Locks.Init(s.locks) && s.cache == map[] && s.work == map[] && s.answers == []
  }

  ghost predicate Reaches(s: State, actions: seq<Action>, s': State)
    decreases |actions|
  {
    if actions == [] then s' == s
    else CanAct(s, actions[0]) && Reaches(Act(s, actions[0]), actions[1..], s')
  }

  // Every commit of the run is one of these mutations.
  ghost predicate Uses(actions: seq<Action>, allowed: iset<Mutation>) {
    forall i | 0 <= i < |actions| && actions[i].Commit? :: actions[i].m in allowed
  }

  // ----- Coherence and its condition -----

  ghost predicate Current(s: State, u: User, p: Principal) {
    StoredOf(s, u) == Some(p)
  }

  ghost predicate WriterHolds(s: State, u: User) {
    exists t: Tid :: Locks.Holds(s.locks, t, u) && s.locks.callers[t].write
  }

  ghost predicate AnswersCurrent(s: State) {
    forall i | 0 <= i < |s.answers| :: s.answers[i].stored == Some(s.answers[i].given)
  }

  /** The cached principal of a user that no writer holds is the stored one, and
      whatever was handed out was stored at that moment. */
  ghost predicate Coherent(s: State) {
    AnswersCurrent(s) && forall u | u in s.cache && !WriterHolds(s, u) :: Current(s, u, s.cache[u])
  }

  /** Every existing user that the transaction may change is on its lock list and
      on its drop list. */
  predicate Guarded(m: Mutation) {
    forall u | u in m.changes :: u in m.locks && u in m.drops
  }

  ghost predicate AllRunsCoherent(allowed: iset<Mutation>) {
    forall s, actions, s' | Init(s) && Reaches(s, actions, s') && Uses(actions, allowed) :: Coherent(s')
  }

  // ----- Guarded mutations keep the cache coherent -----

  // A thread that holds the user is about to drop its entry.
  ghost predicate Doomed(s: State, u: User) {
    exists t: Tid :: DropsHeld(s, t, u)
  }

  ghost predicate DropsHeld(s: State, t: Tid, u: User) {
    WorkOf(s, t).Dropping? && u in WorkOf(s, t).todo && Holds(s, t, u)
  }

  ghost predicate WorkFits(s: State, t: Tid, w: Work) {
    match w
    case Free => true
    case Loaded(u, p) => Holds(s, t, u) && Current(s, u, p)
    case Dropping(todo) => Inside(s, t) && s.locks.callers[t].write
  }

  ghost predicate WorkValid(s: State) {
    forall t: Tid :: WorkFits(s, t, WorkOf(s, t))
  }

  ghost predicate CacheValid(s: State) {
    forall u | u in s.cache :: Current(s, u, s.cache[u]) || Doomed(s, u)
  }

  ghost predicate Inv(s: State) {
    Locks.Inv(s.locks) && WorkValid(s) && CacheValid(s) && AnswersCurrent(s)
  }

  lemma OneWriter(s: State, t: Tid, t': Tid, u: User)
    requires Locks.Inv(s.locks) && Holds(s, t, u) && Holds(s, t', u) && s.locks.callers[t].write
    ensures t == t'
  {
    HoldsMeans(s, t, u);
    HoldsMeans(s, t', u);
    if t != t' {
      Locks.MutualExclusion(s.locks, t, t', u);
      assert false;
    }
  }

  lemma HoldsMeans(s: State, t: Tid, u: User)
    requires Holds(s, t, u)
    ensures Locks.Holds(s.locks, t, u)
  {
    var ids := s.locks.callers[t].ids;
    assert ids[..|ids|] == ids;
  }

  // Lock steps of others never take away what a busy thread holds.
  lemma LockStepInv(s: State, step: Locks.Action)
    requires Inv(s) && CanAct(s, LockStep(step))
    ensures Inv(Act(s, LockStep(step)))
  {
    var s' := Act(s, LockStep(step));
    Locks.ActInv(s.locks, step);
    assert Locks.AllWellFormed(s.locks);
    hide Locks.Inv, Locks.AllWellFormed;
    forall t: Tid | !WorkOf(s, t).Free?
      ensures Inside(s, t) && Inside(s', t) && s'.locks.callers[t].ids == s.locks.callers[t].ids
      ensures s'.locks.callers[t].write == s.locks.callers[t].write
    {
      assert WorkFits(s, t, WorkOf(s, t));
      InsideKept(s.locks, step, t);
    }
    hide Locks.Act, Locks.CanAct, WorkValid, CacheValid;
    WorkKept(s, s');
  }

  lemma WorkKept(s: State, s': State)
    requires WorkValid(s) && CacheValid(s) && s' == s.(locks := s'.locks)
    requires forall t: Tid | !WorkOf(s, t).Free? ::
      && Inside(s, t) && Inside(s', t) && s'.locks.callers[t].ids == s.locks.callers[t].ids
      && s'.locks.callers[t].write == s.locks.callers[t].write
    ensures WorkValid(s') && CacheValid(s')
  {
    assert forall t: Tid :: WorkOf(s', t) == WorkOf(s, t);
    assert forall t: Tid, u: User :: DropsHeld(s, t, u) ==> DropsHeld(s', t, u);
  }

  lemma InsideKept(l: Locks.State, step: Locks.Action, t: Tid)
    requires Locks.AllWellFormed(l) && Locks.CanAct(l, step) && t in l.callers
    requires !l.callers[t].releasing && l.callers[t].held == |l.callers[t].ids|
    requires step.BeginRelease? ==> step.t != t
    ensures
      var l' := Locks.Act(l, step);
      && t in l'.callers && !l'.callers[t].releasing && l'.callers[t].held == |l'.callers[t].ids|
      && l'.callers[t].ids == l.callers[t].ids && l'.callers[t].write == l.callers[t].write
  {
    assert Locks.WellFormed(l.callers[t]);
  }

  lemma HolderSeesCurrent(s: State, t: Tid, u: User)
    requires Inv(s) && Holds(s, t, u) && u in s.cache && WorkOf(s, t) == Free
    ensures Current(s, u, s.cache[u])
  {
    if Doomed(s, u) {
      var w: Tid :| DropsHeld(s, w, u);
      assert WorkFits(s, w, WorkOf(s, w));
      OneWriter(s, w, t, u);
      assert false;
    }
  }

  lemma CommitInv(s: State, t: Tid, m: Mutation)
    requires Inv(s) && CanAct(s, Commit(t, m)) && Guarded(m)
    ensures Inv(Act(s, Commit(t, m)))
  {
    var s' := Act(s, Commit(t, m));
    assert forall u | u in m.changes :: Holds(s, t, u);
    forall w: Tid | w != t && WorkOf(s, w).Loaded? ensures WorkOf(s, w).user !in m.changes && WorkOf(s, w).user in s.store {
      assert WorkFits(s, w, WorkOf(s, w));
      if WorkOf(s, w).user in m.changes {
        OneWriter(s, t, w, WorkOf(s, w).user);
        assert false;
      }
    }
    hide Locks.Inv;
    CommitWork(s, t, m);
    CommitCache(s, t, m);
  }

  lemma CommitWork(s: State, t: Tid, m: Mutation)
    requires WorkValid(s) && CanAct(s, Commit(t, m))
    requires forall w: Tid | w != t && WorkOf(s, w).Loaded? :: WorkOf(s, w).user !in m.changes && WorkOf(s, w).user in s.store
    ensures WorkValid(Act(s, Commit(t, m)))
  {
    var s' := Act(s, Commit(t, m));
    assert forall w: Tid :: WorkOf(s', w) == if w == t then AfterDrop(m.drops) else WorkOf(s, w);
    forall w: Tid ensures WorkFits(s', w, WorkOf(s', w)) {
      assert WorkFits(s, w, WorkOf(s, w));
    }
  }

  lemma CommitCache(s: State, t: Tid, m: Mutation)
    requires CacheValid(s) && CanAct(s, Commit(t, m)) && Guarded(m)
    ensures CacheValid(Act(s, Commit(t, m)))
  {
    var s' := Act(s, Commit(t, m));
    assert forall w: Tid :: WorkOf(s', w) == if w == t then AfterDrop(m.drops) else WorkOf(s, w);
    forall u | u in s'.cache ensures Current(s', u, s'.cache[u]) || Doomed(s', u) {
      if u in m.changes {
        assert DropsHeld(s', t, u);
      } else if Doomed(s, u) {
        var w: Tid :| DropsHeld(s, w, u);
        assert DropsHeld(s', w, u);
      }
    }
  }

  lemma DropInv(s: State, t: Tid)
    requires Inv(s) && CanAct(s, Drop(t))
    ensures Inv(Act(s, Drop(t)))
  {
    hide Locks.Inv;
    var s' := Act(s, Drop(t));
    var todo := WorkOf(s, t).todo;
    assert todo == [todo[0]] + todo[1..];
    assert forall w: Tid | w != t ::
      WorkOf(s', w) == if WorkOf(s, w).Loaded? && WorkOf(s, w).user == todo[0] then Free else WorkOf(s, w);
    forall w: Tid ensures WorkFits(s', w, WorkOf(s', w)) {
      assert WorkFits(s, w, WorkOf(s, w));
    }
    forall x | x in s'.cache ensures Current(s', x, s'.cache[x]) || Doomed(s', x) {
      if Doomed(s, x) {
        var w: Tid :| DropsHeld(s, w, x);
        assert DropsHeld(s', w, x);
      }
    }
  }

  lemma PublishInv(s: State, t: Tid)
    requires Inv(s) && CanAct(s, Publish(t))
    ensures Inv(Act(s, Publish(t)))
  {
    hide Locks.Inv;
    var s' := Act(s, Publish(t));
    assert forall w: Tid | w != t :: WorkOf(s', w) == WorkOf(s, w);
    assert WorkFits(s, t, WorkOf(s, t));
    forall x | x in s'.cache ensures Current(s', x, s'.cache[x]) || Doomed(s', x) {
      if x in s.cache && Doomed(s, x) {
        var w: Tid :| DropsHeld(s, w, x);
        assert DropsHeld(s', w, x);
      }
    }
  }

  // A step that only hands out a current principal.
  lemma AnswerInv(s: State, u: User, p: Principal)
    requires Inv(s) && Current(s, u, p)
    ensures Inv(s.(answers := s.answers + [Answer(u, p, StoredOf(s, u))]))
  {
    var s' := s.(answers := s.answers + [Answer(u, p, StoredOf(s, u))]);
    hide Locks.Inv;
    SameViewInv(s, s');
  }

  lemma SameViewInv(s: State, s': State)
    requires WorkValid(s) && CacheValid(s) && s'.locks == s.locks && s'.store == s.store
    requires (forall t: Tid :: WorkOf(s', t) == WorkOf(s, t))
    requires (forall u | u in s'.cache :: u in s.cache && s'.cache[u] == s.cache[u])
    ensures WorkValid(s') && CacheValid(s')
  {
    forall x | x in s'.cache ensures Current(s', x, s'.cache[x]) || Doomed(s', x) {
      if Doomed(s, x) {
        var w: Tid :| DropsHeld(s, w, x);
        assert DropsHeld(s', w, x);
      }
    }
    forall w: Tid ensures WorkFits(s', w, WorkOf(s', w)) {
      assert WorkFits(s, w, WorkOf(s, w));
    }
  }

  lemma LoadInv(s: State, t: Tid, u: User)
    requires Inv(s) && CanAct(s, Load(t, u))
    ensures Inv(Act(s, Load(t, u)))
  {
    var s' := Act(s, Load(t, u));
    hide Locks.Inv;
    assert forall w: Tid | w != t :: WorkOf(s', w) == WorkOf(s, w);
    assert forall w: Tid, x: User :: DropsHeld(s, w, x) ==> DropsHeld(s', w, x);
    assert CacheValid(s') by { hide WorkValid, DropsHeld; }
    hide CacheValid, DropsHeld;
    forall w: Tid ensures WorkFits(s', w, WorkOf(s', w)) {
      assert WorkFits(s, w, WorkOf(s, w));
    }
  }

  lemma ActInv(s: State, a: Action)
    requires Inv(s) && CanAct(s, a) && (a.Commit? ==> Guarded(a.m))
    ensures Inv(Act(s, a))
  {
    match a
    case LockStep(step) => LockStepInv(s, step);
    case Commit(t, m) => CommitInv(s, t, m);
    case Drop(t) => DropInv(s, t);
    case Publish(t) => PublishInv(s, t);
    case Hit(t, u) =>
      HolderSeesCurrent(s, t, u);
      AnswerInv(s, u, s.cache[u]);
    case Load(t, u) => LoadInv(s, t, u);
    case Join(t, l) =>
      assert WorkFits(s, l, WorkOf(s, l));
      AnswerInv(s, WorkOf(s, l).user, WorkOf(s, l).snapshot);
    case Expire(u) => SameViewInv(s, Act(s, a));
  }

  lemma {:induction false} ReachesInv(s: State, actions: seq<Action>, s': State, allowed: iset<Mutation>)
    requires Inv(s) && Reaches(s, actions, s') && Uses(actions, allowed) && forall m | m in allowed :: Guarded(m)
    ensures Inv(s')
    decreases |actions|
  {
    if actions != [] {
      assert actions[0].Commit? ==> actions[0].m in allowed;
      ActInv(s, actions[0]);
      hide Inv, Act, Guarded;
      assert Uses(actions[1..], allowed);
      ReachesInv(Act(s, actions[0]), actions[1..], s', allowed);
    }
  }

  /** With guarded mutations only, every reachable state is coherent. */
  lemma EveryRunIsCoherent(s: State, actions: seq<Action>, s': State, allowed: iset<Mutation>)
    requires Init(s) && Reaches(s, actions, s') && Uses(actions, allowed) && forall m | m in allowed :: Guarded(m)
    ensures Coherent(s')
  {
    assert Inv(s);
    hide Reaches, Init, Guarded;
    ReachesInv(s, actions, s', allowed);
    forall u | u in s'.cache && !Current(s', u, s'.cache[u]) ensures WriterHolds(s', u) {
      var w: Tid :| DropsHeld(s', w, u);
      assert WorkFits(s', w, WorkOf(s', w));
      HoldsMeans(s', w, u);
    }
  }

  // ----- Every unguarded mutation breaks it in some run -----

  lemma {:induction false} Chain(s: State, first: seq<Action>, mid: State, second: seq<Action>, s': State)
    requires Reaches(s, first, mid) && Reaches(mid, second, s')
    ensures Reaches(s, first + second, s')
    decreases |first|
  {
    if first == [] {
      assert first + second == second;
    } else {
      Chain(Act(s, first[0]), first[1..], mid, second, s');
      assert (first + second)[1..] == first[1..] + second;
    }
  }

  lemma OneStep(s: State, a: Action)
    requires CanAct(s, a)
    ensures Reaches(s, [a], Act(s, a))
  {
    assert [a][1..] == [];
    assert Reaches(Act(s, a), [], Act(s, a));
  }

  ghost predicate OnlyLocks(actions: seq<Action>) {
    forall i | 0 <= i < |actions| :: actions[i].LockStep?
  }

  // Only t runs, it has no more retained than held.
  ghost predicate Alone(s: State, t: Tid) {
    Locks.Inv(s.locks) && s.locks.callers.Keys == {t} && s.locks.callers[t].held == |s.locks.callers[t].refs|
  }

  ghost predicate Quiet(s: State) {
    Locks.Inv(s.locks) && s.locks.callers == map[] && forall t: Tid :: WorkOf(s, t).Free?
  }

  ghost predicate AloneIn(l: Locks.State, t: Tid) {
    Locks.Inv(l) && l.callers.Keys == {t}
  }

  lemma RetainAlone(l: Locks.State, t: Tid, f: Locks.Ref)
    requires AloneIn(l, t) && f !in l.registry.refs
    requires var c := l.callers[t]; !c.releasing && |c.refs| == c.held < |c.ids|
    ensures Locks.CanAct(l, Locks.RetainNext(t, f))
    ensures
      var l', c := Locks.Act(l, Locks.RetainNext(t, f)), l.callers[t];
      AloneIn(l', t) && l'.callers[t] == c.(refs := l'.callers[t].refs) && |l'.callers[t].refs| == c.held + 1
  {
    Locks.ActInv(l, Locks.RetainNext(t, f));
  }

  lemma NobodyElse(l: Locks.State, t: Tid, ref: Locks.Ref, write: bool)
    requires l.callers.Keys == {t}
    ensures Locks.Available(l, t, ref, write)
  {}

  lemma LockAlone(l: Locks.State, t: Tid)
    requires AloneIn(l, t) && var c := l.callers[t]; !c.releasing && |c.refs| == c.held + 1
    ensures Locks.CanAct(l, Locks.LockNext(t))
    ensures
      var l', c := Locks.Act(l, Locks.LockNext(t)), l.callers[t];
      AloneIn(l', t) && l'.callers[t] == c.(held := c.held + 1)
  {
    hide Locks.Inv, Locks.Available;
    NobodyElse(l, t, l.callers[t].refs[l.callers[t].held], l.callers[t].write);
    Locks.ActInv(l, Locks.LockNext(t));
  }

  lemma TakeOne(s: State, t: Tid) returns (actions: seq<Action>, s': State)
    requires Alone(s, t) && !s.locks.callers[t].releasing && s.locks.callers[t].held < |s.locks.callers[t].ids|
    ensures OnlyLocks(actions) && Reaches(s, actions, s') && s' == s.(locks := s'.locks) && Alone(s', t)
    ensures
      var c, c' := s.locks.callers[t], s'.locks.callers[t];
      c'.write == c.write && c'.ids == c.ids && !c'.releasing && c'.held == c.held + 1
  {
    var f := Locks.FreshRef(s.locks.registry.refs.Keys);
    var retain, take := LockStep(Locks.RetainNext(t, f)), LockStep(Locks.LockNext(t));
    hide Locks.Inv, Locks.Act, Locks.CanAct;
    RetainAlone(s.locks, t, f);
    var mid := Act(s, retain);
    LockAlone(mid.locks, t);
    s' := Act(mid, take);
    OneStep(s, retain);
    OneStep(mid, take);
    Chain(s, [retain], mid, [take], s');
    actions := [retain] + [take];
  }

  lemma {:induction false} TakeAll(s: State, t: Tid) returns (actions: seq<Action>, s': State)
    requires Alone(s, t) && !s.locks.callers[t].releasing && s.locks.callers[t].held <= |s.locks.callers[t].ids|
    ensures OnlyLocks(actions) && Reaches(s, actions, s') && s' == s.(locks := s'.locks)
    ensures Alone(s', t) && Inside(s', t)
    ensures s'.locks.callers[t].ids == s.locks.callers[t].ids && s'.locks.callers[t].write == s.locks.callers[t].write
    decreases |s.locks.callers[t].ids| - s.locks.callers[t].held
  {
    if s.locks.callers[t].held == |s.locks.callers[t].ids| {
      actions, s' := [], s;
    } else {
      var first, mid := TakeOne(s, t);
      var rest, end := TakeAll(mid, t);
      Chain(s, first, mid, rest, end);
      actions, s' := first + rest, end;
    }
  }

  lemma Enter(s: State, t: Tid, write: bool, users: seq<User>) returns (actions: seq<Action>, s': State)
    requires Quiet(s) && (write || |users| == 1)
    ensures OnlyLocks(actions) && Reaches(s, actions, s') && s' == s.(locks := s'.locks)
    ensures Alone(s', t) && Inside(s', t)
    ensures s'.locks.callers[t].ids == Locks.SortCompact(users) && s'.locks.callers[t].write == write
  {
    var begin := LockStep(Locks.Begin(t, write, users));
    Locks.ActInv(s.locks, Locks.Begin(t, write, users));
    var mid := Act(s, begin);
    assert mid.locks.callers.Keys == {t};
    OneStep(s, begin);
    var rest, end := TakeAll(mid, t);
    Chain(s, [begin], mid, rest, end);
    actions, s' := [begin] + rest, end;
  }

  lemma UnlockAlone(l: Locks.State, t: Tid)
    requires AloneIn(l, t) && var c := l.callers[t]; c.releasing && 0 < c.held == |c.refs|
    ensures Locks.CanAct(l, Locks.UnlockLast(t))
    ensures
      var l', c := Locks.Act(l, Locks.UnlockLast(t)), l.callers[t];
      AloneIn(l', t) && l'.callers[t] == c.(held := c.held - 1)
  {
    assert Locks.WellFormed(l.callers[t]);
    Locks.ActInv(l, Locks.UnlockLast(t));
  }

  lemma DropAlone(l: Locks.State, t: Tid)
    requires AloneIn(l, t) && var c := l.callers[t]; c.releasing && |c.refs| == c.held + 1
    ensures Locks.CanAct(l, Locks.DropLast(t))
    ensures
      var l', c := Locks.Act(l, Locks.DropLast(t)), l.callers[t];
      AloneIn(l', t) && l'.callers[t] == c.(refs := c.refs[..c.held])
  {
    assert Locks.WellFormed(l.callers[t]);
    Locks.RetainedCounted(l, t, l.callers[t].held);
    Locks.ActInv(l, Locks.DropLast(t));
  }

  lemma GiveOne(s: State, t: Tid) returns (actions: seq<Action>, s': State)
    requires Alone(s, t) && s.locks.callers[t].releasing && s.locks.callers[t].held > 0
    ensures OnlyLocks(actions) && Reaches(s, actions, s') && s' == s.(locks := s'.locks) && Alone(s', t)
    ensures s'.locks.callers[t].releasing && s'.locks.callers[t].held == s.locks.callers[t].held - 1
  {
    var unlock, drop := LockStep(Locks.UnlockLast(t)), LockStep(Locks.DropLast(t));
    hide Locks.Inv, Locks.Act, Locks.CanAct;
    UnlockAlone(s.locks, t);
    var mid := Act(s, unlock);
    DropAlone(mid.locks, t);
    s' := Act(mid, drop);
    OneStep(s, unlock);
    OneStep(mid, drop);
    Chain(s, [unlock], mid, [drop], s');
    actions := [unlock] + [drop];
  }

  lemma {:induction false} GiveAll(s: State, t: Tid) returns (actions: seq<Action>, s': State)
    requires Alone(s, t) && s.locks.callers[t].releasing
    ensures OnlyLocks(actions) && Reaches(s, actions, s') && s' == s.(locks := s'.locks)
    ensures Locks.Inv(s'.locks) && s'.locks.callers == map[]
    decreases s.locks.callers[t].held
  {
    if s.locks.callers[t].held == 0 {
      var finish := LockStep(Locks.Finish(t));
      Locks.ActInv(s.locks, Locks.Finish(t));
      OneStep(s, finish);
      actions, s' := [finish], Act(s, finish);
      assert s'.locks.callers.Keys == {};
    } else {
      var first, mid := GiveOne(s, t);
      var rest, end := GiveAll(mid, t);
      Chain(s, first, mid, rest, end);
      actions, s' := first + rest, end;
    }
  }

  lemma Leave(s: State, t: Tid) returns (actions: seq<Action>, s': State)
    requires Alone(s, t) && Inside(s, t) && forall w: Tid :: WorkOf(s, w).Free?
    ensures OnlyLocks(actions) && Reaches(s, actions, s') && s' == s.(locks := s'.locks) && Quiet(s')
  {
    var begin := LockStep(Locks.BeginRelease(t));
    Locks.ActInv(s.locks, Locks.BeginRelease(t));
    var mid := Act(s, begin);
    OneStep(s, begin);
    var rest, end := GiveAll(mid, t);
    Chain(s, [begin], mid, rest, end);
    actions, s' := [begin] + rest, end;
    assert forall w: Tid :: WorkOf(s', w) == WorkOf(s, w);
  }

  lemma LoadAndPublish(s: State, t: Tid, u: User) returns (actions: seq<Action>, s': State)
    requires Holds(s, t, u) && u in s.store && forall w: Tid :: WorkOf(s, w).Free?
    ensures Reaches(s, actions, s') && s'.locks == s.locks && s'.store == s.store && s'.cache == s.cache[u := s.store[u]]
    ensures forall w: Tid :: WorkOf(s', w).Free?
    ensures forall i | 0 <= i < |actions| :: !actions[i].Commit?
  {
    var load, publish := Load(t, u), Publish(t);
    var loaded := Act(s, load);
    s' := Act(loaded, publish);
    assert forall w: Tid | w != t :: WorkOf(s', w) == WorkOf(s, w);
    OneStep(s, load);
    OneStep(loaded, publish);
    hide Act, CanAct;
    Chain(s, [load], loaded, [publish], s');
    actions := [load] + [publish];
  }

  /** A reader alone brings a stored principal into the cache. */
  lemma Read(s: State, t: Tid, u: User) returns (actions: seq<Action>, s': State)
    requires Quiet(s) && u in s.store
    ensures Reaches(s, actions, s') && Quiet(s') && s'.store == s.store && s'.cache == s.cache[u := s.store[u]]
    ensures forall i | 0 <= i < |actions| :: !actions[i].Commit?
  {
    hide Locks.Inv, Reaches;
    var enter, held := Enter(s, t, false, [u]);
    assert u in [u] && u in held.locks.callers[t].ids;
    assert forall w: Tid :: WorkOf(held, w) == WorkOf(s, w);
    var work, read := LoadAndPublish(held, t, u);
    var leave, end := Leave(read, t);
    Chain(s, enter, held, work, read);
    Chain(s, enter + work, read, leave, end);
    actions, s' := enter + work + leave, end;
  }

  /** A mutation alone locks its list and commits. */
  lemma LockAndCommit(s: State, t: Tid, m: Mutation) returns (actions: seq<Action>, s': State)
    requires Quiet(s) && m.creates.Keys !! s.store.Keys
    ensures Reaches(s, actions, s') && Uses(actions, iset{m})
    ensures s'.store == Committed(s.store, m) && s'.cache == s.cache
    ensures Alone(s', t) && Inside(s', t) && s'.locks.callers[t].ids == Locks.SortCompact(m.locks)
    ensures WorkOf(s', t) == AfterDrop(m.drops) && forall w: Tid | w != t :: WorkOf(s', w).Free?
  {
    var enter, held := Enter(s, t, true, m.locks);
    assert forall w: Tid :: WorkOf(held, w) == WorkOf(s, w);
    var commit := Commit(t, m);
    s' := Act(held, commit);
    assert forall w: Tid | w != t :: WorkOf(s', w) == WorkOf(held, w);
    hide Locks.Inv, Reaches;
    OneStep(held, commit);
    Chain(s, enter, held, [commit], s');
    actions := enter + [commit];
  }

  lemma DropNext(s: State, t: Tid)
    requires CanAct(s, Drop(t)) && forall w: Tid | w != t :: WorkOf(s, w).Free?
    ensures
      var s', todo := Act(s, Drop(t)), WorkOf(s, t).todo;
      && s'.locks == s.locks && s'.store == s.store && s'.cache == s.cache - {todo[0]} && Reaches(s, [Drop(t)], s')
      && WorkOf(s', t) == AfterDrop(todo[1..]) && forall w: Tid | w != t :: WorkOf(s', w).Free?
  {
    assert forall w: Tid | w != t :: w in s.work ==> s.work[w] == WorkOf(s, w);
    OneStep(s, Drop(t));
    hide Reaches;
  }

  lemma {:induction false} DropAll(s: State, t: Tid, todo: seq<User>) returns (actions: seq<Action>, s': State)
    requires WorkOf(s, t) == AfterDrop(todo) && forall w: Tid | w != t :: WorkOf(s, w).Free?
    ensures Reaches(s, actions, s') && s'.locks == s.locks && s'.store == s.store && forall w: Tid :: WorkOf(s', w).Free?
    ensures forall i | 0 <= i < |actions| :: !actions[i].Commit?
    ensures forall x | x in s.cache && x !in todo :: x in s'.cache && s'.cache[x] == s.cache[x]
    decreases |todo|
  {
    if todo == [] {
      actions, s' := [], s;
    } else {
      DropNext(s, t);
      var mid := Act(s, Drop(t));
      hide Reaches, Act;
      var rest, end := DropAll(mid, t, todo[1..]);
      Chain(s, [Drop(t)], mid, rest, end);
      actions, s' := [Drop(t)] + rest, end;
    }
  }

  /** Some principal of u that the change does not leave in place. */
  function Victim(change: Option<Principal>): (p: Principal)
    ensures change != Some(p)
  {
    if change.Some? then change.value.(authVersion := change.value.authVersion + 1) else Principal({}, false, 0)
  }

  lemma Warm(u: User, before: Principal) returns (s: State, actions: seq<Action>, s': State)
    ensures Init(s) && s.store == map[u := before] && Reaches(s, actions, s') && Quiet(s')
    ensures s'.store == s.store && s'.cache == map[u := before] && forall i | 0 <= i < |actions| :: !actions[i].Commit?
  {
    s := State(Locks.State(Locks.Registry(map[], map[]), map[]), map[u := before], map[], map[], []);
    Locks.InitInv(s.locks);
    hide Locks.Inv, Reaches;
    actions, s' := Read(s, 0, u);
  }

  // The change is committed while nobody holds the user.
  lemma UnlockedGoesStale(warm: State, m: Mutation, u: User) returns (actions: seq<Action>, s': State)
    requires Quiet(warm) && warm.store.Keys == {u} && u in m.changes && u !in m.locks
    ensures Reaches(warm, actions, s') && Uses(actions, iset{m})
    ensures s'.cache == warm.cache && StoredOf(s', u) == m.changes[u] && !WriterHolds(s', u)
  {
    hide Locks.Inv, Reaches;
    actions, s' := LockAndCommit(warm, 0, m);
    assert u !in s'.locks.callers[0].ids;
  }

  // Everything is done and unlocked, and the entry is still there.
  lemma UndroppedGoesStale(warm: State, m: Mutation, u: User) returns (actions: seq<Action>, s': State)
    requires Quiet(warm) && warm.store.Keys == {u} && u in warm.cache && u in m.changes && u !in m.drops
    ensures Reaches(warm, actions, s') && Uses(actions, iset{m})
    ensures u in s'.cache && s'.cache[u] == warm.cache[u] && StoredOf(s', u) == m.changes[u] && !WriterHolds(s', u)
  {
    hide Locks.Inv, Reaches;
    var change, changed := LockAndCommit(warm, 0, m);
    hide Committed;
    var drops, dropped := DropAll(changed, 0, m.drops);
    var leave, end := Leave(dropped, 0);
    Chain(warm, change, changed, drops, dropped);
    Chain(warm, change + drops, dropped, leave, end);
    actions, s' := change + drops + leave, end;
    assert changed.store == s'.store;
  }

  /** A run of one read and one unguarded mutation that ends incoherent: the cache
      keeps what the transaction changed, and no writer holds the user. */
  lemma UnguardedGoesStale(m: Mutation, u: User, before: Principal) returns (s: State, actions: seq<Action>, s': State)
    requires u in m.changes && (u !in m.locks || u !in m.drops) && m.changes[u] != Some(before)
    ensures Init(s) && s.store == map[u := before]
    ensures Reaches(s, actions, s') && Uses(actions, iset{m})
    ensures u in s'.cache && s'.cache[u] == before && StoredOf(s', u) == m.changes[u] && !WriterHolds(s', u)
    ensures !Coherent(s')
  {
    hide Reaches, Init, Quiet, WriterHolds;
    var read, warm, rest;
    s, read, warm := Warm(u, before);
    if u !in m.locks {
      rest, s' := UnlockedGoesStale(warm, m, u);
    } else {
      rest, s' := UndroppedGoesStale(warm, m, u);
    }
    Chain(s, read, warm, rest, s');
    actions := read + rest;
    assert !Current(s', u, s'.cache[u]);
  }

  /** Every run over a set of mutations is coherent exactly when each of them locks
      and drops every existing user that it changes. */
  lemma CoherentIffGuarded(allowed: iset<Mutation>)
    ensures AllRunsCoherent(allowed) <==> forall m | m in allowed :: Guarded(m)
  {
    if forall m | m in allowed :: Guarded(m) {
      forall s, actions, s' | Init(s) && Reaches(s, actions, s') && Uses(actions, allowed) ensures Coherent(s') {
        EveryRunIsCoherent(s, actions, s', allowed);
      }
    } else {
      var m :| m in allowed && !Guarded(m);
      var u :| u in m.changes && (u !in m.locks || u !in m.drops);
      hide Reaches, Init, Coherent;
      var s, actions, s' := UnguardedGoesStale(m, u, Victim(m.changes[u]));
      assert Uses(actions, allowed);
    }
  }

  // ----- The mutations of the program -----

  /** A mutation through StateMutationRuntime.Run: the lock list is also the drop
      list, and the callers change only users on it. */
  predicate ThroughRuntime(m: Mutation) {
    m.drops == m.locks && forall u | u in m.changes :: u in m.locks
  }

  /** The direct account mutations and the binding mutations: actor and target are
      locked, the target is changed and dropped. */
  predicate OnTarget(m: Mutation) {
    |m.locks| == 2 && m.drops == m.locks[1..] && m.changes.Keys == {m.locks[1]} && m.creates == map[]
  }

  /** A channel or group delete: the rows bound to the scope go with it, whoever
      they belong to; nothing is dropped. */
  function ScopeDelete(locks: seq<User>, store: map<User, Principal>, scope: set<nat>): Mutation {
    Transaction(locks,
                map u | u in store && store[u].bindings * scope != {} :: Some(store[u].(bindings := store[u].bindings - scope)),
                map[], [])
  }

  /** Account and binding mutations, in any mixture and interleaving, keep the cache
      coherent in every run. */
  lemma AccountMutationsStayCoherent()
    ensures AllRunsCoherent(iset m: Mutation | ThroughRuntime(m) || OnTarget(m))
  {
    var allowed := iset m: Mutation | ThroughRuntime(m) || OnTarget(m);
    forall m | m in allowed ensures Guarded(m) {}
    CoherentIffGuarded(allowed);
  }

  /** A scope delete is guarded exactly when no user is bound to the scope, whatever
      it locks. */
  lemma ScopeDeleteGuardedIff(locks: seq<User>, store: map<User, Principal>, scope: set<nat>)
    ensures Guarded(ScopeDelete(locks, store, scope)) <==> forall u | u in store :: store[u].bindings * scope == {}
  {
    var m := ScopeDelete(locks, store, scope);
    if Guarded(m) {
      forall u | u in store ensures store[u].bindings * scope == {} {
        assert u !in m.changes;
      }
    }
  }

  /** Hence a server that ever deletes a scope with a bound user, along with whatever
      else it does, has an incoherent run. */
  lemma ScopeDeletesBreakCoherence(allowed: iset<Mutation>, locks: seq<User>, store: map<User, Principal>, scope: set<nat>, u: User)
    requires ScopeDelete(locks, store, scope) in allowed && u in store && store[u].bindings * scope != {}
    ensures !AllRunsCoherent(allowed)
  {
    ScopeDeleteGuardedIff(locks, store, scope);
    CoherentIffGuarded(allowed);
  }

  /** The smallest failing case: user 7 holds binding 3 on a channel, has been
      looked up, and user 1 deletes the channel. */
  lemma DeletedBindingStaysCached() returns (s: State, actions: seq<Action>, s': State)
    ensures s.store == map[7 := Principal({3}, false, 1)] && Init(s)
    ensures Reaches(s, actions, s') && Uses(actions, iset{ScopeDelete([1], s.store, {3})})
    ensures 7 in s'.cache && s'.cache[7].bindings == {3} && 7 in s'.store && s'.store[7].bindings == {}
    ensures !WriterHolds(s', 7) && !Coherent(s')
  {
    var before := Principal({3}, false, 1);
    var store := map[7 := before];
    var m := ScopeDelete([1], store, {3});
    assert before.bindings * {3} == {3} && before.bindings - {3} == {};
    assert store[7] == before && 7 in m.changes;
    hide Reaches, Init, Coherent, WriterHolds;
    s, actions, s' := UnguardedGoesStale(m, 7, before);
  }
}
