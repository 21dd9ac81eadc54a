/** The refcounted registry of per-user locks, and its callers.

A caller retains the lock object of a user, then blocks on it, then holds it; it
releases in reverse order.  A mutation takes several users in ascending order, a
reader takes one.  Lock objects are fresh references; `refs` counts holders and
waiters, and the entry goes with the last of them. */
module PrincipalLocks {

  type User = int
  type Ref = nat
  type Tid = nat

  // ----- Sorting and deduplicating the users of a mutation -----

  ghost predicate Ascending(ids: seq<User>) {
    forall i, j | 0 <= i < j < |ids| :: ids[i] < ids[j]
  }

  function InsertAscending(ids: seq<User>, u: User): (r: seq<User>)
    requires Ascending(ids)
    ensures Ascending(r)
    ensures forall x :: x in r <==> x in ids || x == u
  {
    if ids == [] then [u]
    else if u < ids[0] then
      assert forall x :: x in [u] + ids <==> x == u || x in ids;
      [u] + ids
    else if u == ids[0] then ids
    else
      assert ids == [ids[0]] + ids[1..];
      var rest := InsertAscending(ids[1..], u);
      assert forall x | x in rest :: ids[0] < x;
      assert forall i | 0 <= i < |rest| :: rest[i] in rest;
      [ids[0]] + rest
  }

  function SortCompact(ids: seq<User>): (r: seq<User>)
    ensures Ascending(r)
    ensures forall x :: x in r <==> x in ids
  {
    if ids == [] then []
    else
      assert ids == [ids[0]] + ids[1..];
      InsertAscending(SortCompact(ids[1..]), ids[0])
  }

  // ----- The registry -----

  datatype Registry = Registry(users: map<User, Ref>, refs: map<Ref, nat>)

  /** acquire: retains the user's lock, creating it when there is none. */
  function Retain(r: Registry, u: User, fresh': Ref): (Registry, Ref) {
    var ref := if u in r.users then r.users[u] else fresh';
    var count := if u in r.users && ref in r.refs then r.refs[ref] else 0;
    (Registry(r.users[u := ref], r.refs[ref := count + 1]), ref)
  }

  /** release: drops one reference and the entry with the last one. */
  function Drop(r: Registry, u: User, ref: Ref): Registry
    requires ref in r.refs && r.refs[ref] > 0
  {
    if r.refs[ref] == 1 then Registry(r.users - {u}, r.refs - {ref})
    else r.(refs := r.refs[ref := r.refs[ref] - 1])
  }

  class LockRegistry {
    var users: map<User, Ref>
    var refs: map<Ref, nat>

    ghost function View(): Registry
      reads this
    {
      Registry(users, refs)
    }

    constructor ()
      ensures View() == Registry(map[], map[])
    {
      users, refs := map[], map[];
    }

    method Acquire(u: User, fresh': Ref) returns (ref: Ref)
      requires fresh' !in refs
      requires forall v | v in users :: users[v] in refs
      modifies this
      ensures (View(), ref) == Retain(old(View()), u, fresh')
    {
      if u in users {
        ref := users[u];
      } else {
        ref := fresh';
        users := users[u := ref];
        refs := refs[ref := 0];
      }
      refs := refs[ref := refs[ref] + 1];
      assert users == old(users)[u := ref];
      assert refs == old(refs)[ref := refs[ref]];
    }

    method Release(u: User, ref: Ref)
      requires ref in refs && refs[ref] > 0
      modifies this
      ensures View() == Drop(old(View()), u, ref)
    {
      refs := refs[ref := refs[ref] - 1];
      if refs[ref] == 0 {
        users := users - {u};
        refs := refs - {ref};
        assert refs == old(refs) - {ref};
      }
    }
  }

  // ----- Callers -----

  /** A caller holds the locks of ids[..held] and has retained refs, at most one
      more than it holds. */
  datatype Caller = Caller(write: bool, ids: seq<User>, refs: seq<Ref>, held: nat, releasing: bool)

  datatype State = State(registry: Registry, callers: map<Tid, Caller>)

  ghost predicate WellFormed(c: Caller) {
    && Ascending(c.ids)
    && c.held <= |c.refs| <= |c.ids|
    && |c.refs| <= c.held + 1
    && (!c.write ==> |c.ids| == 1)
  }

  // The position of the lock a caller is blocked on.
  ghost predicate WaitsAt(c: Caller, i: nat) {
    !c.releasing && |c.refs| == c.held + 1 && i == c.held
  }

  ghost predicate HoldsRef(c: Caller, ref: Ref) {
    c.held <= |c.refs| && ref in c.refs[..c.held]
  }

  ghost predicate Holds(s: State, t: Tid, u: User) {
    t in s.callers && s.callers[t].held <= |s.callers[t].ids| && u in s.callers[t].ids[..s.callers[t].held]
  }

  datatype Action =
    | Begin(t: Tid, write: bool, users: seq<User>)
    | RetainNext(t: Tid, fresh': Ref)
    | LockNext(t: Tid)
    | BeginRelease(t: Tid)
    | UnlockLast(t: Tid)
    | DropLast(t: Tid)
    | Finish(t: Tid)

  /** A writer needs the lock to itself; a reader shares it with readers, but also
      waits for a writer that is already waiting. */
  ghost predicate Available(s: State, t: Tid, ref: Ref, write: bool) {
    forall t' | t' in s.callers && t' != t ::
      && (HoldsRef(s.callers[t'], ref) ==> !write && !s.callers[t'].write)
      && (!write ==> !WaitsForWrite(s.callers[t'], ref))
  }

  ghost predicate WaitsForWrite(c: Caller, ref: Ref) {
    c.write && !c.releasing && |c.refs| == c.held + 1 && c.refs[c.held] == ref
  }

  ghost predicate CanAct(s: State, a: Action) {
    match a
    case Begin(t, write, users) => t !in s.callers && (write || |users| == 1)
    case RetainNext(t, fresh') =>
      && t in s.callers && fresh' !in s.registry.refs
      && var c := s.callers[t]; !c.releasing && |c.refs| == c.held < |c.ids|
    case LockNext(t) =>
      t in s.callers && var c := s.callers[t]; WaitsAt(c, c.held) && Available(s, t, c.refs[c.held], c.write)
    case BeginRelease(t) => t in s.callers && var c := s.callers[t]; !c.releasing && c.held == |c.refs| == |c.ids|
    case UnlockLast(t) => t in s.callers && var c := s.callers[t]; c.releasing && 0 < c.held == |c.refs| <= |c.ids|
    case DropLast(t) =>
      && t in s.callers
      && var c := s.callers[t];
         && c.releasing && |c.refs| == c.held + 1 <= |c.ids|
         && c.refs[c.held] in s.registry.refs && s.registry.refs[c.refs[c.held]] > 0
    case Finish(t) => t in s.callers && var c := s.callers[t]; c.releasing && c.refs == []
  }

  ghost function Act(s: State, a: Action): State
    requires CanAct(s, a)
  {
    match a
    case Begin(t, write, users) => s.(callers := s.callers[t := Caller(write, SortCompact(users), [], 0, false)])
    case RetainNext(t, fresh') =>
      var c := s.callers[t];
      var (r, ref) := Retain(s.registry, c.ids[c.held], fresh');
      State(r, s.callers[t := c.(refs := c.refs + [ref])])
    case LockNext(t) => s.(callers := s.callers[t := s.callers[t].(held := s.callers[t].held + 1)])
    case BeginRelease(t) => s.(callers := s.callers[t := s.callers[t].(releasing := true)])
    case UnlockLast(t) => s.(callers := s.callers[t := s.callers[t].(held := s.callers[t].held - 1)])
    case DropLast(t) =>
      var c := s.callers[t];
      State(Drop(s.registry, c.ids[c.held], c.refs[c.held]), s.callers[t := c.(refs := c.refs[..c.held])])
    case Finish(t) => s.(callers := s.callers - {t})
  }

  // ----- Invariant -----

  ghost function Users(s: State, ref: Ref): set<Tid> {
    set t | t in s.callers && ref in s.callers[t].refs
  }

  // Every retained lock is its user's current one, and distinct users have
  // distinct locks.
  ghost predicate OneLockAUser(s: State) {
    && (forall t, i | t in s.callers && 0 <= i < |s.callers[t].refs| && i < |s.callers[t].ids| ::
          s.callers[t].ids[i] in s.registry.users && s.registry.users[s.callers[t].ids[i]] == s.callers[t].refs[i])
    && (forall u, v | u in s.registry.users && v in s.registry.users && u != v ::
          s.registry.users[u] != s.registry.users[v])
  }

  // A lock is counted once for each caller that retains it, and no idle one stays.
  ghost predicate Counted(s: State) {
    && (forall u | u in s.registry.users :: s.registry.users[u] in s.registry.refs)
    && (forall ref | ref in s.registry.refs :: s.registry.refs[ref] == |Users(s, ref)| && s.registry.refs[ref] > 0)
  }

  ghost predicate Exclusive(s: State) {
    forall t, t', ref | t in s.callers && t' in s.callers && t != t'
                        && HoldsRef(s.callers[t], ref) && HoldsRef(s.callers[t'], ref) ::
      !s.callers[t].write && !s.callers[t'].write
  }

  ghost predicate Inv(s: State) {
    && AllWellFormed(s)
    && OneLockAUser(s) && Counted(s) && Exclusive(s)
  }

  ghost predicate Init(s: State) {
    s == State(Registry(map[], map[]), map[])
  }

  lemma UsersAfter(s: State, s': State, t: Tid, ref: Ref)
    requires t in s.callers && t in s'.callers && s'.callers == s.callers[t := s'.callers[t]]
    requires ref in s'.callers[t].refs <==> ref in s.callers[t].refs
    ensures Users(s', ref) == Users(s, ref)
  {}

  // A step of one caller that leaves what it holds alone.
  lemma ExclusiveKept(s: State, s': State, t: Tid)
    requires Exclusive(s) && t in s.callers && t in s'.callers && s'.callers == s.callers[t := s'.callers[t]]
    requires s'.callers[t].write == s.callers[t].write
    requires forall ref: Ref :: HoldsRef(s'.callers[t], ref) ==> HoldsRef(s.callers[t], ref)
    ensures Exclusive(s')
  {}

  lemma BeginInv(s: State, t: Tid, write: bool, users: seq<User>)
    requires Inv(s) && CanAct(s, Begin(t, write, users))
    ensures Inv(Act(s, Begin(t, write, users)))
  {
    var s' := Act(s, Begin(t, write, users));
    var c := s'.callers[t];
    if !write {
      SingleSorted(users);
    }
    forall ref ensures Users(s', ref) == Users(s, ref) {}
  }

  lemma SingleSorted(users: seq<User>)
    requires |users| == 1
    ensures SortCompact(users) == [users[0]]
  {
    assert users == [users[0]] + users[1..];
    assert users[1..] == [];
    assert SortCompact([]) == [];
  }

  ghost predicate AllWellFormed(s: State) {
    forall t | t in s.callers :: WellFormed(s.callers[t])
  }

  lemma RetainOneLock(s: State, t: Tid, fresh': Ref)
    requires AllWellFormed(s) && OneLockAUser(s) && CanAct(s, RetainNext(t, fresh'))
    requires forall u | u in s.registry.users :: s.registry.users[u] in s.registry.refs
    ensures OneLockAUser(Act(s, RetainNext(t, fresh')))
  {
    var s' := Act(s, RetainNext(t, fresh'));
    var c := s.callers[t];
    forall x, i | x in s'.callers && 0 <= i < |s'.callers[x].refs| && i < |s'.callers[x].ids|
      ensures s'.callers[x].ids[i] in s'.registry.users
      ensures s'.registry.users[s'.callers[x].ids[i]] == s'.callers[x].refs[i]
    {
      if x != t || i < |c.refs| {
        assert s'.callers[x].refs[i] == s.callers[x].refs[i];
      }
    }
  }

  lemma RetainUsers(s: State, t: Tid, fresh': Ref)
    requires AllWellFormed(s) && OneLockAUser(s) && Counted(s) && CanAct(s, RetainNext(t, fresh'))
    ensures
      var s' := Act(s, RetainNext(t, fresh'));
      var ref := Retain(s.registry, s.callers[t].ids[s.callers[t].held], fresh').1;
      && t !in Users(s, ref) && Users(s', ref) == Users(s, ref) + {t}
      && forall r: Ref | r != ref :: Users(s', r) == Users(s, r)
  {
    var s' := Act(s, RetainNext(t, fresh'));
    var c := s.callers[t];
    var u := c.ids[c.held];
    var ref := Retain(s.registry, u, fresh').1;
    forall i | 0 <= i < |c.refs| ensures c.refs[i] != ref {
      assert c.ids[i] in s.registry.users && s.registry.users[c.ids[i]] == c.refs[i];
      assert c.ids[i] < u;
    }
    assert Users(s', ref) == Users(s, ref) + {t};
    forall r: Ref | r != ref ensures Users(s', r) == Users(s, r) {
      UsersAfter(s, s', t, r);
    }
  }

  lemma RetainCounted(s: State, t: Tid, fresh': Ref)
    requires AllWellFormed(s) && OneLockAUser(s) && Counted(s) && CanAct(s, RetainNext(t, fresh'))
    ensures Counted(Act(s, RetainNext(t, fresh')))
  {
    var u := s.callers[t].ids[s.callers[t].held];
    var ref := Retain(s.registry, u, fresh').1;
    RetainUsers(s, t, fresh');
    if u !in s.registry.users {
      UnregisteredUnused(s, ref);
    }
    hide Users, OneLockAUser;
  }

  lemma RetainedCounted(s: State, t: Tid, i: nat)
    requires AllWellFormed(s) && OneLockAUser(s) && Counted(s) && t in s.callers && i < |s.callers[t].refs|
    ensures s.callers[t].ids[i] in s.registry.users && s.registry.users[s.callers[t].ids[i]] == s.callers[t].refs[i]
    ensures s.callers[t].refs[i] in s.registry.refs && s.registry.refs[s.callers[t].refs[i]] > 0
  {
    var u, ref := s.callers[t].ids[i], s.callers[t].refs[i];
    assert u in s.registry.users && s.registry.users[u] == ref;
    assert s.registry.users[u] in s.registry.refs;
    assert ref in s.registry.refs;
  }

  lemma UnregisteredUnused(s: State, ref: Ref)
    requires AllWellFormed(s) && OneLockAUser(s) && Counted(s) && ref !in s.registry.refs
    ensures Users(s, ref) == {}
  {
    forall x, i | x in s.callers && 0 <= i < |s.callers[x].refs| ensures s.callers[x].refs[i] != ref {
      RetainedCounted(s, x, i);
    }
  }

  lemma RetainInv(s: State, t: Tid, fresh': Ref)
    requires Inv(s) && CanAct(s, RetainNext(t, fresh'))
    ensures Inv(Act(s, RetainNext(t, fresh')))
  {
    var s' := Act(s, RetainNext(t, fresh'));
    var c := s.callers[t];
    RetainOneLock(s, t, fresh');
    RetainCounted(s, t, fresh');
    hide OneLockAUser, Counted;
    assert s'.callers[t].refs[..c.held] == c.refs[..c.held];
    ExclusiveKept(s, s', t);
    hide Exclusive;
  }

  lemma DropOneLock(s: State, t: Tid)
    requires AllWellFormed(s) && OneLockAUser(s) && Counted(s) && CanAct(s, DropLast(t))
    requires var c := s.callers[t]; Users(Act(s, DropLast(t)), c.refs[c.held]) == Users(s, c.refs[c.held]) - {t}
    ensures OneLockAUser(Act(s, DropLast(t)))
  {
    var s' := Act(s, DropLast(t));
    var c := s.callers[t];
    var u, ref := c.ids[c.held], c.refs[c.held];
    assert t in Users(s, ref);
    RetainedCounted(s, t, c.held);
    assert s.registry.refs[ref] == |Users(s, ref)|;
    assert |Users(s, ref) - {t}| == |Users(s, ref)| - 1;
    forall x, i | x in s'.callers && 0 <= i < |s'.callers[x].refs| && i < |s'.callers[x].ids|
      ensures s'.callers[x].ids[i] in s'.registry.users
      ensures s'.registry.users[s'.callers[x].ids[i]] == s'.callers[x].refs[i]
    {
      assert s'.callers[x].refs[i] == s.callers[x].refs[i];
      RetainedCounted(s, x, i);
      RetainedCounted(s, t, c.held);
      assert s'.callers[x].refs[i] == ref ==> x in Users(s', ref);
    }
  }

  lemma DropUsers(s: State, t: Tid)
    requires AllWellFormed(s) && OneLockAUser(s) && CanAct(s, DropLast(t))
    ensures
      var s', ref := Act(s, DropLast(t)), s.callers[t].refs[s.callers[t].held];
      && t in Users(s, ref) && Users(s', ref) == Users(s, ref) - {t}
      && forall r: Ref | r != ref :: Users(s', r) == Users(s, r)
  {
    var s' := Act(s, DropLast(t));
    var c := s.callers[t];
    var u, ref := c.ids[c.held], c.refs[c.held];
    assert c.refs == c.refs[..c.held] + [ref];
    var last := c.held;
    assert s.registry.users[c.ids[last]] == c.refs[last];
    forall i | 0 <= i < c.held ensures c.refs[i] != ref {
      assert s.registry.users[c.ids[i]] == c.refs[i];
      assert c.ids[i] < u;
    }
    forall r: Ref | r != ref ensures Users(s', r) == Users(s, r) {
      UsersAfter(s, s', t, r);
    }
  }

  lemma DropInv(s: State, t: Tid)
    requires Inv(s) && CanAct(s, DropLast(t))
    ensures Inv(Act(s, DropLast(t)))
  {
    var s' := Act(s, DropLast(t));
    var c := s.callers[t];
    DropUsers(s, t);
    DropOneLock(s, t);
    DropCounted(s, t);
    hide OneLockAUser, Counted, Users;
    assert s'.callers[t].refs[..c.held] == c.refs[..c.held];
    ExclusiveKept(s, s', t);
    hide Exclusive;
  }

  lemma DropCounted(s: State, t: Tid)
    requires AllWellFormed(s) && OneLockAUser(s) && Counted(s) && CanAct(s, DropLast(t))
    ensures Counted(Act(s, DropLast(t)))
  {
    DropUsers(s, t);
    RetainedCounted(s, t, s.callers[t].held);
    hide Users, WellFormed;
  }

  lemma HoldInv(s: State, a: Action)
    requires Inv(s) && CanAct(s, a) && (a.LockNext? || a.BeginRelease? || a.UnlockLast?)
    ensures Inv(Act(s, a))
  {
    var s' := Act(s, a);
    var c := s.callers[a.t];
    HoldCounted(s, s', a.t);
    HoldExclusive(s, a);
    hide Counted, OneLockAUser, Users, Exclusive, Available;
    assert AllWellFormed(s');
  }

  lemma HoldExclusive(s: State, a: Action)
    requires Exclusive(s) && AllWellFormed(s)
    requires CanAct(s, a) && (a.LockNext? || a.BeginRelease? || a.UnlockLast?)
    ensures Exclusive(Act(s, a))
  {
    var s' := Act(s, a);
    var c := s.callers[a.t];
    hide Exclusive;
    if a.LockNext? {
      var want := c.refs[c.held];
      assert c.refs[..c.held + 1] == c.refs[..c.held] + [want];
      assert forall ref: Ref :: HoldsRef(s'.callers[a.t], ref) <==> HoldsRef(c, ref) || ref == want;
      LockExclusive(s, s', a.t, want);
    } else {
      if a.UnlockLast? {
        assert c.refs[..c.held] == c.refs[..c.held - 1] + [c.refs[c.held - 1]];
      }
      ExclusiveKept(s, s', a.t);
    }
  }

  lemma HoldCounted(s: State, s': State, t: Tid)
    requires OneLockAUser(s) && Counted(s) && t in s.callers && t in s'.callers
    requires s' == s.(callers := s.callers[t := s'.callers[t]])
    requires s'.callers[t].refs == s.callers[t].refs && s'.callers[t].ids == s.callers[t].ids
    ensures OneLockAUser(s') && Counted(s')
  {
    forall ref: Ref ensures Users(s', ref) == Users(s, ref) {
      UsersAfter(s, s', t, ref);
    }
    assert Counted(s') by {
      hide Users, OneLockAUser;
    }
    hide Counted, Users;
  }

  lemma LockExclusive(s: State, s': State, t: Tid, want: Ref)
    requires Exclusive(s) && t in s.callers && t in s'.callers && s'.callers == s.callers[t := s'.callers[t]]
    requires s'.callers[t].write == s.callers[t].write && Available(s, t, want, s.callers[t].write)
    requires forall ref: Ref :: HoldsRef(s'.callers[t], ref) <==> HoldsRef(s.callers[t], ref) || ref == want
    ensures Exclusive(s')
  {
    hide HoldsRef;
  }

  lemma FinishInv(s: State, t: Tid)
    requires Inv(s) && CanAct(s, Finish(t))
    ensures Inv(Act(s, Finish(t)))
  {
    forall ref ensures Users(Act(s, Finish(t)), ref) == Users(s, ref) {}
  }

  lemma ActInv(s: State, a: Action)
    requires Inv(s) && CanAct(s, a)
    ensures Inv(Act(s, a))
  {
    match a
    case Begin(t, write, users) => BeginInv(s, t, write, users);
    case RetainNext(t, fresh') => RetainInv(s, t, fresh');
    case DropLast(t) => DropInv(s, t);
    case Finish(t) => FinishInv(s, t);
    case _ => HoldInv(s, a);
  }

  // ----- Promises -----

  /** Two callers that hold one user hold one lock object, and if they are two then
      both are readers. */
  lemma HoldersShareOneLock(s: State, t: Tid, t': Tid, u: User, i: nat, j: nat)
    requires Inv(s) && t in s.callers && t' in s.callers
    requires i < s.callers[t].held && s.callers[t].ids[i] == u
    requires j < s.callers[t'].held && s.callers[t'].ids[j] == u
    ensures s.callers[t].refs[i] == s.callers[t'].refs[j]
    ensures t != t' ==> !s.callers[t].write && !s.callers[t'].write
  {
    var ref := s.callers[t].refs[i];
    assert s.callers[t].refs[..s.callers[t].held][i] == ref;
    assert s.callers[t'].refs[..s.callers[t'].held][j] == ref;
    assert HoldsRef(s.callers[t], ref) && HoldsRef(s.callers[t'], ref);
  }

  lemma MutualExclusion(s: State, t: Tid, t': Tid, u: User)
    requires Inv(s) && t != t' && Holds(s, t, u) && Holds(s, t', u)
    ensures !s.callers[t].write && !s.callers[t'].write
  {
    var i :| 0 <= i < s.callers[t].held && s.callers[t].ids[i] == u;
    var j :| 0 <= j < s.callers[t'].held && s.callers[t'].ids[j] == u;
    HoldersShareOneLock(s, t, t', u, i, j);
  }

  // A step of a caller that is already running.
  ghost predicate CanStep(s: State, t: Tid) {
    || (exists f: Ref :: CanAct(s, RetainNext(t, f)))
    || CanAct(s, LockNext(t)) || CanAct(s, BeginRelease(t)) || CanAct(s, UnlockLast(t))
    || CanAct(s, DropLast(t)) || CanAct(s, Finish(t))
  }

  ghost predicate Waiting(s: State, t: Tid) {
    t in s.callers && WaitsAt(s.callers[t], s.callers[t].held)
  }

  ghost function WaitingUser(s: State, t: Tid): User
    requires Inv(s) && Waiting(s, t)
  {
    s.callers[t].ids[s.callers[t].held]
  }

  lemma {:induction false} FreshRef(refs: set<Ref>) returns (f: Ref)
    ensures f !in refs && forall r | r in refs :: r < f
  {
    if refs == {} {
      f := 0;
    } else {
      var r :| r in refs;
      var g := FreshRef(refs - {r});
      assert forall x | x in refs :: x == r || x in refs - {r};
      f := if g <= r then r + 1 else g;
    }
  }

  lemma NotWaitingSteps(s: State, t: Tid)
    requires Inv(s) && t in s.callers && !Waiting(s, t)
    ensures CanStep(s, t)
  {
    var c := s.callers[t];
    if c.releasing {
      if c.refs != [] && |c.refs| == c.held + 1 {
        RetainedCounted(s, t, c.held);
        assert CanAct(s, DropLast(t));
      }
    } else if |c.refs| < |c.ids| {
      var f := FreshRef(s.registry.refs.Keys);
      assert CanAct(s, RetainNext(t, f));
    }
  }

  // The waiting caller with the greatest user.
  lemma {:induction false} HighestWaiter(s: State, ts: set<Tid>) returns (t: Tid)
    requires Inv(s) && ts != {} && forall x | x in ts :: Waiting(s, x)
    ensures t in ts && forall x | x in ts :: WaitingUser(s, x) <= WaitingUser(s, t)
    decreases |ts|
  {
    var x :| x in ts;
    var rest := ts - {x};
    t := x;
    if rest != {} {
      var y := HighestWaiter(s, rest);
      if WaitingUser(s, y) > WaitingUser(s, x) {
        t := y;
      }
    }
  }

  // Whoever holds the user that the highest waiter wants is not waiting.
  lemma HolderOfHighestSteps(s: State, t: Tid, h: Tid)
    requires Inv(s) && Waiting(s, t) && h in s.callers
    requires HoldsRef(s.callers[h], s.callers[t].refs[s.callers[t].held])
    requires forall x | Waiting(s, x) :: WaitingUser(s, x) <= WaitingUser(s, t)
    ensures CanStep(s, h)
  {
    var c, d := s.callers[t], s.callers[h];
    var ref := c.refs[c.held];
    var i :| 0 <= i < d.held && d.refs[i] == ref;
    assert s.registry.users[d.ids[i]] == ref && s.registry.users[c.ids[c.held]] == ref;
    assert d.ids[i] == WaitingUser(s, t);
    assert forall j | i < j < |d.ids| :: d.ids[i] < d.ids[j];
    if Waiting(s, h) {
      assert false;
    }
    NotWaitingSteps(s, h);
  }

  /** No deadlock: while any caller runs, some running caller can step, whatever
      mixture of mutations over several users and readers is under way. */
  lemma NoDeadlock(s: State, t0: Tid)
    requires Inv(s) && t0 in s.callers
    ensures exists t :: t in s.callers && CanStep(s, t)
  {
    var waiters := set t | t in s.callers && Waiting(s, t);
    if waiters == {} {
      assert t0 !in waiters;
      NotWaitingSteps(s, t0);
    } else {
      var t := HighestWaiter(s, waiters);
      var ref := s.callers[t].refs[s.callers[t].held];
      if h :| h in s.callers && HoldsRef(s.callers[h], ref) {
        HolderOfHighestSteps(s, t, h);
      } else if w :| w in s.callers && WaitsForWrite(s.callers[w], ref) {
        assert CanAct(s, LockNext(w));
      } else {
        assert CanAct(s, LockNext(t));
      }
    }
  }

  ghost predicate Reaches(s: State, actions: seq<Action>, s': State)
    decreases |actions|
  {
    if actions == [] then s' == s
    else CanAct(s, actions[0]) && Reaches(Act(s, actions[0]), actions[1..], s')
  }

  /** Both promises hold in every reachable state. */
  lemma {:induction false} ReachesInv(s: State, actions: seq<Action>, s': State)
    requires Inv(s) && Reaches(s, actions, s')
    ensures Inv(s')
    ensures s'.callers != map[] ==> exists t :: t in s'.callers && CanStep(s', t)
    decreases |actions|
  {
    if actions == [] {
      if s'.callers != map[] {
        var t0 :| t0 in s'.callers;
        NoDeadlock(s', t0);
      }
    } else {
      ActInv(s, actions[0]);
      hide Inv, Act, CanStep;
      ReachesInv(Act(s, actions[0]), actions[1..], s');
    }
  }

  lemma InitInv(s: State)
    requires Init(s)
    ensures Inv(s)
  {}

  /** In every reachable state: two holders of a user hold one lock object, a writer
      holds its users alone, and some running caller can step. */
  lemma EveryRunLocksSafely(s0: State, actions: seq<Action>, s: State)
    requires Init(s0) && Reaches(s0, actions, s)
    ensures forall t, t', i, j | t in s.callers && t' in s.callers && 0 <= i < s.callers[t].held && 0 <= j < s.callers[t'].held ::
      SafePair(s, t, t', i, j)
    ensures s.callers != map[] ==> exists t :: t in s.callers && CanStep(s, t)
  {
    InitInv(s0);
    ReachesInv(s0, actions, s);
    hide Reaches, Init, CanStep;
    forall t, t', i, j | t in s.callers && t' in s.callers && 0 <= i < s.callers[t].held && 0 <= j < s.callers[t'].held
      ensures SafePair(s, t, t', i, j)
    {
      if s.callers[t].ids[i] == s.callers[t'].ids[j] {
        HoldersShareOneLock(s, t, t', s.callers[t].ids[i], i, j);
      }
    }
  }

  // If t and t' hold the same user at i and j, they hold one lock object and share it only as readers.
  ghost predicate SafePair(s: State, t: Tid, t': Tid, i: int, j: int)
    requires t in s.callers && t' in s.callers
  {
    var c, d := s.callers[t], s.callers[t'];
    && 0 <= i < |c.ids| && i < |c.refs| && 0 <= j < |d.ids| && j < |d.refs|
    && (c.ids[i] == d.ids[j] ==> c.refs[i] == d.refs[j] && (t != t' ==> !c.write && !d.write))
  }
}

