/** How long cached values live, over every interleaving: an entry serves from the
moment it was stored for one lifetime, or for ever when no lifetime is set. */
module CacheTimes {
  import opened Wrappers
  import opened Cache
  import opened CacheRuns

  /** The entry expires one lifetime after its value was stored. */
  ghost predicate InDate(cfg: Config, e: Entry) {
    LastsFrom(cfg, e, e.value.storedAt)
  }

  ghost predicate EntriesInDate(cfg: Config, c: Store) {
    forall k | k in c.entries :: InDate(cfg, c.entries[k])
  }

  ghost predicate ReadsInDate(cfg: Config, s: State) {
    forall t: Tid | PcOf(s, t).Checking? :: InDate(cfg, PcOf(s, t).entry)
  }

  /** Whatever was served from the cache had been stored less than a lifetime before. */
  ghost predicate HitsInTime(cfg: Config, s: State) {
    forall i | 0 <= i < |s.answers| && s.answers[i].hit.Some? ::
      cfg.ttl > 0 ==> s.answers[i].hit.value < s.answers[i].value.storedAt + cfg.ttl
  }

  ghost predicate Timed(cfg: Config, s: State) {
    EntriesInDate(cfg, s.store) && ReadsInDate(cfg, s) && HitsInTime(cfg, s)
  }

  // A step after which no thread reads anything it did not read before.
  lemma StoreTimed(cfg: Config, s: State, s': State)
    requires Timed(cfg, s) && EntriesInDate(cfg, s'.store) && s'.answers == s.answers
    requires forall t: Tid | PcOf(s', t).Checking? :: PcOf(s', t) == PcOf(s, t)
    ensures Timed(cfg, s')
  {
    hide EntriesInDate, InDate;
  }

  lemma SetTimed(cfg: Config, s: State, k: Key, data: int, now: int)
    requires Valid(cfg, s.store) && Timed(cfg, s) && CanAct(s, SetAct(k, data, now))
    ensures Timed(cfg, Act(cfg, s, SetAct(k, data, now)))
  {
    SetValid(cfg, s.store, k, Value(data, s.clock, now), now);
    hide Valid, Cache.Set, LastsFrom;
    StoreTimed(cfg, s, Act(cfg, s, SetAct(k, data, now)));
  }

  lemma LoaderTimed(cfg: Config, s: State, t: Tid, data: Option<int>, now: int)
    requires Valid(cfg, s.store) && Timed(cfg, s) && CanAct(s, LoaderReturns(t, data, now))
    ensures Timed(cfg, Act(cfg, s, LoaderReturns(t, data, now)))
  {
    var id := PcOf(s, t).id;
    var result := if data.Some? then Some(Value(data.value, s.store.calls[id].started, now)) else None;
    CompleteKeeps(cfg, s.store, id, result, now);
    hide Valid, Complete, LastsFrom;
    var s' := Act(cfg, s, LoaderReturns(t, data, now));
    assert forall u: Tid | u != t :: PcOf(s', u) == PcOf(s, u);
    StoreTimed(cfg, s, s');
  }

  lemma DropsTimed(cfg: Config, s: State, a: Action)
    requires Valid(cfg, s.store) && Timed(cfg, s) && CanAct(s, a)
    requires a.DeleteAct? || a.ClearAct? || a.ExpireAct? || a.GetPurge? || a.LoadRegister?
    ensures Timed(cfg, Act(cfg, s, a))
  {
    match a {
      case DeleteAct(k) => DeleteValid(cfg, s.store, k);
      case ExpireAct(now) => PurgeExpiredValid(cfg, s.store, now);
      case GetPurge(t, now) => RecheckValid(cfg, s.store, PcOf(s, t).key, now);
      case _ =>
    }
    var s' := Act(cfg, s, a);
    assert forall k | k in s'.store.entries :: k in s.store.entries && s'.store.entries[k] == s.store.entries[k];
    hide Valid, LastsFrom, Delete, Clear, PurgeExpired, Recheck, Register;
    assert a.GetPurge? || a.LoadRegister? ==> forall u: Tid | u != a.t :: PcOf(s', u) == PcOf(s, u);
    StoreTimed(cfg, s, s');
  }

  lemma ReadTimed(cfg: Config, s: State, a: Action)
    requires Timed(cfg, s) && CanAct(s, a)
    requires a.GetRead? || a.GetCheck? || a.LoadLock? || a.LoadRead? || a.Collect? || a.Cancel?
    ensures Timed(cfg, Act(cfg, s, a))
  {
    var s' := Act(cfg, s, a);
    assert s'.store == s.store;
    assert forall u: Tid | u != a.t :: PcOf(s', u) == PcOf(s, u);
  }

  lemma ActTimed(cfg: Config, s: State, a: Action)
    requires Valid(cfg, s.store) && Timed(cfg, s) && CanAct(s, a)
    ensures Timed(cfg, Act(cfg, s, a))
  {
    hide Timed, Valid, Act;
    match a
    case SetAct(k, data, now) => SetTimed(cfg, s, k, data, now);
    case LoaderReturns(t, data, now) => LoaderTimed(cfg, s, t, data, now);
    case DeleteAct(_) => DropsTimed(cfg, s, a);
    case ClearAct => DropsTimed(cfg, s, a);
    case ExpireAct(_) => DropsTimed(cfg, s, a);
    case GetPurge(_, _) => DropsTimed(cfg, s, a);
    case LoadRegister(_, _) => DropsTimed(cfg, s, a);
    case _ => ReadTimed(cfg, s, a);
  }

  lemma {:induction false} ReachesTimed(cfg: Config, s: State, actions: seq<Action>, s': State)
    requires Inv(cfg, s) && Timed(cfg, s) && Reaches(cfg, s, actions, s')
    ensures Inv(cfg, s') && Timed(cfg, s')
    decreases |actions|
  {
    if actions != [] {
      ActInv(cfg, s, actions[0]);
      ActTimed(cfg, s, actions[0]);
      hide Inv, Timed, Act, CanAct;
      ReachesTimed(cfg, Act(cfg, s, actions[0]), actions[1..], s');
    }
  }

  /** In every reachable state: what was served from the cache was stored less than a
      lifetime before; a purge drops exactly the entries stored a lifetime or more ago;
      and without a lifetime no entry is ever dropped by time. */
  lemma EveryRunKeepsTime(cfg: Config, s0: State, actions: seq<Action>, s: State, now: int)
    requires Init(s0) && Reaches(cfg, s0, actions, s)
    ensures HitsInTime(cfg, s)
    ensures PurgeExpired(s.store, now).entries == InTime(cfg, s.store, now)
    ensures cfg.ttl <= 0 ==> PurgeExpired(s.store, now) == s.store && forall k :: Recheck(s.store, k, now) == s.store
  {
    assert Inv(cfg, s0) && Timed(cfg, s0);
    hide Reaches, Init, EntriesInDate, PurgeExpired, Recheck, InTime, OrderValid, CallsValid;
    ReachesTimed(cfg, s0, actions, s);
    PurgeExact(cfg, s.store, now);
    if cfg.ttl <= 0 { NothingExpires(cfg, s.store, now); }
  }

  /** The entries stored less than a lifetime ago, or all of them. */
  ghost function InTime(cfg: Config, c: Store, now: int): map<Key, Entry> {
    map k | k in c.entries && !(cfg.ttl > 0 && c.entries[k].value.storedAt + cfg.ttl <= now) :: c.entries[k]
  }

  lemma PurgeExact(cfg: Config, c: Store, now: int)
    requires EntriesInDate(cfg, c)
    ensures PurgeExpired(c, now).entries == InTime(cfg, c, now)
  {
    StaleExact(cfg, c, now);
    hide EntriesInDate;
  }

  lemma NothingExpires(cfg: Config, c: Store, now: int)
    requires EntriesInDate(cfg, c) && OrderValid(cfg, c) && cfg.ttl <= 0
    ensures PurgeExpired(c, now) == c && forall k :: Recheck(c, k, now) == c
  {
    assert forall k | k in c.order :: k in c.entries.Keys;
    StaleExact(cfg, c, now);
    hide EntriesInDate, OrderValid;
    assert PurgeExpired(c, now).entries == c.entries;
    AllSurvive(c.order, c.entries.Keys);
  }

  lemma StaleExact(cfg: Config, c: Store, now: int)
    requires EntriesInDate(cfg, c)
    ensures forall k | k in c.entries ::
      c.entries[k].Stale(now) <==> cfg.ttl > 0 && c.entries[k].value.storedAt + cfg.ttl <= now
  {
    forall k | k in c.entries
      ensures c.entries[k].Stale(now) <==> cfg.ttl > 0 && c.entries[k].value.storedAt + cfg.ttl <= now
    {
      assert InDate(cfg, c.entries[k]);
    }
  }

  lemma {:induction false} AllSurvive(order: seq<Key>, kept: set<Key>)
    requires forall k | k in order :: k in kept
    ensures Surviving(order, kept) == order
  {
    if order != [] { AllSurvive(order[1..], kept); }
  }

  /** A Get that has read an entry answers with it exactly while it is in date, and goes
      on to load otherwise. */
  lemma EntryServedIff(cfg: Config, s0: State, actions: seq<Action>, s: State, t: Tid, now: int)
    requires Init(s0) && Reaches(cfg, s0, actions, s) && PcOf(s, t).Checking?
    ensures
      var Checking(k, since, e, nested) := PcOf(s, t);
      var s' := Act(cfg, s, GetCheck(t, now));
      if cfg.ttl <= 0 || now < e.value.storedAt + cfg.ttl
      then PcOf(s', t) == Idle && s'.answers == s.answers + [Answer(k, since, e.value, Some(now))]
      else PcOf(s', t) == Purging(k, since, nested) && s'.answers == s.answers
  {
    assert Inv(cfg, s0) && Timed(cfg, s0);
    hide Reaches, Init;
    ReachesTimed(cfg, s0, actions, s);
    hide Inv;
    assert InDate(cfg, PcOf(s, t).entry);
  }
}
