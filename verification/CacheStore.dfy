/** The cache as the program keeps it: maps and a FIFO slice changed in place.
Each method is one critical section, proved against module Cache. */
module CacheStore {
  import opened Wrappers
  import opened Cache

  // Deleting from the slice as the program does it: find the key, cut it out.
  lemma {:induction false} WithoutAt(order: seq<Key>, k: Key, i: nat)
    requires i < |order| && order[i] == k && k !in order[..i]
    ensures Without(order, k) == order[..i] + order[i + 1..]
    decreases i
  {
    if i > 0 {
      assert order[0] in order[..i];
      assert order[1..][..i - 1] == order[..i][1..];
      WithoutAt(order[1..], k, i - 1);
      assert order[..i] == [order[0]] + order[1..][..i - 1];
      assert order[1..][i..] == order[i + 1..];
    } else {
      assert order[..0] + order[1..] == order[1..];
    }
  }

  lemma {:induction false} WithoutAbsent(order: seq<Key>, k: Key)
    requires k !in order
    ensures Without(order, k) == order
    decreases |order|
  {
    if order != [] {
      WithoutAbsent(order[1..], k);
    }
  }

  lemma {:induction false} SurvivingAppend(order: seq<Key>, k: Key, kept: set<Key>)
    ensures Surviving(order + [k], kept) == Surviving(order, kept) + (if k in kept then [k] else [])
    decreases |order|
  {
    if order == [] {
      assert [] + [k] == [k];
      assert Surviving([k], kept) == (if k in kept then [k] else []) + Surviving([], kept);
    } else {
      assert (order + [k])[1..] == order[1..] + [k];
      SurvivingAppend(order[1..], k, kept);
    }
  }

  lemma {:induction false} SurvivingAll(order: seq<Key>, kept: set<Key>)
    requires forall k | k in order :: k in kept
    ensures Surviving(order, kept) == order
    decreases |order|
  {
    if order != [] {
      SurvivingAll(order[1..], kept);
    }
  }

  class LoadingCache {
    var entries: map<Key, Entry>
    var order: seq<Key>
    var tombstones: map<Key, nat>
    var inflight: map<Key, CallId>
    var calls: map<CallId, Call>
    const cfg: Config

    ghost function View(): Store
      reads this
    {
      Store(entries, order, tombstones, inflight, calls)
    }

    constructor (cfg: Config)
      ensures this.cfg == cfg && View() == EMPTY && Valid(cfg, View())
    {
      this.cfg := cfg;
      entries, order, tombstones, inflight, calls := map[], [], map[], map[], map[];
    }

    method Set(k: Key, v: Value, now: int)
      requires Valid(cfg, View())
      modifies this
      ensures Valid(cfg, View()) && View() == Cache.Set(cfg, old(View()), k, v, now)
    {
      SetValid(cfg, View(), k, v, now);
      DetachCall(k);
      StoreLocked(k, v, now);
    }

    method Delete(k: Key)
      requires Valid(cfg, View())
      modifies this
      ensures Valid(cfg, View()) && View() == Cache.Delete(old(View()), k)
    {
      DeleteValid(cfg, View(), k);
      DetachCall(k);
      if k in entries {
        entries := entries - {k};
        CutFromOrder(k);
      }
    }

    method Clear()
      requires Valid(cfg, View())
      modifies this
      ensures Valid(cfg, View()) && View() == Cache.Clear(old(View()))
    {
      ClearValid(cfg, View());
      DetachedAll(View());
      DetachAll();
      hide Valid, Detached, Cache.Clear;
      entries, order := map[], [];
    }

    method DetachAll()
      requires Valid(cfg, View())
      modifies this`calls, this`tombstones, this`inflight
      ensures View() == Detached(old(View()), old(inflight).Keys)
    {
      ghost var c := View();
      ghost var done: set<Key> := {};
      var todo := inflight.Keys;
      DetachedNone(c);
      hide Detached, Valid;
      while todo != {}
        invariant done !! todo && done + todo == c.inflight.Keys
        invariant View() == Detached(c, done)
        decreases |todo|
      {
        var k :| k in todo;
        DetachNext(c, done, k);
        todo := todo - {k};
        done := done + {k};
      }
      assert done == c.inflight.Keys;
    }

    method DetachNext(ghost c: Store, ghost done: set<Key>, k: Key)
      requires Valid(cfg, c) && done <= c.inflight.Keys && k in c.inflight && k !in done
      requires View() == Detached(c, done)
      modifies this`calls, this`tombstones, this`inflight
      ensures View() == Detached(c, done + {k})
    {
      DetachedStep(cfg, c, done, k);
      hide Detached, Detach, Valid;
      DetachCall(k);
    }

    /** DeleteExpired, and the first part of Snapshot. */
    method PurgeExpiredLocked(now: int) returns (n: nat)
      requires Valid(cfg, View())
      modifies this
      ensures Valid(cfg, View()) && View() == PurgeExpired(old(View()), now)
      ensures n == |old(entries)| - |entries|
    {
      PurgeExpiredValid(cfg, View(), now);
      assert forall k | k in order :: k in entries;
      hide Valid;
      n := DropStale(now);
      assert entries == PurgeExpired(old(View()), now).entries;
      if n > 0 {
        FilterOrder();
      } else {
        SameSizeSubset(entries.Keys, old(entries).Keys);
        SurvivingAll(order, entries.Keys);
      }
      assert View() == PurgeExpired(old(View()), now);
    }

    method DropStale(now: int) returns (n: nat)
      modifies this`entries
      ensures entries == map k | k in old(entries) && !old(entries)[k].Stale(now) :: old(entries)[k]
      ensures n == |old(entries)| - |entries|
    {
      n := 0;
      var todo := entries.Keys;
      while todo != {}
        invariant todo <= entries.Keys <= old(entries).Keys
        invariant forall k | k in entries :: entries[k] == old(entries)[k]
        invariant forall k | k in old(entries) && k !in todo :: k in entries <==> !old(entries)[k].Stale(now)
        invariant n + |entries| == |old(entries)|
        decreases |todo|
      {
        var k :| k in todo;
        todo := todo - {k};
        if entries[k].Stale(now) {
          ghost var was := entries.Keys;
          entries := entries - {k};
          assert was == entries.Keys + {k};
          n := n + 1;
        }
      }
    }

    // Rebuilds the FIFO order from the surviving keys.
    method FilterOrder()
      modifies this`order
      ensures order == Surviving(old(order), entries.Keys)
    {
      var filtered: seq<Key> := [];
      for i := 0 to |order|
        invariant order == old(order)
        invariant filtered == Surviving(order[..i], entries.Keys)
      {
        SurvivingAppend(order[..i], order[i], entries.Keys);
        assert order[..i + 1] == order[..i] + [order[i]];
        if order[i] in entries {
          filtered := filtered + [order[i]];
        }
      }
      assert order[..|order|] == order;
      order := filtered;
    }

    /** The recheck of get under the write lock. */
    method RecheckLocked(k: Key, now: int)
      requires Valid(cfg, View())
      modifies this
      ensures Valid(cfg, View()) && View() == Recheck(old(View()), k, now)
    {
      RecheckValid(cfg, View(), k, now);
      if k in entries && entries[k].Stale(now) {
        entries := entries - {k};
        CutFromOrder(k);
      }
    }

    /** The registration half of loadOnce: join the key's call or register one. */
    method JoinOrRegister(k: Key, id: CallId, clock: nat) returns (joined: Option<CallId>)
      requires Valid(cfg, View()) && id !in calls
      modifies this
      ensures Valid(cfg, View())
      ensures k in old(inflight) ==> joined == Some(old(inflight)[k]) && View() == old(View())
      ensures k !in old(inflight) ==> joined == None && View() == Register(old(View()), k, id, clock)
    {
      if k in inflight {
        return Some(inflight[k]);
      }
      RegisterValid(View(), k, id, clock);
      calls := calls[id := Call(k, if k in tombstones then tombstones[k] else 0, clock, false, false, None)];
      inflight := inflight[k := id];
      return None;
    }

    /** The completion half of loadOnce. */
    method CompleteCall(id: CallId, result: Option<Value>, now: int)
      requires Valid(cfg, View()) && id in calls && !calls[id].done
      modifies this
      ensures Valid(cfg, View()) && View() == Complete(cfg, old(View()), id, result, now)
    {
      CompleteValid(cfg, View(), id, result, now);
      hide Valid;
      var call := calls[id];
      var k := call.key;
      var currentOK := k in inflight;
      var generation := if k in tombstones then tombstones[k] else 0;
      if currentOK && inflight[k] == id && !call.invalidated && generation == call.generation {
        if result.Some? {
          StoreLocked(k, result.value, now);
        }
        calls := calls[id := call.(done := true, result := result)];
        inflight := inflight - {k};
        tombstones := tombstones - {k};
      } else {
        calls := calls[id := call.(done := true, invalidated := true)];
        if !currentOK {
          tombstones := tombstones - {k};
        }
      }
    }

    method StoreLocked(k: Key, v: Value, now: int)
      modifies this`entries, this`order
      ensures View() == Insert(cfg, old(View()), k, Entry(v, Deadline(cfg, now)))
    {
      var expiresAt := if cfg.ttl > 0 then Some(now + cfg.ttl) else None;
      if k !in entries {
        order := order + [k];
        if cfg.maxSize > 0 && |order| > cfg.maxSize {
          var oldest := order[0];
          order := order[1..];
          entries := entries - {oldest};
        }
      }
      entries := entries[k := Entry(v, expiresAt)];
    }

    method DetachCall(k: Key)
      modifies this`calls, this`tombstones, this`inflight
      ensures View() == Detach(old(View()), k)
    {
      if k in inflight {
        var id := inflight[k];
        if id in calls {
          calls := calls[id := calls[id].(invalidated := true)];
        }
        tombstones := tombstones[k := (if k in tombstones then tombstones[k] else 0) + 1];
        inflight := inflight - {k};
      }
    }

    method CutFromOrder(k: Key)
      modifies this`order
      ensures order == Without(old(order), k)
    {
      var i := 0;
      while i < |order|
        invariant i <= |order| && order == old(order)
        invariant k !in order[..i]
      {
        if order[i] == k {
          WithoutAt(order, k, i);
          order := order[..i] + order[i + 1..];
          return;
        }
        i := i + 1;
      }
      WithoutAbsent(order, k);
    }
  }

  lemma {:induction false} SubsetSmaller(a: set<Key>, b: set<Key>)
    requires a <= b
    ensures |a| <= |b|
  {
    if a != {} {
      var x :| x in a;
      SubsetSmaller(a - {x}, b - {x});
    }
  }

  lemma SameSizeSubset(a: set<Key>, b: set<Key>)
    requires a <= b && |a| == |b|
    ensures a == b
  {
    if x :| x in b && x !in a {
      SubsetSmaller(a, b - {x});
      assert false;
    }
  }

  // The store after the calls of the keys in `done` were detached.
  ghost function Detached(c: Store, done: set<Key>): Store
    requires done <= c.inflight.Keys
  {
    var ids := set k | k in done :: c.inflight[k];
    c.(calls := map id | id in c.calls :: if id in ids then c.calls[id].(invalidated := true) else c.calls[id],
       tombstones := map k | k in c.tombstones.Keys + done :: Generation(c, k) + (if k in done then 1 else 0),
       inflight := c.inflight - done)
  }

  lemma DetachedNone(c: Store)
    ensures Detached(c, {}) == c
  {
    assert Detached(c, {}).calls == c.calls;
    assert Detached(c, {}).tombstones == c.tombstones;
    assert Detached(c, {}).inflight == c.inflight;
  }

  lemma DetachedStep(cfg: Config, c: Store, done: set<Key>, k: Key)
    requires Valid(cfg, c) && done <= c.inflight.Keys && k in c.inflight && k !in done
    ensures Detach(Detached(c, done), k) == Detached(c, done + {k})
  {
    var before, after := Detached(c, done), Detached(c, done + {k});
    assert c.inflight[k] in c.calls;
    hide Valid;
    assert (set x | x in done + {k} :: c.inflight[x]) == (set x | x in done :: c.inflight[x]) + {c.inflight[k]};
    assert k in before.inflight && before.inflight[k] == c.inflight[k];
    var detached := Detach(before, k);
    assert detached.calls == after.calls;
    assert detached.tombstones == after.tombstones;
    assert detached.inflight == after.inflight;
  }

  lemma DetachedAll(c: Store)
    ensures Detached(c, c.inflight.Keys).(entries := map[], order := []) == Cache.Clear(c)
  {
    var all, cleared := Detached(c, c.inflight.Keys), Cache.Clear(c);
    assert (set k | k in c.inflight.Keys :: c.inflight[k]) == c.inflight.Values;
    assert all.calls == cleared.calls;
    assert all.tombstones == cleared.tombstones;
    assert all.inflight == cleared.inflight;
  }
}
