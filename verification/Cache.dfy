/** The loader-backed TTL cache: its critical sections and what each keeps.

A miss registers one in-flight loader call a key; Set, Delete and Clear detach
that call, so that it can no longer publish.  The cache is parametric in its
values; here every value carries `origin`, the instant at which the Set that gave
it or the loader call that produced it began, and `storedAt`, the time at which it was
given, so that stale values can be named.  No section reads either. */
module Cache {
  import opened Wrappers

  type Key = nat
  type CallId = nat

  datatype Value = Value(data: int, origin: nat, storedAt: int)

  datatype Entry = Entry(value: Value, expiresAt: Option<int>) {
    predicate Stale(now: int) {
      expiresAt.Some? && now >= expiresAt.value
    }
  }

  /** One loader call. `result` is None for a loader error. */
  datatype Call = Call(key: Key, generation: nat, started: nat, invalidated: bool, done: bool, result: Option<Value>)

  datatype Config = Config(ttl: int, maxSize: int)

  datatype Store = Store(
    entries: map<Key, Entry>,
    order: seq<Key>,
    tombstones: map<Key, nat>,
    inflight: map<Key, CallId>,
    calls: map<CallId, Call>)

  const EMPTY := Store(map[], [], map[], map[], map[])

  function Deadline(cfg: Config, now: int): Option<int> {
    if cfg.ttl > 0 then Some(now + cfg.ttl) else None
  }

  function Generation(c: Store, k: Key): nat {
    if k in c.tombstones then c.tombstones[k] else 0
  }

  // The order without the first occurrence of k.
  function Without(order: seq<Key>, k: Key): seq<Key> {
    if order == [] then []
    else if order[0] == k then order[1..]
    else [order[0]] + Without(order[1..], k)
  }

  function Surviving(order: seq<Key>, kept: set<Key>): seq<Key> {
    if order == [] then []
    else (if order[0] in kept then [order[0]] else []) + Surviving(order[1..], kept)
  }

  // ----- Critical sections -----

  // Inserts or overwrites; a new key may push out the oldest.
  function Insert(cfg: Config, c: Store, k: Key, e: Entry): Store {
    if k in c.entries then c.(entries := c.entries[k := e])
    else
      var order := c.order + [k];
      if cfg.maxSize > 0 && |order| > cfg.maxSize
      then c.(order := order[1..], entries := (c.entries - {order[0]})[k := e])
      else c.(order := order, entries := c.entries[k := e])
  }

  // Detaches the key's in-flight call.
  function Detach(c: Store, k: Key): Store {
    if k !in c.inflight then c
    else
      var id := c.inflight[k];
      c.(calls := if id in c.calls then c.calls[id := c.calls[id].(invalidated := true)] else c.calls,
         tombstones := c.tombstones[k := Generation(c, k) + 1],
         inflight := c.inflight - {k})
  }

  function RemoveEntry(c: Store, k: Key): Store {
    if k in c.entries then c.(entries := c.entries - {k}, order := Without(c.order, k)) else c
  }

  function Set(cfg: Config, c: Store, k: Key, v: Value, now: int): Store {
    Insert(cfg, Detach(c, k), k, Entry(v, Deadline(cfg, now)))
  }

  function Delete(c: Store, k: Key): Store {
    RemoveEntry(Detach(c, k), k)
  }

  ghost function Clear(c: Store): Store {
    c.(entries := map[], order := [],
       calls := map id | id in c.calls :: if id in c.inflight.Values then c.calls[id].(invalidated := true) else c.calls[id],
       tombstones := map k | k in c.tombstones.Keys + c.inflight.Keys ::
                       Generation(c, k) + (if k in c.inflight then 1 else 0),
       inflight := map[])
  }

  ghost function PurgeExpired(c: Store, now: int): Store {
    var kept := map k | k in c.entries && !c.entries[k].Stale(now) :: c.entries[k];
    c.(entries := kept, order := Surviving(c.order, kept.Keys))
  }

  // The lazy expiry of get, checked again under the write lock.
  function Recheck(c: Store, k: Key, now: int): Store {
    if k in c.entries && c.entries[k].Stale(now) then RemoveEntry(c, k) else c
  }

  function Register(c: Store, k: Key, id: CallId, clock: nat): Store {
    c.(calls := c.calls[id := Call(k, Generation(c, k), clock, false, false, None)],
       inflight := c.inflight[k := id])
  }

  /** A loader returns.  It publishes only if its call still owns the key. */
  function Complete(cfg: Config, c: Store, id: CallId, result: Option<Value>, now: int): Store
    requires id in c.calls
  {
    var call := c.calls[id];
    var k := call.key;
    if k in c.inflight && c.inflight[k] == id && !call.invalidated && Generation(c, k) == call.generation then
      var stored := if result.Some? then Insert(cfg, c, k, Entry(result.value, Deadline(cfg, now))) else c;
      stored.(calls := c.calls[id := call.(done := true, result := result)],
              inflight := c.inflight - {k},
              tombstones := c.tombstones - {k})
    else
      c.(calls := c.calls[id := call.(done := true, invalidated := true)],
         tombstones := if k in c.inflight then c.tombstones else c.tombstones - {k})
  }

  /** The entry stays good for a positive lifetime from `start`, or for ever. */
  ghost predicate LastsFrom(cfg: Config, e: Entry, start: int) {
    forall at: int :: e.Stale(at) <==> cfg.ttl > 0 && start + cfg.ttl <= at
  }

  // ----- What every critical section keeps -----

  ghost predicate NoDuplicates(order: seq<Key>) {
    forall i, j | 0 <= i < j < |order| :: order[i] != order[j]
  }

  ghost predicate Lists(order: seq<Key>, keys: set<Key>) {
    NoDuplicates(order) && forall k :: k in order <==> k in keys
  }

  /** The FIFO order lists exactly the entry keys, once each, within the limit. */
  ghost predicate OrderValid(cfg: Config, c: Store) {
    Lists(c.order, c.entries.Keys) && (cfg.maxSize > 0 ==> |c.order| <= cfg.maxSize)
  }

  /** A registered call is pending, not invalidated and of its key's generation;
      a tombstone exists only while a loader of its key is outstanding. */
  ghost predicate CallsValid(c: Store) {
    && (forall k | k in c.inflight ::
          && c.inflight[k] in c.calls
          && var call := c.calls[c.inflight[k]];
             call.key == k && !call.invalidated && !call.done && call.generation == Generation(c, k))
    && (forall k | k in c.tombstones :: exists id :: id in c.calls && c.calls[id].key == k && !c.calls[id].done)
  }

  ghost predicate Valid(cfg: Config, c: Store) {
    OrderValid(cfg, c) && CallsValid(c)
  }

  lemma {:induction false} WithoutLists(order: seq<Key>, keys: set<Key>, k: Key)
    requires Lists(order, keys) && k in keys
    ensures Lists(Without(order, k), keys - {k}) && |Without(order, k)| == |order| - 1
    decreases |order|
  {
    assert order != [];
    var rest := order[1..];
    assert order == [order[0]] + rest;
    if order[0] == k {
      assert forall x :: x in rest <==> x in keys - {k};
    } else {
      assert forall x :: x in rest <==> x in keys - {order[0]};
      WithoutLists(rest, keys - {order[0]}, k);
      assert keys - {order[0]} - {k} == keys - {k} - {order[0]};
    }
  }

  lemma {:induction false} SurvivingLists(order: seq<Key>, keys: set<Key>, kept: set<Key>)
    requires Lists(order, keys) && kept <= keys
    ensures Lists(Surviving(order, kept), kept) && |Surviving(order, kept)| <= |order|
    decreases |order|
  {
    if order != [] {
      var rest := order[1..];
      assert order == [order[0]] + rest;
      assert forall x :: x in rest <==> x in keys - {order[0]};
      SurvivingIgnores(rest, kept, order[0]);
      SurvivingLists(rest, keys - {order[0]}, kept - {order[0]});
    }
  }

  lemma {:induction false} SurvivingIgnores(order: seq<Key>, kept: set<Key>, k: Key)
    requires k !in order
    ensures Surviving(order, kept) == Surviving(order, kept - {k})
    decreases |order|
  {
    if order != [] {
      SurvivingIgnores(order[1..], kept, k);
    }
  }

  /** Storing a new key in a full cache evicts the oldest key and no other. */
  lemma InsertOrderValid(cfg: Config, c: Store, k: Key, e: Entry)
    requires OrderValid(cfg, c)
    ensures OrderValid(cfg, Insert(cfg, c, k, e))
    ensures k in Insert(cfg, c, k, e).entries && Insert(cfg, c, k, e).entries[k] == e
    ensures forall x | x in Insert(cfg, c, k, e).entries && x != k ::
              x in c.entries && Insert(cfg, c, k, e).entries[x] == c.entries[x]
    ensures forall x | x in c.entries && x !in Insert(cfg, c, k, e).entries ::
              c.order != [] && x == c.order[0] && k !in c.entries && 0 < cfg.maxSize == |c.order|
    ensures k !in c.entries && 0 < cfg.maxSize <= |c.order| ==> c.order[0] !in Insert(cfg, c, k, e).entries
  {
    if k !in c.entries {
      var order := c.order + [k];
      AppendLists(c.order, c.entries.Keys, k);
      assert c.entries[k := e].Keys == c.entries.Keys + {k};
      if cfg.maxSize > 0 && |order| > cfg.maxSize {
        TailLists(order, c.entries.Keys + {k});
        assert order[0] == c.order[0];
      }
    } else {
      assert c.entries[k := e].Keys == c.entries.Keys;
    }
    hide Lists;
  }

  lemma AppendLists(order: seq<Key>, keys: set<Key>, k: Key)
    requires Lists(order, keys) && k !in keys
    ensures Lists(order + [k], keys + {k})
  {
    assert forall i | 0 <= i < |order| :: order[i] in keys;
  }

  lemma TailLists(order: seq<Key>, keys: set<Key>)
    requires Lists(order, keys) && order != []
    ensures Lists(order[1..], keys - {order[0]}) && order[0] in keys
  {
    assert order == [order[0]] + order[1..];
  }

  lemma RemoveEntryValid(cfg: Config, c: Store, k: Key)
    requires OrderValid(cfg, c)
    ensures OrderValid(cfg, RemoveEntry(c, k)) && k !in RemoveEntry(c, k).entries
  {
    if k in c.entries {
      WithoutLists(c.order, c.entries.Keys, k);
      assert (c.entries - {k}).Keys == c.entries.Keys - {k};
    }
  }

  lemma PurgeExpiredValid(cfg: Config, c: Store, now: int)
    requires Valid(cfg, c)
    ensures Valid(cfg, PurgeExpired(c, now)) && OnlyDrops(c, PurgeExpired(c, now))
  {
    SurvivingLists(c.order, c.entries.Keys, PurgeExpired(c, now).entries.Keys);
    SameCallsValid(c, PurgeExpired(c, now));
  }

  lemma DetachValid(c: Store, k: Key)
    requires CallsValid(c)
    ensures CallsValid(Detach(c, k)) && k !in Detach(c, k).inflight
  {
    if k in c.inflight {
      var c' := Detach(c, k);
      var id := c.inflight[k];
      forall x | x in c'.tombstones
        ensures exists i :: i in c'.calls && c'.calls[i].key == x && !c'.calls[i].done
      {
        if x == k {
          assert c'.calls[id].key == k && !c'.calls[id].done;
        } else {
          var i :| i in c.calls && c.calls[i].key == x && !c.calls[i].done;
          assert c'.calls[i].key == x && !c'.calls[i].done;
        }
      }
    }
  }

  lemma ClearValid(cfg: Config, c: Store)
    requires CallsValid(c)
    ensures Valid(cfg, Clear(c))
    ensures
      var c' := Clear(c);
      && c'.entries == map[] && c'.order == [] && c'.inflight == map[]
      && (forall k | k in c.inflight :: c'.calls[c.inflight[k]].invalidated && Generation(c', k) == Generation(c, k) + 1)
      && (forall id | id in c.calls && id !in c.inflight.Values :: c'.calls[id] == c.calls[id])
  {
    var c' := Clear(c);
    forall k | k in c'.tombstones
      ensures exists i :: i in c'.calls && c'.calls[i].key == k && !c'.calls[i].done
    {
      var i :| i in c.calls && c.calls[i].key == k && !c.calls[i].done;
      assert c'.calls[i].key == k && !c'.calls[i].done;
    }
  }

  lemma RegisterValid(c: Store, k: Key, id: CallId, clock: nat)
    requires CallsValid(c) && id !in c.calls && k !in c.inflight
    ensures CallsValid(Register(c, k, id, clock))
  {
    var c' := Register(c, k, id, clock);
    forall x | x in c'.tombstones
      ensures exists i :: i in c'.calls && c'.calls[i].key == x && !c'.calls[i].done
    {
      var i :| i in c.calls && c.calls[i].key == x && !c.calls[i].done;
      assert c'.calls[i] == c.calls[i];
    }
  }

  /** A registered call always publishes; a detached one never does. */
  lemma CompleteValid(cfg: Config, c: Store, id: CallId, result: Option<Value>, now: int)
    requires Valid(cfg, c) && id in c.calls && !c.calls[id].done
    ensures
      var c' := Complete(cfg, c, id, result, now);
      var k := c.calls[id].key;
      var registered := k in c.inflight && c.inflight[k] == id;
      && Valid(cfg, c')
      && (c'.calls[id].invalidated <==> !registered)
      && (!registered ==> c'.entries == c.entries && c'.order == c.order)
      && (registered && result.Some? ==>
            k in c'.entries && c'.entries[k].value == result.value && LastsFrom(cfg, c'.entries[k], now))
      && (registered && result.None? ==> c'.entries == c.entries)
  {
    var c' := Complete(cfg, c, id, result, now);
    var k := c.calls[id].key;
    if result.Some? {
      InsertOrderValid(cfg, c, k, Entry(result.value, Deadline(cfg, now)));
    }
    CompleteCallsValid(cfg, c, id, result, now);
    hide CallsValid;
  }

  lemma CompleteCallsValid(cfg: Config, c: Store, id: CallId, result: Option<Value>, now: int)
    requires CallsValid(c) && id in c.calls && !c.calls[id].done
    ensures CallsValid(Complete(cfg, c, id, result, now))
  {
    hide Insert, Deadline;
    var c' := Complete(cfg, c, id, result, now);
    forall x | x in c'.tombstones
      ensures exists i :: i in c'.calls && c'.calls[i].key == x && !c'.calls[i].done
    {
      var i :| i in c.calls && c.calls[i].key == x && !c.calls[i].done;
      if i == id {
        assert x in c.inflight && c.inflight[x] != id;
        assert c'.calls[c.inflight[x]] == c.calls[c.inflight[x]];
      } else {
        assert c'.calls[i] == c.calls[i];
      }
    }
  }

  // What a completed loader may have changed in the store.
  lemma CompleteKeeps(cfg: Config, c: Store, id: CallId, result: Option<Value>, now: int)
    requires Valid(cfg, c) && id in c.calls
    ensures
      var c' := Complete(cfg, c, id, result, now);
      var k := c.calls[id].key;
      && c'.calls.Keys == c.calls.Keys
      && (forall i | i in c.calls && i != id :: c'.calls[i] == c.calls[i])
      && c'.calls[id].started == c.calls[id].started
      && (c'.calls[id].result == c.calls[id].result || c'.calls[id].result == result)
      && (forall x | x in c'.inflight :: x in c.inflight && c'.inflight[x] == c.inflight[x])
      && (forall x | x in c'.entries ::
            || (x in c.entries && c'.entries[x] == c.entries[x])
            || (&& x == k && k in c.inflight && c.inflight[k] == id && result.Some? && c'.entries[x].value == result.value
                && LastsFrom(cfg, c'.entries[x], now)))
  {
    var k := c.calls[id].key;
    if result.Some? {
      InsertOrderValid(cfg, c, k, Entry(result.value, Deadline(cfg, now)));
    }
    hide Valid;
  }

  // An invalidation marks calls and takes them out of the in-flight table; it
  // registers none and finishes none.
  ghost predicate OnlyInvalidates(c: Store, c': Store) {
    && c'.calls.Keys == c.calls.Keys
    && (forall i | i in c.calls :: c'.calls[i] == c.calls[i].(invalidated := c'.calls[i].invalidated))
    && (forall k | k in c'.inflight :: k in c.inflight && c'.inflight[k] == c.inflight[k])
  }

  lemma DetachOnlyInvalidates(c: Store, k: Key)
    requires CallsValid(c)
    ensures OnlyInvalidates(c, Detach(c, k)) && Detach(c, k).entries == c.entries && Detach(c, k).order == c.order
  {
    if k in c.inflight {
      assert Detach(c, k).calls.Keys == c.calls.Keys;
    }
  }

  lemma SameCallsValid(c: Store, c': Store)
    requires CallsValid(c) && c' == c.(entries := c'.entries, order := c'.order)
    ensures CallsValid(c')
  {
    forall k | k in c'.tombstones
      ensures exists i :: i in c'.calls && c'.calls[i].key == k && !c'.calls[i].done
    {
      var i :| i in c.calls && c.calls[i].key == k && !c.calls[i].done;
      assert c'.calls[i].key == k;
    }
  }

  /** A set detaches the key's loader and stores the value for one lifetime from now. */
  lemma SetValid(cfg: Config, c: Store, k: Key, v: Value, now: int)
    requires Valid(cfg, c)
    ensures
      var c' := Set(cfg, c, k, v, now);
      && Valid(cfg, c') && OnlyInvalidates(c, c') && k !in c'.inflight
      && k in c'.entries && c'.entries[k].value == v && LastsFrom(cfg, c'.entries[k], now)
      && (forall x | x in c'.entries && x != k :: x in c.entries && c'.entries[x] == c.entries[x])
  {
    var e := Entry(v, Deadline(cfg, now));
    DetachValid(c, k);
    DetachOnlyInvalidates(c, k);
    InsertOrderValid(cfg, Detach(c, k), k, e);
    SameCallsValid(Detach(c, k), Insert(cfg, Detach(c, k), k, e));
  }

  lemma DeleteValid(cfg: Config, c: Store, k: Key)
    requires Valid(cfg, c)
    ensures
      var c' := Delete(c, k);
      && Valid(cfg, c') && OnlyInvalidates(c, c') && k !in c'.inflight && k !in c'.entries
      && (forall x | x in c'.entries :: x in c.entries && c'.entries[x] == c.entries[x])
  {
    DetachValid(c, k);
    DetachOnlyInvalidates(c, k);
    RemoveEntryValid(cfg, Detach(c, k), k);
    SameCallsValid(Detach(c, k), Delete(c, k));
  }

  // Entries go; everything about calls stays.
  ghost predicate OnlyDrops(c: Store, c': Store) {
    && c' == c.(entries := c'.entries, order := c'.order)
    && forall k | k in c'.entries :: k in c.entries && c'.entries[k] == c.entries[k]
  }

  lemma RecheckValid(cfg: Config, c: Store, k: Key, now: int)
    requires Valid(cfg, c)
    ensures Valid(cfg, Recheck(c, k, now)) && OnlyDrops(c, Recheck(c, k, now))
  {
    RemoveEntryValid(cfg, c, k);
    SameCallsValid(c, Recheck(c, k, now));
  }
}
