/** The rolling budget for new voice sessions, one per user and source address.

The bounded table, which forgets old times and whole keys, decides exactly as an
unbounded record of every acceptance would. */
module VoiceCreate {

  const WINDOW: int := 60_000 // milliseconds
  const LIMIT: nat := 10
  const KEY_CAP: nat := 8192

  datatype Key = Key(user: int, ip: string)

  /** For each key, times in the order they were recorded. */
  type Table = map<Key, seq<int>>

  function TimesOf(t: Table, k: Key): seq<int> {
    if k in t then t[k] else []
  }

  // The times after the cutoff, when times never decrease.
  function Live(ts: seq<int>, cutoff: int): seq<int> {
    if ts != [] && ts[0] <= cutoff then Live(ts[1..], cutoff) else ts
  }

  function Prune(t: Table, cutoff: int): Table {
    map k | k in t && t[k] != [] && t[k][|t[k]| - 1] > cutoff :: t[k]
  }

  // The table that a request with no live time of its own is added to.
  function Roomier(t: Table, k: Key, cutoff: int): Table {
    var t1 := t - {k};
    if |t1| >= KEY_CAP then Prune(t1, cutoff) else t1
  }

  /** One request against the bounded table. */
  function Allow(t: Table, k: Key, now: int): (Table, bool) {
    if k.user <= 0 then (t, false)
    else
      var cutoff := now - WINDOW;
      var times := Live(TimesOf(t, k), cutoff);
      if times == [] then
        var t' := Roomier(t, k, cutoff);
        if |t'| >= KEY_CAP then (t', false) else (t'[k := [now]], true)
      else if |times| >= LIMIT then (t[k := times], false)
      else (t[k := times + [now]], true)
  }

  // ----- The unbounded record -----

  ghost function LiveKeys(h: Table, cutoff: int): set<Key> {
    set k | k in h && Live(h[k], cutoff) != []
  }

  /** What the budget promises, stated over every acceptance so far. */
  ghost predicate Deserves(h: Table, k: Key, now: int) {
    var times := Live(TimesOf(h, k), now - WINDOW);
    k.user > 0 && |times| < LIMIT && (times != [] || |LiveKeys(h, now - WINDOW)| < KEY_CAP)
  }

  ghost function Record(h: Table, k: Key, now: int, accepted: bool): Table {
    if accepted then h[k := TimesOf(h, k) + [now]] else h
  }

  ghost predicate Ordered(ts: seq<int>, now: int) {
    (forall i, j | 0 <= i < j < |ts| :: ts[i] <= ts[j]) && (forall i | 0 <= i < |ts| :: ts[i] <= now)
  }

  ghost predicate AllOrdered(t: Table, now: int) {
    forall k | k in t :: Ordered(t[k], now)
  }

  /** The table has lost no time that is still in a window. */
  ghost predicate Agrees(t: Table, h: Table, now: int) {
    forall k :: Live(TimesOf(t, k), now - WINDOW) == Live(TimesOf(h, k), now - WINDOW)
  }

  /** No window of a minute holds more than the limit. */
  ghost predicate Spaced(ts: seq<int>) {
    forall i | 0 <= i < |ts| - LIMIT :: ts[i] + WINDOW <= ts[i + LIMIT]
  }

  ghost predicate Inv(t: Table, h: Table, now: int) {
    && AllOrdered(t, now) && AllOrdered(h, now) && Agrees(t, h, now) && |t| <= KEY_CAP
    && (forall k | k in h :: Spaced(h[k]))
  }

  // ----- Live is the part after the cutoff -----

  lemma {:induction false} LiveIsSuffix(ts: seq<int>, cutoff: int, now: int)
    requires Ordered(ts, now)
    ensures
      var n := |ts| - |Live(ts, cutoff)|;
      && 0 <= n && Live(ts, cutoff) == ts[n..]
      && (forall i | 0 <= i < n :: ts[i] <= cutoff) && (forall i | n <= i < |ts| :: ts[i] > cutoff)
    ensures Ordered(Live(ts, cutoff), now)
  {
    if ts != [] && ts[0] <= cutoff {
      LiveIsSuffix(ts[1..], cutoff, now);
      var n := |ts| - |Live(ts, cutoff)|;
      assert forall i | 1 <= i < n :: ts[i] == ts[1..][i - 1];
      assert forall i | n <= i < |ts| :: ts[i] == ts[1..][i - 1];
    }
  }

  lemma {:induction false} LiveLater(ts: seq<int>, cutoff: int, later: int)
    requires cutoff <= later
    ensures Live(Live(ts, cutoff), later) == Live(ts, later)
  {
    if ts != [] && ts[0] <= cutoff { LiveLater(ts[1..], cutoff, later); }
  }

  lemma {:induction false} LiveAppend(ts: seq<int>, cutoff: int, now: int)
    requires cutoff < now
    ensures Live(ts + [now], cutoff) == Live(ts, cutoff) + [now]
  {
    if ts != [] && ts[0] <= cutoff {
      LiveAppend(ts[1..], cutoff, now);
      assert (ts + [now])[1..] == ts[1..] + [now];
    } else if ts == [] {
      assert ts + [now] == [now];
    }
  }

  lemma LiveEmpty(ts: seq<int>, cutoff: int, now: int)
    requires Ordered(ts, now)
    ensures Live(ts, cutoff) == [] <==> (ts == [] || ts[|ts| - 1] <= cutoff)
  {
    LiveIsSuffix(ts, cutoff, now);
  }

  // ----- One request -----

  lemma AgreesLater(t: Table, h: Table, last: int, now: int)
    requires Agrees(t, h, last) && last <= now
    ensures Agrees(t, h, now)
  {
    forall k ensures Live(TimesOf(t, k), now - WINDOW) == Live(TimesOf(h, k), now - WINDOW) {
      LiveLater(TimesOf(t, k), last - WINDOW, now - WINDOW);
      LiveLater(TimesOf(h, k), last - WINDOW, now - WINDOW);
    }
  }

  /** Pruning leaves exactly the keys with a live time, and all of those times. */
  lemma PruneExact(t: Table, cutoff: int, now: int)
    requires AllOrdered(t, now)
    ensures Prune(t, cutoff).Keys == LiveKeys(t, cutoff)
    ensures forall k :: Live(TimesOf(Prune(t, cutoff), k), cutoff) == Live(TimesOf(t, k), cutoff)
  {
    forall k | k in t ensures k in Prune(t, cutoff) <==> k in LiveKeys(t, cutoff) {
      LiveEmpty(t[k], cutoff, now);
    }
    forall k ensures Live(TimesOf(Prune(t, cutoff), k), cutoff) == Live(TimesOf(t, k), cutoff) {
      if k in t { LiveEmpty(t[k], cutoff, now); }
    }
  }

  lemma SameLiveKeys(t: Table, h: Table, now: int)
    requires Agrees(t, h, now)
    ensures LiveKeys(t, now - WINDOW) == LiveKeys(h, now - WINDOW)
  {
    var a, b := LiveKeys(t, now - WINDOW), LiveKeys(h, now - WINDOW);
    assert forall k :: (k in a <==> Live(TimesOf(t, k), now - WINDOW) != []) && (k in b <==> Live(TimesOf(h, k), now - WINDOW) != []);
  }

  lemma SubsetSize(a: set<Key>, b: set<Key>)
    requires a <= b
    ensures |a| <= |b|
  {
    assert b == a + (b - a);
  }

  lemma MapSize(t: Table)
    ensures |t| == |t.Keys|
  {}

  /** It has room exactly when fewer keys than the cap are live anywhere. */
  lemma RoomExact(t: Table, h: Table, k: Key, now: int)
    requires AllOrdered(t, now) && Agrees(t, h, now) && |t| <= KEY_CAP && Live(TimesOf(t, k), now - WINDOW) == []
    ensures
      var t' := Roomier(t, k, now - WINDOW);
      (|t'| < KEY_CAP <==> |LiveKeys(h, now - WINDOW)| < KEY_CAP) && |t'| <= KEY_CAP
  {
    var cutoff := now - WINDOW;
    var t1 := t - {k};
    PruneExact(t1, cutoff, now);
    SameLiveKeys(t, h, now);
    assert LiveKeys(t1, cutoff) == LiveKeys(t, cutoff);
    assert LiveKeys(t1, cutoff) <= t1.Keys <= t.Keys;
    hide LiveKeys, Prune, AllOrdered, Agrees;
    SubsetSize(LiveKeys(t1, cutoff), t1.Keys);
    SubsetSize(t1.Keys, t.Keys);
    MapSize(t);
    MapSize(t1);
    MapSize(Prune(t1, cutoff));
  }

  lemma RoomAgrees(t: Table, h: Table, k: Key, now: int)
    requires AllOrdered(t, now) && Agrees(t, h, now) && Live(TimesOf(t, k), now - WINDOW) == []
    ensures
      var t' := Roomier(t, k, now - WINDOW);
      k !in t' && AllOrdered(t', now) && Agrees(t', h, now)
  {
    var cutoff := now - WINDOW;
    var t1 := t - {k};
    PruneExact(t1, cutoff, now);
    hide Ordered;
    forall j ensures Live(TimesOf(t1, j), cutoff) == Live(TimesOf(h, j), cutoff) {
      assert Live(TimesOf(t, j), cutoff) == Live(TimesOf(h, j), cutoff);
    }
  }

  lemma RecordAgrees(t: Table, h: Table, k: Key, now: int, times: seq<int>)
    requires Agrees(t, h, now) && times == Live(TimesOf(h, k), now - WINDOW)
    ensures Agrees(t[k := times + [now]], h[k := TimesOf(h, k) + [now]], now)
  {
    var cutoff := now - WINDOW;
    var t', h' := t[k := times + [now]], h[k := TimesOf(h, k) + [now]];
    forall j ensures Live(TimesOf(t', j), cutoff) == Live(TimesOf(h', j), cutoff) {
      if j == k {
        LiveAppend(TimesOf(h, k), cutoff, now);
        LiveAppend(times, cutoff, now);
        LiveLater(TimesOf(h, k), cutoff, cutoff);
      } else {
        assert Live(TimesOf(t, j), cutoff) == Live(TimesOf(h, j), cutoff);
      }
    }
  }

  lemma RecordOrdered(h: Table, k: Key, now: int)
    requires AllOrdered(h, now)
    ensures AllOrdered(h[k := TimesOf(h, k) + [now]], now)
  {}

  /** Ten live times at most means the eleventh acceptance is a minute later. */
  lemma RecordSpaced(ts: seq<int>, now: int)
    requires Ordered(ts, now) && Spaced(ts) && |Live(ts, now - WINDOW)| < LIMIT
    ensures Spaced(ts + [now])
  {
    LiveIsSuffix(ts, now - WINDOW, now);
    var all := ts + [now];
    forall i | 0 <= i < |all| - LIMIT ensures all[i] + WINDOW <= all[i + LIMIT] {
      if i + LIMIT < |ts| { assert ts[i] + WINDOW <= ts[i + LIMIT]; }
    }
  }

  lemma RecordSpacedAll(h: Table, k: Key, now: int)
    requires AllOrdered(h, now) && (forall j | j in h :: Spaced(h[j])) && |Live(TimesOf(h, k), now - WINDOW)| < LIMIT
    ensures
      var h' := h[k := TimesOf(h, k) + [now]];
      forall j | j in h' :: Spaced(h'[j])
  {
    RecordSpaced(TimesOf(h, k), now);
  }

  // A key without a live time.
  lemma NewKeyExact(t: Table, h: Table, k: Key, now: int)
    requires Inv(t, h, now) && k.user > 0 && Live(TimesOf(t, k), now - WINDOW) == []
    ensures
      var (t', ok) := Allow(t, k, now);
      (ok <==> Deserves(h, k, now)) && Inv(t', Record(h, k, now, ok), now)
  {
    var t' := Roomier(t, k, now - WINDOW);
    assert Live(TimesOf(h, k), now - WINDOW) == [];
    hide Roomier, Agrees, AllOrdered, Spaced, LiveKeys;
    RoomExact(t, h, k, now);
    RoomAgrees(t, h, k, now);
    RecordOrdered(h, k, now);
    RecordSpacedAll(h, k, now);
    RecordAgrees(t', h, k, now, []);
    assert [] + [now] == [now];
    FreshOrdered(t', k, now);
    InsertSize(t', k, [now]);
  }

  lemma InsertSize(t: Table, k: Key, times: seq<int>)
    ensures |t[k := times]| == if k in t then |t| else |t| + 1
  {
    MapSize(t);
    MapSize(t[k := times]);
    assert t[k := times].Keys == t.Keys + {k};
  }

  lemma FreshOrdered(t: Table, k: Key, now: int)
    requires AllOrdered(t, now)
    ensures AllOrdered(t[k := [now]], now)
  {}

  // A key with live times: refused at the limit, recorded below it.
  lemma LiveKeyExact(t: Table, h: Table, k: Key, now: int)
    requires Inv(t, h, now) && k.user > 0 && Live(TimesOf(t, k), now - WINDOW) != []
    ensures
      var (t', ok) := Allow(t, k, now);
      (ok <==> Deserves(h, k, now)) && Inv(t', Record(h, k, now, ok), now)
  {
    var times := Live(TimesOf(t, k), now - WINDOW);
    assert times == Live(TimesOf(h, k), now - WINDOW);
    LiveOrdered(t, k, now);
    hide Agrees, AllOrdered, Spaced, LiveKeys;
    InsertSize(t, k, times);
    InsertSize(t, k, times + [now]);
    TrimAgrees(t, h, k, now);
    if |times| < LIMIT {
      RecordOrdered(h, k, now);
      RecordSpacedAll(h, k, now);
      RecordAgrees(t, h, k, now, times);
    }
  }

  lemma LiveOrdered(t: Table, k: Key, now: int)
    requires AllOrdered(t, now)
    ensures AllOrdered(t[k := Live(TimesOf(t, k), now - WINDOW)], now)
    ensures AllOrdered(t[k := Live(TimesOf(t, k), now - WINDOW) + [now]], now)
  {
    LiveIsSuffix(TimesOf(t, k), now - WINDOW, now);
  }

  lemma TrimAgrees(t: Table, h: Table, k: Key, now: int)
    requires Agrees(t, h, now)
    ensures Agrees(t[k := Live(TimesOf(t, k), now - WINDOW)], h, now)
  {
    var t' := t[k := Live(TimesOf(t, k), now - WINDOW)];
    LiveLater(TimesOf(t, k), now - WINDOW, now - WINDOW);
    forall j ensures Live(TimesOf(t', j), now - WINDOW) == Live(TimesOf(h, j), now - WINDOW) {
      assert Live(TimesOf(t, j), now - WINDOW) == Live(TimesOf(h, j), now - WINDOW);
    }
  }

  /** The decision is exactly the one the unbounded record deserves, and the table
      goes on representing it within its cap. */
  lemma AllowExact(t: Table, h: Table, last: int, k: Key, now: int)
    requires Inv(t, h, last) && last <= now
    ensures
      var (t', ok) := Allow(t, k, now);
      (ok <==> Deserves(h, k, now)) && Inv(t', Record(h, k, now, ok), now)
  {
    AgreesLater(t, h, last, now);
    assert Inv(t, h, now);
    hide Inv;
    if k.user > 0 {
      if Live(TimesOf(t, k), now - WINDOW) == [] {
        NewKeyExact(t, h, k, now);
      } else {
        LiveKeyExact(t, h, k, now);
      }
    }
  }

  // ----- Whole runs -----

  datatype Request = Request(key: Key, now: int)

  predicate InOrder(rs: seq<Request>, last: int) {
    rs == [] || (last <= rs[0].now && InOrder(rs[1..], rs[0].now))
  }

  ghost function Decisions(t: Table, rs: seq<Request>): seq<bool>
    decreases |rs|
  {
    if rs == [] then [] else
      var (t', ok) := Allow(t, rs[0].key, rs[0].now);
      [ok] + Decisions(t', rs[1..])
  }

  ghost function IdealDecisions(h: Table, rs: seq<Request>): seq<bool>
    decreases |rs|
  {
    if rs == [] then [] else
      var ok := Deserves(h, rs[0].key, rs[0].now);
      [ok] + IdealDecisions(Record(h, rs[0].key, rs[0].now, ok), rs[1..])
  }

  ghost function Accepted(h: Table, rs: seq<Request>): Table
    decreases |rs|
  {
    if rs == [] then h else
      Accepted(Record(h, rs[0].key, rs[0].now, Deserves(h, rs[0].key, rs[0].now)), rs[1..])
  }

  /** Over any run with a clock that never goes back, the table's decisions are the
      ideal ones and no minute holds an eleventh acceptance for any key. */
  lemma {:induction false} RunExact(t: Table, h: Table, last: int, rs: seq<Request>)
    requires Inv(t, h, last) && InOrder(rs, last)
    ensures Decisions(t, rs) == IdealDecisions(h, rs)
    ensures forall k | k in Accepted(h, rs) :: Spaced(Accepted(h, rs)[k])
    decreases |rs|
  {
    if rs != [] {
      var r := rs[0];
      AllowExact(t, h, last, r.key, r.now);
      var (t', ok) := Allow(t, r.key, r.now);
      RunExact(t', Record(h, r.key, r.now, ok), r.now, rs[1..]);
    }
  }

  lemma EmptyInv(now: int)
    ensures Inv(map[], map[], now)
  {}

  // ----- The limiter as the program keeps it -----

  class VoiceCreateLimiter {
    var entries: Table

    constructor ()
      ensures entries == map[]
    {
      entries := map[];
    }

    method PruneExpiredLocked(cutoff: int)
      modifies this
      ensures entries == Prune(old(entries), cutoff)
    {
      var todo := entries.Keys;
      var before := entries;
      while todo != {}
        invariant todo <= before.Keys
        invariant forall k | k in todo :: k in entries && entries[k] == before[k]
        invariant forall k | k in entries :: k in before && entries[k] == before[k]
        invariant forall k | k in before && k !in todo :: k in entries <==> k in Prune(before, cutoff)
        decreases |todo|
      {
        var k :| k in todo;
        todo := todo - {k};
        var times := entries[k];
        if |times| == 0 || times[|times| - 1] <= cutoff {
          entries := entries - {k};
        }
      }
    }

    method AllowRequest(user: int, ip: string, now: int) returns (ok: bool)
      modifies this
      ensures (entries, ok) == Allow(old(entries), Key(user, ip), now)
    {
      if user <= 0 {
        return false;
      }
      var key := Key(user, ip);
      var cutoff := now - WINDOW;
      var times := TimesOf(entries, key);
      var first := 0;
      while first < |times| && times[first] <= cutoff
        invariant 0 <= first <= |times|
        invariant Live(times[first..], cutoff) == Live(times, cutoff)
      {
        assert times[first..][1..] == times[first + 1..];
        first := first + 1;
      }
      times := times[first..];
      assert times == Live(TimesOf(old(entries), key), cutoff);
      assert times == [] ==> times + [now] == [now];
      if |times| == 0 {
        entries := entries - {key};
        if |entries| >= KEY_CAP {
          PruneExpiredLocked(cutoff);
          if |entries| >= KEY_CAP {
            return false;
          }
        }
      }
      if |times| >= LIMIT {
        entries := entries[key := times];
        return false;
      }
      entries := entries[key := times + [now]];
      return true;
    }
  }
}
