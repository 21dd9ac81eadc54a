/** Token buckets and the bounded per-source tables built from them.

Times are seconds and tokens are reals; one call samples the clock once.  The
reference for a pruned, bounded table is an ideal table that never forgets a
source. */
module RateLimit {

  // ----- One bucket -----

  /** Refill rate (tokens a second) and capacity. */
  datatype Limits = Limits(rate: real, burst: real) {
    ghost predicate Valid() {
      rate > 0.0 && burst >= 1.0
    }
  }

  datatype Bucket = Bucket(tokens: real, last: real)

  function Min(x: real, y: real): real {
    if x <= y then x else y
  }

  /** Tokens earned in `elapsed` seconds. */
  function Earned(l: Limits, elapsed: real): real {
    elapsed * l.rate
  }

  function Refill(l: Limits, b: Bucket, now: real): Bucket {
    if now <= b.last then b
    else Bucket(Min(b.tokens + Earned(l, now - b.last), l.burst), now)
  }

  function Take(l: Limits, b: Bucket, now: real): (Bucket, bool) {
    var full := Refill(l, b, now);
    if full.tokens < 1.0 then (full, false) else (full.(tokens := full.tokens - 1.0), true)
  }

  ghost predicate BucketValid(l: Limits, b: Bucket, clock: real) {
    0.0 <= b.tokens <= l.burst && b.last <= clock
  }

  class TokenBucket {
    var rate: real
    var burst: real
    var tokens: real
    var last: real

    ghost function LimitsView(): Limits
      reads this
    {
      Limits(rate, burst)
    }

    ghost function View(): Bucket
      reads this
    {
      Bucket(tokens, last)
    }

    constructor (rate: real, burst: int, now: real)
      ensures LimitsView() == Limits(rate, burst as real)
      ensures View() == Bucket(burst as real, now)
    {
      this.rate := rate;
      this.burst := burst as real;
      this.tokens := burst as real;
      this.last := now;
    }

    method TakeAt(now: real) returns (ok: bool)
      modifies this`tokens, this`last
      ensures (View(), ok) == Take(LimitsView(), old(View()), now)
    {
      RefillLocked(now);
      if tokens < 1.0 {
        return false;
      }
      tokens := tokens - 1.0;
      return true;
    }

    /** Non-positive settings are raised to one; tokens earned so far are kept up
        to the new capacity. */
    method SetRate(newRate: real, newBurst: int, now: real)
      modifies this
      ensures rate >= 1.0 && burst >= 1.0
      ensures newRate >= 1.0 ==> rate == newRate
      ensures newBurst >= 1 ==> burst == newBurst as real
      ensures tokens == Min(old(Refill(LimitsView(), View(), now)).tokens, burst)
      ensures last == old(Refill(LimitsView(), View(), now)).last
    {
      var r, b := newRate, newBurst;
      if r < 1.0 {
        r := 1.0;
      }
      if b < 1 {
        b := 1;
      }
      RefillLocked(now);
      rate := r;
      burst := b as real;
      if tokens > burst {
        tokens := burst;
      }
    }

    method RefillLocked(now: real)
      modifies this`tokens, this`last
      ensures View() == Refill(LimitsView(), old(View()), now)
    {
      if now <= last {
        return;
      }
      tokens := tokens + (now - last) * rate;
      if tokens > burst {
        tokens := burst;
      }
      last := now;
    }
  }

  ghost predicate NonDecreasing(times: seq<real>) {
    forall i, j | 0 <= i < j < |times| :: times[i] <= times[j]
  }

  ghost function Grants(l: Limits, b: Bucket, times: seq<real>): nat
    decreases |times|
  {
    if times == [] then 0
    else
      var (next, ok) := Take(l, b, times[0]);
      (if ok then 1 else 0) + Grants(l, next, times[1..])
  }

  /** Tokens a bucket could still spend by time `until`, seen from time `now`. */
  ghost function Capacity(l: Limits, b: Bucket, now: real, until: real): real {
    Min(b.tokens + Earned(l, now - b.last), l.burst) + Earned(l, until - now)
  }

  lemma EarnedAdds(l: Limits, x: real, y: real)
    ensures Earned(l, x + y) == Earned(l, x) + Earned(l, y)
  {}

  lemma EarnedNonNegative(l: Limits, x: real)
    requires l.Valid() && x >= 0.0
    ensures Earned(l, x) >= 0.0
    ensures Earned(l, 0.0) == 0.0
  {}

  // Spending never creates capacity: a grant costs one token of it.
  lemma TakeSpendsCapacity(l: Limits, b: Bucket, now: real, then': real, until: real)
    requires l.Valid() && BucketValid(l, b, now) && now <= then' <= until
    ensures
      var (next, ok) := Take(l, b, then');
      && BucketValid(l, next, then')
      && Capacity(l, next, then', until) + (if ok then 1.0 else 0.0) <= Capacity(l, b, now, until)
  {
    hide Earned;
    EarnedAdds(l, now - b.last, then' - now);
    EarnedAdds(l, until - then', then' - now);
    EarnedNonNegative(l, now - b.last);
    EarnedNonNegative(l, then' - now);
    assert now - b.last + (then' - now) == then' - b.last;
    assert until - then' + (then' - now) == until - now;
  }

  lemma {:induction false} GrantsWithinCapacity(l: Limits, b: Bucket, now: real, times: seq<real>, until: real)
    requires l.Valid() && BucketValid(l, b, now) && now <= until
    requires NonDecreasing(times) && forall i | 0 <= i < |times| :: now <= times[i] <= until
    ensures Grants(l, b, times) as real <= Capacity(l, b, now, until)
    decreases |times|
  {
    hide Earned;
    if times == [] {
      EarnedNonNegative(l, until - now);
      EarnedNonNegative(l, now - b.last);
    } else {
      TakeSpendsCapacity(l, b, now, times[0], until);
      GrantsWithinCapacity(l, Take(l, b, times[0]).0, times[0], times[1..], until);
    }
  }

  /** Whatever happened before, a bucket grants at most burst + rate * length
      requests in an interval. */
  lemma GrantsInInterval(l: Limits, b: Bucket, from: real, times: seq<real>, until: real)
    requires l.Valid() && BucketValid(l, b, from) && from <= until
    requires NonDecreasing(times) && forall i | 0 <= i < |times| :: from <= times[i] <= until
    ensures Grants(l, b, times) as real <= l.burst + Earned(l, until - from)
  {
    hide Earned;
    GrantsWithinCapacity(l, b, from, times, until);
  }

  /** Requests that leave a token's worth of time between them are never refused
      by a bucket that holds a token. */
  lemma {:induction false} SteadyRequestsGranted(l: Limits, b: Bucket, times: seq<real>)
    requires l.Valid() && times != [] && BucketValid(l, b, times[0])
    requires Refill(l, b, times[0]).tokens >= 1.0
    requires forall i | 0 < i < |times| :: times[i - 1] < times[i] && Earned(l, times[i] - times[i - 1]) >= 1.0
    ensures Grants(l, b, times) == |times|
    decreases |times|
  {
    hide Earned;
    EarnedNonNegative(l, times[0] - b.last);
    var next := Take(l, b, times[0]).0;
    assert next.last == times[0] && next.tokens >= 0.0;
    var rest := times[1..];
    if rest == [] {
      assert Grants(l, next, rest) == 0;
    } else {
      assert Earned(l, rest[0] - next.last) >= 1.0;
      assert forall i | 0 < i < |rest| :: rest[i] == times[i + 1] && rest[i - 1] == times[i];
      SteadyRequestsGranted(l, next, rest);
    }
  }

  // ----- Bounded tables of per-source buckets -----

  type Addr = nat

  datatype Decision = Allowed | DroppedSource | DroppedTableFull

  datatype Policy = Policy(limits: Limits, ttl: real, entryLimit: nat) {
    ghost predicate Valid() {
      limits.Valid() && ttl > 0.0 && entryLimit > 0
    }
  }

  type Table = map<Addr, Bucket>

  ghost function Prune(p: Policy, table: Table, now: real): Table {
    map a | a in table && now - table[a].last < p.ttl :: table[a]
  }

  /** One request. `eager` tables prune on every request, the others only when an
      unknown source finds the table full. */
  ghost function Allow(p: Policy, eager: bool, table: Table, a: Addr, now: real): (Table, Decision) {
    var kept := if eager || (a !in table && |table| >= p.entryLimit) then Prune(p, table, now) else table;
    if a !in kept && |kept| >= p.entryLimit then (kept, DroppedTableFull)
    else TakeFrom(p, kept, a, now)
  }

  /** The ideal table: unbounded and never pruned. */
  ghost function TakeFrom(p: Policy, table: Table, a: Addr, now: real): (Table, Decision) {
    var b := if a in table then table[a] else Bucket(p.limits.burst, now);
    var (next, ok) := Take(p.limits, b, now);
    (table[a := next], if ok then Allowed else DroppedSource)
  }

  datatype Op = Request(a: Addr, time: real) | Sweep(time: real)

  /** Runs the bounded and the ideal table side by side: they never disagree, a
      full table apart. */
  ghost predicate Agrees(p: Policy, eager: bool, table: Table, ideal: Table, ops: seq<Op>)
    decreases |ops|
  {
    if ops == [] then true
    else match ops[0]
      case Sweep(time) => Agrees(p, eager, Prune(p, table, time), ideal, ops[1..])
      case Request(a, time) =>
        var (table', d) := Allow(p, eager, table, a, time);
        if d == DroppedTableFull then Agrees(p, eager, table', ideal, ops[1..])
        else
          var (ideal', d') := TakeFrom(p, ideal, a, time);
          d == d' && Agrees(p, eager, table', ideal', ops[1..])
  }

  ghost predicate Clocked(ops: seq<Op>, clock: real) {
    && (forall i | 0 <= i < |ops| :: clock <= ops[i].time)
    && (forall i, j | 0 <= i < j < |ops| :: ops[i].time <= ops[j].time)
  }

  lemma ClockedTail(ops: seq<Op>, clock: real)
    requires Clocked(ops, clock) && ops != []
    ensures Clocked(ops[1..], ops[0].time)
  {}

  // A forgotten source is one whose ideal bucket would be full again.
  ghost predicate Simulates(p: Policy, table: Table, ideal: Table, clock: real) {
    && table.Keys <= ideal.Keys
    && (forall a | a in table :: table[a] == ideal[a])
    && (forall a | a in ideal :: BucketValid(p.limits, ideal[a], clock))
    && (forall a | a in ideal && a !in table ::
          ideal[a].tokens + Earned(p.limits, clock - ideal[a].last) >= p.limits.burst)
  }

  lemma SimulatesLater(p: Policy, table: Table, ideal: Table, clock: real, now: real)
    requires p.Valid() && Simulates(p, table, ideal, clock) && clock <= now
    ensures Simulates(p, table, ideal, now)
  {
    hide Earned;
    forall a | a in ideal && a !in table
      ensures ideal[a].tokens + Earned(p.limits, now - ideal[a].last) >= p.limits.burst
    {
      EarnedAdds(p.limits, clock - ideal[a].last, now - clock);
      EarnedNonNegative(p.limits, now - clock);
      assert clock - ideal[a].last + (now - clock) == now - ideal[a].last;
    }
  }

  lemma PruneSimulates(p: Policy, table: Table, ideal: Table, now: real)
    requires p.Valid() && Simulates(p, table, ideal, now)
    requires Earned(p.limits, p.ttl) >= p.limits.burst
    ensures Simulates(p, Prune(p, table, now), ideal, now)
  {
    hide Earned;
    forall a | a in ideal && a !in Prune(p, table, now)
      ensures ideal[a].tokens + Earned(p.limits, now - ideal[a].last) >= p.limits.burst
    {
      if a in table {
        var over := now - ideal[a].last - p.ttl;
        EarnedAdds(p.limits, p.ttl, over);
        EarnedNonNegative(p.limits, over);
        assert p.ttl + over == now - ideal[a].last;
      }
    }
  }

  lemma AllowSimulates(p: Policy, eager: bool, table: Table, ideal: Table, a: Addr, now: real)
    requires p.Valid() && Simulates(p, table, ideal, now)
    requires Earned(p.limits, p.ttl) >= p.limits.burst
    ensures
      var (table', d) := Allow(p, eager, table, a, now);
      if d == DroppedTableFull then Simulates(p, table', ideal, now)
      else
        var (ideal', d') := TakeFrom(p, ideal, a, now);
        d == d' && Simulates(p, table', ideal', now)
  {
    hide Earned;
    PruneSimulates(p, table, ideal, now);
    var kept := if eager || (a !in table && |table| >= p.entryLimit) then Prune(p, table, now) else table;
    if !(a !in kept && |kept| >= p.entryLimit) {
      TakeSimulates(p, kept, ideal, a, now);
    }
  }

  lemma TakeSimulates(p: Policy, table: Table, ideal: Table, a: Addr, now: real)
    requires p.Valid() && Simulates(p, table, ideal, now)
    ensures
      var (table', d) := TakeFrom(p, table, a, now);
      var (ideal', d') := TakeFrom(p, ideal, a, now);
      d == d' && Simulates(p, table', ideal', now)
  {
    hide Earned;
    var b := if a in table then table[a] else Bucket(p.limits.burst, now);
    var b' := if a in ideal then ideal[a] else Bucket(p.limits.burst, now);
    EarnedNonNegative(p.limits, now - b'.last);
    assert Refill(p.limits, b, now) == Refill(p.limits, b', now);
  }

  lemma {:induction false} RunsAgree(p: Policy, eager: bool, table: Table, ideal: Table, clock: real, ops: seq<Op>)
    requires p.Valid() && Simulates(p, table, ideal, clock) && Clocked(ops, clock)
    requires Earned(p.limits, p.ttl) >= p.limits.burst
    ensures Agrees(p, eager, table, ideal, ops)
    decreases |ops|
  {
    hide Earned;
    if ops != [] {
      var now := ops[0].time;
      SimulatesLater(p, table, ideal, clock, now);
      ClockedTail(ops, clock);
      match ops[0]
      case Sweep(_) =>
        PruneSimulates(p, table, ideal, now);
        RunsAgree(p, eager, Prune(p, table, now), ideal, now, ops[1..]);
      case Request(a, _) =>
        AllowSimulates(p, eager, table, ideal, a, now);
        var (table', d) := Allow(p, eager, table, a, now);
        var ideal' := if d == DroppedTableFull then ideal else TakeFrom(p, ideal, a, now).0;
        RunsAgree(p, eager, table', ideal', now, ops[1..]);
    }
  }

  /** A source is turned away by a full table exactly when it is unknown and as many
      sources as the table may hold have been seen within the lifetime. */
  lemma TableFullIff(p: Policy, eager: bool, table: Table, a: Addr, now: real)
    requires p.Valid()
    ensures Allow(p, eager, table, a, now).1 == DroppedTableFull <==>
      a !in (if eager then Prune(p, table, now) else table) && |Prune(p, table, now)| >= p.entryLimit
  {
    PruneShrinks(p, table, now);
    hide Prune, Take, Earned;
    var kept := if eager || (a !in table && |table| >= p.entryLimit) then Prune(p, table, now) else table;
    assert TakeFrom(p, kept, a, now).1 != DroppedTableFull;
    hide TakeFrom;
  }

  lemma PruneShrinks(p: Policy, table: Table, now: real)
    ensures Prune(p, table, now).Keys <= table.Keys && |Prune(p, table, now)| <= |table|
  {
    var kept := Prune(p, table, now);
    assert table.Keys == kept.Keys + (table.Keys - kept.Keys);
    assert |kept| == |kept.Keys| && |table| == |table.Keys|;
  }

  // ----- When pruning shows -----

  ghost function Burst(a: Addr, time: real, n: nat): seq<Op> {
    if n == 0 then [] else [Request(a, time)] + Burst(a, time, n - 1)
  }

  lemma {:induction false} BurstClocked(a: Addr, time: real, n: nat)
    ensures |Burst(a, time, n)| == n
    ensures forall i | 0 <= i < n :: Burst(a, time, n)[i] == Request(a, time)
  {
    if n > 0 {
      BurstClocked(a, time, n - 1);
    }
  }

  // A full bucket of n tokens is emptied by n requests at one instant.
  lemma {:induction false} Drains(p: Policy, eager: bool, b: Bucket, now: real, n: nat, more: seq<Op>)
    requires p.Valid() && b.last == now && b.tokens == n as real
    requires Agrees(p, eager, map[0 := b], map[0 := b], Burst(0, now, n) + more)
    ensures Agrees(p, eager, map[0 := Bucket(0.0, now)], map[0 := Bucket(0.0, now)], more)
    decreases n
  {
    hide Earned;
    if n == 0 {
      assert Burst(0, now, 0) + more == more;
    } else {
      var ops := Burst(0, now, n) + more;
      assert ops[0] == Request(0, now) && ops[1..] == Burst(0, now, n - 1) + more;
      assert Prune(p, map[0 := b], now) == map[0 := b];
      var next := Bucket(b.tokens - 1.0, now);
      assert map[0 := b][0 := next] == map[0 := next];
      assert Allow(p, eager, map[0 := b], 0, now) == (map[0 := next], Allowed);
      Drains(p, eager, next, now, n - 1, more);
    }
  }

  lemma SpendOne(p: Policy, eager: bool, table: Table, b: Bucket, now: real)
    requires p.Valid() && b.last == now && b.tokens >= 1.0
    requires if table == map[] then b.tokens == p.limits.burst else table.Keys == {0} && table[0] == b
    ensures Allow(p, eager, table, 0, now) == (table[0 := b.(tokens := b.tokens - 1.0)], Allowed)
  {
    hide Earned;
    assert Prune(p, table, now) == table;
    assert |table| == 0 || |table.Keys| == 1;
  }

  // The pruned table grants the request for which the ideal bucket is short.
  lemma {:induction false} Overspends(p: Policy, eager: bool, table: Table, ideal: Table, now: real, n: nat)
    requires p.Valid()
    requires table == map[] || (table.Keys == {0} && table[0].last == now)
    requires (if table == map[] then p.limits.burst else table[0].tokens) >= n as real + 1.0
    requires ideal.Keys == {0}
    requires var x := Refill(p.limits, ideal[0], now).tokens; n as real <= x < n as real + 1.0
    ensures !Agrees(p, eager, table, ideal, Burst(0, now, n + 1))
    decreases n
  {
    hide Earned;
    var ops := Burst(0, now, n + 1);
    assert ops[0] == Request(0, now) && ops[1..] == Burst(0, now, n);
    var b := if table == map[] then Bucket(p.limits.burst, now) else table[0];
    var next := b.(tokens := b.tokens - 1.0);
    SpendOne(p, eager, table, b, now);
    hide Allow, Burst;
    if n > 0 {
      var ideal' := TakeFrom(p, ideal, 0, now).0;
      assert Refill(p.limits, ideal'[0], now) == ideal'[0];
      Overspends(p, eager, table[0 := next], ideal', now, n - 1);
    }
  }

  ghost predicate PruningInvisible(p: Policy, eager: bool) {
    forall ops: seq<Op> | Clocked(ops, 0.0) :: Agrees(p, eager, map[], map[], ops)
  }

  /** Pruning idle sources never changes a decision exactly when an idle bucket has
      the time to refill completely: ttl * rate >= burst. */
  lemma PruningInvisibleIff(p: Policy, eager: bool, burst: nat)
    requires p.Valid() && p.limits.burst == burst as real
    ensures PruningInvisible(p, eager) <==> Earned(p.limits, p.ttl) >= p.limits.burst
  {
    if Earned(p.limits, p.ttl) >= p.limits.burst {
      forall ops: seq<Op> | Clocked(ops, 0.0) ensures Agrees(p, eager, map[], map[], ops) {
        RunsAgree(p, eager, map[], map[], 0.0, ops);
      }
    } else {
      PruningShows(p, eager, burst);
    }
  }

  /** Below that, one run shows it: spend the burst, wait out the lifetime, spend again. */
  lemma PruningShows(p: Policy, eager: bool, burst: nat)
    requires p.Valid() && p.limits.burst == burst as real
    requires Earned(p.limits, p.ttl) < p.limits.burst
    ensures !PruningInvisible(p, eager)
    ensures
      var n := Earned(p.limits, p.ttl).Floor;
      && 0 <= n && Clocked(SpendWaitSpend(p.ttl, burst, n), 0.0)
      && !Agrees(p, eager, map[], map[], SpendWaitSpend(p.ttl, burst, n))
  {
    hide Earned, Agrees;
    EarnedNonNegative(p.limits, p.ttl);
    var n := Earned(p.limits, p.ttl).Floor;
    SpendWaitSpendClocked(p.ttl, burst, n);
    SpendWaitSpendShows(p, eager, burst, n);
  }

  // Empty the bucket, let the entry be pruned, and spend again.
  ghost function SpendWaitSpend(ttl: real, burst: nat, n: nat): seq<Op> {
    Burst(0, 0.0, burst) + ([Sweep(ttl)] + Burst(0, ttl, n + 1))
  }

  lemma SpendWaitSpendClocked(ttl: real, burst: nat, n: nat)
    requires ttl > 0.0
    ensures Clocked(SpendWaitSpend(ttl, burst, n), 0.0)
  {
    BurstClocked(0, 0.0, burst);
    BurstClocked(0, ttl, n + 1);
    var ops := SpendWaitSpend(ttl, burst, n);
    assert forall i | 0 <= i < |ops| :: ops[i].time == (if i < burst then 0.0 else ttl);
  }

  lemma SweepForgets(p: Policy, eager: bool, b: Bucket, more: seq<Op>)
    requires b.last == 0.0
    requires Agrees(p, eager, map[0 := b], map[0 := b], [Sweep(p.ttl)] + more)
    ensures Agrees(p, eager, map[], map[0 := b], more)
  {
    assert ([Sweep(p.ttl)] + more)[1..] == more;
    assert Prune(p, map[0 := b], p.ttl) == map[];
  }

  lemma SpendWaitSpendShows(p: Policy, eager: bool, burst: nat, n: nat)
    requires p.Valid() && p.limits.burst == burst as real
    requires n as real <= Earned(p.limits, p.ttl) < n as real + 1.0
    requires n < burst
    ensures !Agrees(p, eager, map[], map[], SpendWaitSpend(p.ttl, burst, n))
  {
    hide Earned, Agrees;
    var ops := SpendWaitSpend(p.ttl, burst, n);
    var late := Burst(0, p.ttl, n + 1);
    var full, empty := Bucket(p.limits.burst, 0.0), Bucket(0.0, 0.0);
    if Agrees(p, eager, map[], map[], ops) {
      assert ops[0] == Request(0, 0.0) by {
        BurstClocked(0, 0.0, burst);
      }
      FirstRequestCreates(p, eager, ops);
      Drains(p, eager, full, 0.0, burst, [Sweep(p.ttl)] + late);
      SweepForgets(p, eager, empty, late);
      PrunedBucketOverspends(p, eager, empty, n);
      assert false;
    }
  }

  lemma PrunedBucketOverspends(p: Policy, eager: bool, empty: Bucket, n: nat)
    requires p.Valid() && empty == Bucket(0.0, 0.0) && n as real + 1.0 <= p.limits.burst
    requires n as real <= Earned(p.limits, p.ttl) < n as real + 1.0
    ensures !Agrees(p, eager, map[], map[0 := empty], Burst(0, p.ttl, n + 1))
  {
    hide Earned, Agrees, Burst, Allow;
    var ideal: Table := map[0 := empty];
    assert ideal.Keys == {0};
    assert p.ttl - 0.0 == p.ttl;
    assert Refill(p.limits, ideal[0], p.ttl).tokens == Earned(p.limits, p.ttl);
    Overspends(p, eager, map[], ideal, p.ttl, n);
  }

  // A source seen for the first time behaves as one with a full bucket.
  lemma FirstRequestCreates(p: Policy, eager: bool, ops: seq<Op>)
    requires p.Valid() && ops != [] && ops[0] == Request(0, 0.0)
    requires Agrees(p, eager, map[], map[], ops)
    ensures var full := Bucket(p.limits.burst, 0.0); Agrees(p, eager, map[0 := full], map[0 := full], ops)
  {
    hide Earned;
    var full := Bucket(p.limits.burst, 0.0);
    var next := full.(tokens := full.tokens - 1.0);
    assert Prune(p, map[], 0.0) == map[];
    assert Prune(p, map[0 := full], 0.0) == map[0 := full];
    assert map[0 := full][0 := next] == map[0 := next] == map[][0 := next];
    assert Allow(p, eager, map[], 0, 0.0) == (map[0 := next], Allowed);
    assert Allow(p, eager, map[0 := full], 0, 0.0) == (map[0 := next], Allowed);
  }

  // ----- Admissions of one source in an interval -----

  ghost function AllowedFor(p: Policy, eager: bool, table: Table, a: Addr, ops: seq<Op>): nat
    decreases |ops|
  {
    if ops == [] then 0
    else match ops[0]
      case Sweep(time) => AllowedFor(p, eager, Prune(p, table, time), a, ops[1..])
      case Request(b, time) =>
        var (table', d) := Allow(p, eager, table, b, time);
        (if b == a && d == Allowed then 1 else 0) + AllowedFor(p, eager, table', a, ops[1..])
  }

  ghost function SourceCapacity(p: Policy, ideal: Table, a: Addr, now: real, until: real): real {
    var b := if a in ideal then ideal[a] else Bucket(p.limits.burst, now);
    Capacity(p.limits, b, now, until)
  }

  // Waiting never adds to what a source can be granted by `until`.
  lemma WaitingSpendsCapacity(l: Limits, b: Bucket, now: real, later: real, until: real)
    requires l.Valid() && BucketValid(l, b, now) && now <= later <= until
    ensures Capacity(l, b, later, until) <= Capacity(l, b, now, until)
    ensures Capacity(l, Bucket(l.burst, later), later, until) <= Capacity(l, Bucket(l.burst, now), now, until)
    ensures Capacity(l, b, now, until) <= l.burst + Earned(l, until - now)
    ensures Capacity(l, b, now, until) >= 0.0
  {
    hide Earned;
    EarnedAdds(l, now - b.last, later - now);
    EarnedAdds(l, until - later, later - now);
    EarnedNonNegative(l, now - b.last);
    EarnedNonNegative(l, later - now);
    EarnedNonNegative(l, until - now);
    assert now - b.last + (later - now) == later - b.last;
    assert until - later + (later - now) == until - now;
  }

  lemma SourceWaits(p: Policy, ideal: Table, a: Addr, now: real, later: real, until: real)
    requires p.Valid() && now <= later <= until
    requires a in ideal ==> BucketValid(p.limits, ideal[a], now)
    ensures 0.0 <= SourceCapacity(p, ideal, a, later, until) <= SourceCapacity(p, ideal, a, now, until)
  {
    hide Earned, Capacity;
    var b := if a in ideal then ideal[a] else Bucket(p.limits.burst, now);
    WaitingSpendsCapacity(p.limits, b, now, later, until);
    WaitingSpendsCapacity(p.limits, if a in ideal then b else Bucket(p.limits.burst, later), later, later, until);
  }

  lemma {:induction false} AllowedWithinCapacity(p: Policy, eager: bool, table: Table, ideal: Table, clock: real,
                                                 a: Addr, ops: seq<Op>, until: real)
    requires p.Valid() && Simulates(p, table, ideal, clock) && Clocked(ops, clock)
    requires Earned(p.limits, p.ttl) >= p.limits.burst
    requires clock <= until && forall i | 0 <= i < |ops| :: ops[i].time <= until
    ensures AllowedFor(p, eager, table, a, ops) as real <= SourceCapacity(p, ideal, a, clock, until)
    decreases |ops|
  {
    hide Earned, Capacity;
    if ops == [] {
      SourceWaits(p, ideal, a, clock, clock, until);
    } else {
      var now := ops[0].time;
      SimulatesLater(p, table, ideal, clock, now);
      SourceWaits(p, ideal, a, clock, now, until);
      ClockedTail(ops, clock);
      match ops[0]
      case Sweep(_) =>
        PruneSimulates(p, table, ideal, now);
        AllowedWithinCapacity(p, eager, Prune(p, table, now), ideal, now, a, ops[1..], until);
      case Request(b, _) =>
        AllowSimulates(p, eager, table, ideal, b, now);
        var (table', d) := Allow(p, eager, table, b, now);
        var ideal' := if d == DroppedTableFull then ideal else TakeFrom(p, ideal, b, now).0;
        if b == a {
          var was := if a in ideal then ideal[a] else Bucket(p.limits.burst, now);
          TakeSpendsCapacity(p.limits, was, now, now, until);
        }
        AllowedWithinCapacity(p, eager, table', ideal', now, a, ops[1..], until);
    }
  }

  /** However the table is pruned, one source is allowed at most
      burst + rate * length requests in any interval of any run. */
  lemma AllowedInInterval(p: Policy, eager: bool, table: Table, ideal: Table, from: real,
                          a: Addr, ops: seq<Op>, until: real)
    requires p.Valid() && Simulates(p, table, ideal, from) && Clocked(ops, from)
    requires Earned(p.limits, p.ttl) >= p.limits.burst
    requires from <= until && forall i | 0 <= i < |ops| :: ops[i].time <= until
    ensures AllowedFor(p, eager, table, a, ops) as real <= p.limits.burst + Earned(p.limits, until - from)
  {
    hide Earned, Capacity;
    AllowedWithinCapacity(p, eager, table, ideal, from, a, ops, until);
    WaitingSpendsCapacity(p.limits, if a in ideal then ideal[a] else Bucket(p.limits.burst, from), from, from, until);
  }
}

/** The UDP ingress limiter: a global bucket, then a bounded source table that is
swept when an unknown source finds it full. */
module Ingress {
  import opened RateLimit

  datatype IngressDecision = IngressAllowed | IngressDroppedGlobal | IngressDroppedSource | IngressDroppedTableFull

  datatype SourceIngress = SourceIngress(budget: Bucket, lastSeen: real)

  type Sources = map<Addr, SourceIngress>

  ghost function Swept(ttl: real, sources: Sources, now: real): Sources {
    map a | a in sources && now - sources[a].lastSeen < ttl :: sources[a]
  }

  ghost function AllowSource(p: Policy, sources: Sources, a: Addr, now: real): (Sources, IngressDecision) {
    var kept := if a !in sources && |sources| >= p.entryLimit then Swept(p.ttl, sources, now) else sources;
    if a !in kept && |kept| >= p.entryLimit then (kept, IngressDroppedTableFull)
    else
      var b := if a in kept then kept[a].budget else Bucket(p.limits.burst, now);
      var (next, ok) := Take(p.limits, b, now);
      (kept[a := SourceIngress(next, now)], if ok then IngressAllowed else IngressDroppedSource)
  }

  class IngressLimiter {
    const policy: Policy
    const global: TokenBucket
    var sources: Sources

    constructor (policy: Policy, global: TokenBucket)
      ensures this.policy == policy && this.global == global && sources == map[]
    {
      this.policy := policy;
      this.global := global;
      sources := map[];
    }

    method Allow(a: Addr, now: real) returns (d: IngressDecision)
      modifies this`sources, global
      ensures global.LimitsView() == old(global.LimitsView())
      ensures global.View() == Take(global.LimitsView(), old(global.View()), now).0
      ensures
        if Take(old(global.LimitsView()), old(global.View()), now).1
        then (sources, d) == AllowSource(policy, old(sources), a, now)
        else sources == old(sources) && d == IngressDroppedGlobal
    {
      var ok := global.TakeAt(now);
      if !ok {
        return IngressDroppedGlobal;
      }
      ghost var kept := sources;
      if a !in sources {
        if |sources| >= policy.entryLimit {
          var removed := Sweep(now);
          if |sources| >= policy.entryLimit {
            return IngressDroppedTableFull;
          }
        }
        kept := sources;
        sources := sources[a := SourceIngress(Bucket(policy.limits.burst, now), now)];
      }
      var (next, taken) := Take(policy.limits, sources[a].budget, now);
      sources := sources[a := SourceIngress(next, now)];
      assert sources == kept[a := SourceIngress(next, now)];
      return if taken then IngressAllowed else IngressDroppedSource;
    }

    /** Removes exactly the sources idle for at least the entry lifetime. */
    method Sweep(now: real) returns (removed: nat)
      modifies this`sources
      ensures sources == Swept(policy.ttl, old(sources), now)
      ensures removed == |old(sources)| - |sources|
    {
      removed := 0;
      var todo := sources.Keys;
      while todo != {}
        invariant todo <= old(sources).Keys
        invariant sources.Keys <= old(sources).Keys && todo <= sources.Keys
        invariant forall a | a in sources :: sources[a] == old(sources)[a]
        invariant forall a | a in old(sources) && a !in todo ::
                    a in sources <==> now - old(sources)[a].lastSeen < policy.ttl
        invariant removed + |sources| == |old(sources)|
        decreases |todo|
      {
        var a :| a in todo;
        todo := todo - {a};
        if now - sources[a].lastSeen >= policy.ttl {
          ghost var was := sources;
          sources := sources - {a};
          assert was.Keys == sources.Keys + {a};
          removed := removed + 1;
        }
      }
    }
  }

  // ----- The source table is a pruned bucket table -----

  ghost function Buckets(sources: Sources): Table {
    map a | a in sources :: sources[a].budget
  }

  ghost function AsDecision(d: Decision): IngressDecision {
    match d
    case Allowed => IngressAllowed
    case DroppedSource => IngressDroppedSource
    case DroppedTableFull => IngressDroppedTableFull
  }

  // With a clock that never goes back, a source is last seen when its bucket was
  // last refilled.
  ghost predicate InStep(sources: Sources, clock: real) {
    forall a | a in sources :: sources[a].lastSeen == sources[a].budget.last <= clock
  }

  lemma SweptIsPruned(p: Policy, sources: Sources, now: real)
    requires InStep(sources, now)
    ensures Buckets(Swept(p.ttl, sources, now)) == Prune(p, Buckets(sources), now)
    ensures InStep(Swept(p.ttl, sources, now), now)
  {}

  lemma SameSize(sources: Sources)
    ensures |Buckets(sources)| == |sources|
  {
    assert Buckets(sources).Keys == sources.Keys;
  }

  /** Under a non-decreasing clock the ingress source table decides as the pruned
      bucket table does, so PruningInvisibleIff and AllowedInInterval hold of it. */
  lemma AllowSourceIsTable(p: Policy, sources: Sources, clock: real, a: Addr, now: real)
    requires InStep(sources, clock) && clock <= now
    ensures
      var (sources', d) := AllowSource(p, sources, a, now);
      && (Buckets(sources'), d) == (RateLimit.Allow(p, false, Buckets(sources), a, now).0,
                                    AsDecision(RateLimit.Allow(p, false, Buckets(sources), a, now).1))
      && InStep(sources', now)
  {
    var sweeps := a !in sources && |sources| >= p.entryLimit;
    var kept := if sweeps then Swept(p.ttl, sources, now) else sources;
    SameSize(sources);
    SweptIsPruned(p, sources, now);
    SameSize(kept);
    if !(a !in kept && |kept| >= p.entryLimit) {
      var b := if a in kept then kept[a].budget else Bucket(p.limits.burst, now);
      var next := Take(p.limits, b, now).0;
      assert next.last == now;
      assert Buckets(kept[a := SourceIngress(next, now)]) == Buckets(kept)[a := next];
    }
  }
}

/** The WebSocket handshake limiter: fixed limits, pruned on every attempt. */
module Upgrade {
  import opened Wrappers
  import opened RateLimit

  const UPGRADE_POLICY := Policy(Limits(10.0, 20.0), 120.0, 4096)

  class UpgradeLimiter {
    var sources: Table

    constructor ()
      ensures sources == map[]
    {
      sources := map[];
    }

    /** An invalid address is refused and leaves no trace. */
    method Allow(source: Option<Addr>, now: real) returns (ok: bool)
      modifies this
      ensures source.None? ==> !ok && sources == old(sources)
      ensures
        source.Some? ==>
          var (table, d) := RateLimit.Allow(UPGRADE_POLICY, true, old(sources), source.value, now);
          sources == table && (ok <==> d == Allowed)
    {
      if source.None? {
        return false;
      }
      var a := source.value;
      PruneLocked(now);
      if a !in sources {
        if |sources| >= 4096 {
          return false;
        }
        sources := sources[a := Bucket(20.0, now)];
      }
      var b := sources[a];
      var elapsed := now - b.last;
      if elapsed > 0.0 {
        b := Bucket(Min(20.0, b.tokens + elapsed * 10.0), now);
      }
      if b.tokens < 1.0 {
        sources := sources[a := b];
        return false;
      }
      sources := sources[a := b.(tokens := b.tokens - 1.0)];
      return true;
    }

    method PruneLocked(now: real)
      modifies this
      ensures sources == Prune(UPGRADE_POLICY, old(sources), now)
    {
      var todo := sources.Keys;
      while todo != {}
        invariant todo <= sources.Keys <= old(sources).Keys
        invariant forall a | a in sources :: sources[a] == old(sources)[a]
        invariant forall a | a in old(sources) && a !in todo ::
                    a in sources <==> now - old(sources)[a].last < 120.0
        decreases |todo|
      {
        var a :| a in todo;
        todo := todo - {a};
        if now - sources[a].last >= 120.0 {
          sources := sources - {a};
        }
      }
    }
  }

  /** With its fixed limits the handshake limiter never lets pruning show. */
  lemma UpgradePruningInvisible()
    ensures PruningInvisible(UPGRADE_POLICY, true)
  {
    assert Earned(UPGRADE_POLICY.limits, UPGRADE_POLICY.ttl) == 1200.0;
    PruningInvisibleIff(UPGRADE_POLICY, true, 20);
  }
}
