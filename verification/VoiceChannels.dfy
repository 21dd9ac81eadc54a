/** Voice occupancy and the life of temporary channels, over the published versions.

Commands run one at a time; each publishes at most one successor version.  The
coordinator may drop a user's authority at any moment, which the published version
learns later through a queued transition. */
module VoiceChannels {
  import opened Wrappers

  const MAX_CAPACITY: int := 256
  const GRACE: int := 30_000 // milliseconds

  type User = nat
  type ChannelId = int

  datatype Channel = Channel(voice: bool, temporary: bool, capacity: int)

  /** A deadline of zero is a cleared schedule that keeps its generation. */
  datatype Schedule = Schedule(generation: nat, deadline: int)

  /** One installed authority; no two installations are equal. */
  datatype Authority = Authority(channel: ChannelId, stamp: nat)

  datatype Version = Version(
    channels: map<ChannelId, Channel>, members: map<User, Authority>, expiry: map<ChannelId, Schedule>)

  ghost function Members(v: Version, c: ChannelId): set<User> {
    set u | u in v.members && v.members[u].channel == c
  }

  predicate Temporary(v: Version, c: ChannelId) {
    c in v.channels && v.channels[c].temporary
  }

  predicate Armed(v: Version, c: ChannelId) {
    c in v.expiry && v.expiry[c].deadline > 0
  }

  // ----- The candidate's runtime fields -----

  function Generation(v: Version, c: ChannelId): nat {
    if c in v.expiry then v.expiry[c].generation else 0
  }

  function Arm(v: Version, c: ChannelId, now: int): Version {
    v.(expiry := v.expiry[c := Schedule(Generation(v, c) + 1, now + GRACE)])
  }

  // ClearTemporaryExpiry: a schedule of a temporary channel keeps counting.
  function Clear(v: Version, c: ChannelId): Version {
    if !Temporary(v, c) || !v.channels[c].voice then v.(expiry := v.expiry - {c})
    else if c !in v.expiry then v
    else v.(expiry := v.expiry[c := Schedule(v.expiry[c].generation + 1, 0)])
  }

  function SetMember(v: Version, u: User, a: Option<Authority>): Version {
    v.(members := if a.Some? then v.members[u := a.value] else v.members - {u})
  }

  // ----- Commands -----

  /** Clear the schedule, then arm it again if the channel stands empty. */
  ghost function Settle(v: Version, c: ChannelId, now: int): Version {
    if Temporary(v, c) && Members(v, c) == {} then Arm(Clear(v, c), c, now) else Clear(v, c)
  }

  ghost predicate Full(v: Version, u: User, c: ChannelId)
    requires c in v.channels
  {
    |Members(v, c)| >= v.channels[c].capacity && !(u in v.members && v.members[u].channel == c)
  }

  /** The version a join publishes, or None when it is refused. */
  ghost function Join(v: Version, u: User, a: Authority, now: int): Option<Version> {
    var c := a.channel;
    if c !in v.channels || !v.channels[c].voice || Full(v, u, c) then None
    else
      var joined := SetMember(v, u, Some(a));
      var cleared := if v.channels[c].temporary then Clear(joined, c) else joined;
      if u in v.members && v.members[u].channel != c && Temporary(v, v.members[u].channel) then
        var old' := v.members[u].channel;
        Some(if Members(cleared, old') == {} then Arm(cleared, old', now) else Clear(cleared, old'))
      else Some(cleared)
  }

  /** A voluntary leave; held is the authority the coordinator has. */
  ghost function Leave(v: Version, u: User, held: Authority, now: int): Option<Version> {
    if held.channel !in v.channels then None
    else
      var left := SetMember(v, u, None);
      Some(if v.channels[held.channel].temporary && |Members(v, held.channel)| <= 1 then Arm(left, held.channel, now) else left)
  }

  /** The projection that follows a coordinator teardown or an account teardown. */
  ghost function Project(v: Version, u: User, previous: Authority, now: int): Version {
    var left := SetMember(v, u, None);
    if previous.channel in v.channels then Settle(left, previous.channel, now) else left
  }

  // One round of the access-loss loop; cleared lists the channels already cleared.
  ghost function LoseOne(v: Version, u: User, cleared: set<ChannelId>, hadSchedule: bool, now: int): Version
    requires u in v.members
  {
    var c := v.members[u].channel;
    var left := SetMember(v, u, None);
    if c !in v.channels then left
    else
      var v1 := if (v.channels[c].temporary || hadSchedule) && c !in cleared then Clear(left, c) else left;
      if v.channels[c].temporary && Members(v1, c) == {} then Arm(v1, c, now) else v1
  }

  /** PrepareVoiceAccessLoss: the lost users leave in order. */
  ghost function LoseAccess(base: Version, v: Version, lost: seq<User>, cleared: set<ChannelId>, now: int): Version
    decreases |lost|
  {
    if lost == [] then v
    else if lost[0] !in v.members then LoseAccess(base, v, lost[1..], cleared, now)
    else
      var c := v.members[lost[0]].channel;
      var v' := LoseOne(v, lost[0], cleared, c in base.expiry, now);
      LoseAccess(base, v', lost[1..], if c in v.channels && (Temporary(v, c) || c in base.expiry) then cleared + {c} else cleared, now)
  }

  /** BuildPersistentCandidate: new rows, old runtime fields, no schedule of a
      channel that is gone. */
  function Rebuild(v: Version, channels: map<ChannelId, Channel>): Version {
    Version(channels, v.members, map c | c in v.expiry && c in channels :: v.expiry[c])
  }

  // ----- What every published version keeps -----

  /** Occupied and unarmed, or empty and armed. */
  ghost predicate Settled(v: Version, c: ChannelId) {
    Armed(v, c) <==> Temporary(v, c) && Members(v, c) == {}
  }

  ghost predicate Shaped(v: Version) {
    && (forall c | c in v.channels ::
          && 1 <= v.channels[c].capacity <= MAX_CAPACITY && (v.channels[c].temporary ==> v.channels[c].voice)
          && |Members(v, c)| <= v.channels[c].capacity)
    && (forall c :: Settled(v, c))
  }

  ghost predicate Housed(v: Version) {
    forall u | u in v.members :: v.members[u].channel in v.channels && v.channels[v.members[u].channel].voice
  }

  ghost predicate Good(v: Version) {
    Shaped(v) && Housed(v)
  }

  // ----- Small steps -----

  lemma RemoveMember(v: Version, u: User)
    ensures forall c :: Members(SetMember(v, u, None), c) == Members(v, c) - {u}
  {}

  lemma AddMember(v: Version, u: User, a: Authority)
    ensures forall c ::
      Members(SetMember(v, u, Some(a)), c) == if c == a.channel then Members(v, c) + {u} else Members(v, c) - {u}
  {}

  lemma SameMembers(v: Version, w: Version)
    requires v.members == w.members
    ensures forall c :: Members(v, c) == Members(w, c)
  {}

  lemma ClearDisarms(v: Version, c: ChannelId)
    ensures !Armed(Clear(v, c), c)
    ensures forall d | d != c :: Armed(Clear(v, c), d) == Armed(v, d)
    ensures Clear(v, c).channels == v.channels && Clear(v, c).members == v.members
  {}

  lemma ArmArms(v: Version, c: ChannelId, now: int)
    requires now >= 0
    ensures Armed(Arm(v, c, now), c)
    ensures forall d | d != c :: Armed(Arm(v, c, now), d) == Armed(v, d)
    ensures Arm(v, c, now).channels == v.channels && Arm(v, c, now).members == v.members
  {}

  /** Settling a channel settles it whatever its schedule was. */
  lemma SettleSettles(v: Version, c: ChannelId, now: int)
    requires now >= 0
    ensures var w := Settle(v, c, now);
      && Settled(w, c) && (forall d | d != c :: Armed(w, d) == Armed(v, d))
      && w.channels == v.channels && w.members == v.members
  {
    ClearDisarms(v, c);
    ArmArms(Clear(v, c), c, now);
    SameMembers(v, Settle(v, c, now));
  }

  // ----- Each command publishes a good version -----

  // What a join does to the timers.
  lemma JoinArmed(v: Version, u: User, a: Authority, now: int)
    requires now >= 0 && Join(v, u, a, now).Some?
    ensures
      var w, joined := Join(v, u, a, now).value, SetMember(v, u, Some(a));
      && w.channels == v.channels && w.members == joined.members
      && (v.channels[a.channel].temporary ==> !Armed(w, a.channel))
      && (forall d | d != a.channel ::
            Armed(w, d) <==> if u in v.members && v.members[u].channel == d && Temporary(v, d) then Members(joined, d) == {} else Armed(v, d))
      && (!v.channels[a.channel].temporary ==> Armed(w, a.channel) == Armed(v, a.channel))
  {
    var joined := SetMember(v, u, Some(a));
    var cleared := if v.channels[a.channel].temporary then Clear(joined, a.channel) else joined;
    ClearDisarms(joined, a.channel);
    SameMembers(joined, cleared);
    if u in v.members && v.members[u].channel != a.channel {
      ClearDisarms(cleared, v.members[u].channel);
      ArmArms(cleared, v.members[u].channel, now);
    }
    hide Members, Clear, Arm, Full;
  }

  lemma JoinGood(v: Version, u: User, a: Authority, now: int)
    requires Good(v) && now >= 0 && Join(v, u, a, now).Some?
    ensures Good(Join(v, u, a, now).value)
  {
    var w := Join(v, u, a, now).value;
    assert a.channel in v.channels && v.channels[a.channel].voice && !Full(v, u, a.channel);
    hide Join, Full;
    JoinArmed(v, u, a, now);
    SameMembers(SetMember(v, u, Some(a)), w);
    forall d | d in w.channels ensures |Members(w, d)| <= w.channels[d].capacity {
      JoinFits(v, u, a, d);
    }
    forall d ensures Settled(w, d) { JoinSettled(v, u, a, now, d); }
  }

  lemma JoinSettled(v: Version, u: User, a: Authority, now: int, d: ChannelId)
    requires Good(v) && now >= 0 && Join(v, u, a, now).Some?
    ensures Settled(Join(v, u, a, now).value, d)
  {
    var w := Join(v, u, a, now).value;
    JoinArmed(v, u, a, now);
    assert a.channel in v.channels;
    hide Join;
    SameMembers(SetMember(v, u, Some(a)), w);
    AddMember(v, u, a);
    assert Settled(v, d);
    assert u in Members(w, a.channel);
    assert u in Members(v, d) <==> u in v.members && v.members[u].channel == d;
    assert u !in Members(v, d) ==> Members(v, d) - {u} == Members(v, d);
    hide Members;
  }

  lemma JoinFits(v: Version, u: User, a: Authority, d: ChannelId)
    requires Shaped(v) && a.channel in v.channels && !Full(v, u, a.channel) && d in v.channels
    ensures |Members(SetMember(v, u, Some(a)), d)| <= v.channels[d].capacity
  {
    AddMember(v, u, a);
    assert u in Members(v, d) ==> |Members(v, d) - {u}| == |Members(v, d)| - 1;
    assert u in Members(v, a.channel) ==> Members(v, a.channel) + {u} == Members(v, a.channel);
    assert u !in Members(v, d) ==> Members(v, d) - {u} == Members(v, d);
  }

  lemma LeaveGood(v: Version, u: User, held: Authority, now: int)
    requires Good(v) && now >= 0 && u in v.members && v.members[u] == held
    ensures Leave(v, u, held, now).Some?
    ensures var w := Leave(v, u, held, now).value; Good(w) && w.channels == v.channels && w.members == v.members - {u}
  {
    var w := Leave(v, u, held, now).value;
    var left := SetMember(v, u, None);
    var c := held.channel;
    ArmArms(left, c, now);
    LastMember(v, u);
    SameMembers(left, w);
    assert Settled(v, c);
    hide Members, Arm;
    OneLeft(v, w, u);
  }

  lemma LastMember(v: Version, u: User)
    requires u in v.members
    ensures
      var c := v.members[u].channel;
      Members(v, c) != {} && (|Members(v, c)| <= 1 <==> Members(SetMember(v, u, None), c) == {})
  {
    var c := v.members[u].channel;
    RemoveMember(v, u);
    assert u in Members(v, c);
    assert |Members(v, c) - {u}| == |Members(v, c)| - 1;
  }

  // A version in which only u has left and its channel was settled again.
  lemma OneLeft(v: Version, w: Version, u: User)
    requires Shaped(v) && u in v.members && w.channels == v.channels && w.members == v.members - {u}
    requires Settled(w, v.members[u].channel)
    requires forall d | d != v.members[u].channel :: Armed(w, d) == Armed(v, d)
    ensures Shaped(w) && (Housed(v) ==> Housed(w))
  {
    RemoveMember(v, u);
    SameMembers(SetMember(v, u, None), w);
    ShrunkFits(v, w);
    var c := v.members[u].channel;
    forall d ensures Settled(w, d) {
      assert Settled(v, d);
      assert d != c ==> Members(v, d) - {u} == Members(v, d);
    }
  }

  lemma ProjectGood(v: Version, u: User, previous: Authority, now: int)
    requires Good(v) && now >= 0 && u in v.members && v.members[u] == previous
    ensures Good(Project(v, u, previous, now))
  {
    var left := SetMember(v, u, None);
    SettleSettles(left, previous.channel, now);
    hide Settle, Members;
    OneLeft(v, Project(v, u, previous, now), u);
  }

  lemma ShrunkFits(v: Version, w: Version)
    requires Shaped(v) && w.channels == v.channels && forall c :: Members(w, c) <= Members(v, c)
    ensures forall c | c in w.channels :: |Members(w, c)| <= w.channels[c].capacity
  {
    forall c | c in w.channels ensures |Members(w, c)| <= w.channels[c].capacity {
      assert Members(v, c) == Members(w, c) + (Members(v, c) - Members(w, c));
    }
  }

  lemma LoseOneArmed(v: Version, u: User, cleared: set<ChannelId>, hadSchedule: bool, now: int)
    requires now >= 0 && u in v.members
    ensures
      var w, left := LoseOne(v, u, cleared, hadSchedule, now), SetMember(v, u, None);
      var c := v.members[u].channel;
      && w.channels == v.channels && w.members == left.members
      && (forall d | d != c :: Armed(w, d) == Armed(v, d))
      && (Temporary(v, c) && Members(left, c) == {} ==> Armed(w, c))
      && (!(Temporary(v, c) && Members(left, c) == {}) && !Armed(v, c) ==> !Armed(w, c))
  {
    var left := SetMember(v, u, None);
    var c := v.members[u].channel;
    ClearDisarms(left, c);
    ArmArms(left, c, now);
    ArmArms(Clear(left, c), c, now);
    SameMembers(left, Clear(left, c));
    hide Members, Clear, Arm;
  }

  /** Each round of the access-loss loop leaves every channel settled. */
  lemma LoseOneShaped(v: Version, u: User, cleared: set<ChannelId>, hadSchedule: bool, now: int)
    requires Shaped(v) && now >= 0 && u in v.members
    ensures
      var w := LoseOne(v, u, cleared, hadSchedule, now);
      Shaped(w) && w.channels == v.channels && w.members == v.members - {u}
  {
    var w := LoseOne(v, u, cleared, hadSchedule, now);
    LoseOneArmed(v, u, cleared, hadSchedule, now);
    SameMembers(SetMember(v, u, None), w);
    LastMember(v, u);
    assert Settled(v, v.members[u].channel);
    hide LoseOne, Members;
    OneLeft(v, w, u);
  }

  lemma {:induction false} LoseAccessShaped(base: Version, v: Version, lost: seq<User>, cleared: set<ChannelId>, now: int)
    requires Shaped(v) && now >= 0
    ensures
      var w := LoseAccess(base, v, lost, cleared, now);
      && Shaped(w) && w.channels == v.channels
      && (forall u :: u in w.members <==> u in v.members && u !in lost)
      && (forall u | u in w.members :: w.members[u] == v.members[u])
    decreases |lost|
  {
    hide Shaped, LoseOne;
    if lost != [] {
      if lost[0] !in v.members {
        LoseAccessShaped(base, v, lost[1..], cleared, now);
      } else {
        var c := v.members[lost[0]].channel;
        LoseOneShaped(v, lost[0], cleared, c in base.expiry, now);
        LoseAccessShaped(base, LoseOne(v, lost[0], cleared, c in base.expiry, now), lost[1..],
                         if c in v.channels && (Temporary(v, c) || c in base.expiry) then cleared + {c} else cleared, now);
      }
      assert forall u :: u in lost <==> u == lost[0] || u in lost[1..];
    }
  }

  /** Everyone whose channel is gone loses access. */
  ghost predicate Covers(lost: seq<User>, v: Version, channels: map<ChannelId, Channel>) {
    forall u | u in v.members && v.members[u].channel !in channels :: u in lost
  }

  lemma LoseAccessGood(base: Version, v: Version, lost: seq<User>, now: int)
    requires Shaped(v) && now >= 0 && Covers(lost, v, v.channels)
    requires forall u | u in v.members && v.members[u].channel in v.channels :: v.channels[v.members[u].channel].voice
    ensures Good(LoseAccess(base, v, lost, {}, now))
  {
    LoseAccessShaped(base, v, lost, {}, now);
  }

  // ----- Persistent mutations -----

  datatype Mutation =
    | CreateChannel(c: ChannelId, channel: Channel)
    | UpdateChannel(c: ChannelId, capacity: int)
    | DeleteChannel(c: ChannelId)
    | ExpireTemporary(c: ChannelId, generation: nat, deadline: int)
    | ChangeAccess

  /** The check each command makes before it writes. */
  ghost predicate Permitted(v: Version, m: Mutation, now: int) {
    match m
    case CreateChannel(c, channel) =>
      1 <= channel.capacity <= MAX_CAPACITY && (channel.temporary ==> channel.voice)
    case UpdateChannel(c, capacity) =>
      && c in v.channels && 1 <= capacity <= MAX_CAPACITY
      && !(capacity < v.channels[c].capacity && capacity < |Members(v, c)|)
    case DeleteChannel(c) => c in v.channels
    case ExpireTemporary(c, generation, deadline) =>
      && c in v.expiry && Temporary(v, c) && v.expiry[c] == Schedule(generation, deadline)
      && |Members(v, c)| == 0 && now >= deadline
    case ChangeAccess => true
  }

  ghost function Rows(v: Version, m: Mutation): map<ChannelId, Channel> {
    match m
    case CreateChannel(c, channel) => v.channels[c := channel]
    case UpdateChannel(c, capacity) => if c in v.channels then v.channels[c := v.channels[c].(capacity := capacity)] else v.channels
    case DeleteChannel(c) => v.channels - {c}
    case ExpireTemporary(c, _, _) => v.channels - {c}
    case ChangeAccess => v.channels
  }

  ghost function Mutate(v: Version, m: Mutation, lost: seq<User>, now: int): Version {
    var built := Rebuild(v, Rows(v, m));
    var armed := if m.CreateChannel? && m.channel.temporary then Arm(built, m.c, now) else built;
    LoseAccess(v, armed, lost, {}, now)
  }

  lemma MutateGood(v: Version, m: Mutation, lost: seq<User>, now: int)
    requires Good(v) && now >= 0 && Permitted(v, m, now) && (m.CreateChannel? ==> m.c !in v.channels)
    requires Covers(lost, v, Rows(v, m))
    ensures Good(Mutate(v, m, lost, now))
  {
    var built := Rebuild(v, Rows(v, m));
    var armed := if m.CreateChannel? && m.channel.temporary then Arm(built, m.c, now) else built;
    SameMembers(v, built);
    SameMembers(v, armed);
    if m.CreateChannel? {
      assert forall u | u in v.members :: v.members[u].channel != m.c;
      assert Members(v, m.c) == {};
      ArmArms(built, m.c, now);
    }
    assert forall d :: Armed(built, d) <==> Armed(v, d) && d in built.channels;
    hide Members, Arm, Rebuild;
    forall d ensures Settled(armed, d) { assert Settled(v, d); }
    LoseAccessGood(v, armed, lost, now);
  }

  // ----- The server -----

  /** restoring lists the temporary channels startup has yet to arm; used lists
      every channel id ever seen, so that created ids are new. */
  datatype State = State(
    v: Version, coordinator: map<User, Authority>, restoring: set<ChannelId>, used: set<ChannelId>, stamps: nat)

  /** A teardown is published only after the coordinator dropped that authority. */
  datatype Action =
    | Restore(c: ChannelId, now: int)
    | JoinVoice(u: User, c: ChannelId, now: int)
    | LeaveVoice(u: User, now: int)
    | CoordinatorDrops(u: User)
    | PublishTeardown(u: User, previous: Authority, now: int)
    | TearDownAccount(u: User, now: int)
    | Persist(m: Mutation, lost: seq<User>, now: int)

  ghost predicate CanAct(s: State, a: Action) {
    match a
    case Restore(c, now) => c in s.restoring && now >= 0
    case JoinVoice(u, c, now) => s.restoring == {} && now >= 0
    case LeaveVoice(u, now) => s.restoring == {} && now >= 0 && u in s.coordinator
    case CoordinatorDrops(u) => true
    case PublishTeardown(u, previous, now) =>
      s.restoring == {} && now >= 0 && !(u in s.coordinator && s.coordinator[u] == previous)
    case TearDownAccount(u, now) => s.restoring == {} && now >= 0
    case Persist(m, lost, now) =>
      && s.restoring == {} && now >= 0 && (m.CreateChannel? ==> m.c !in s.used)
      && Covers(lost, s.v, Rows(s.v, m))
  }

  // The authority an account teardown starts from: the coordinator's, or else the published one.
  ghost function Previous(s: State, u: User): Option<Authority> {
    if u in s.coordinator then Some(s.coordinator[u]) else if u in s.v.members then Some(s.v.members[u]) else None
  }

  ghost function Act(s: State, a: Action): State
    requires CanAct(s, a)
  {
    match a
    case Restore(c, now) => s.(v := Arm(s.v, c, now), restoring := s.restoring - {c})
    case JoinVoice(u, c, now) =>
      var joined := Join(s.v, u, Authority(c, s.stamps), now);
      if joined.Some?
      then s.(v := joined.value, coordinator := s.coordinator[u := Authority(c, s.stamps)], stamps := s.stamps + 1) else s
    case LeaveVoice(u, now) =>
      var left := Leave(s.v, u, s.coordinator[u], now);
      if left.Some? then s.(v := left.value, coordinator := s.coordinator - {u}) else s
    case CoordinatorDrops(u) => s.(coordinator := s.coordinator - {u})
    case PublishTeardown(u, previous, now) =>
      if u in s.v.members && s.v.members[u] == previous then s.(v := Project(s.v, u, previous, now)) else s
    case TearDownAccount(u, now) =>
      var previous := Previous(s, u);
      s.(v := if previous.Some? then Project(s.v, u, previous.value, now) else SetMember(s.v, u, None),
         coordinator := s.coordinator - {u})
    case Persist(m, lost, now) =>
      if Permitted(s.v, m, now)
      then s.(v := Mutate(s.v, m, lost, now), used := s.used + Rows(s.v, m).Keys,
              coordinator := map u | u in s.coordinator && u !in lost :: s.coordinator[u])
      else s
  }

  // During startup nobody is in any channel and the restored ones are armed.
  ghost predicate Restoring(s: State) {
    && s.v.members == map[] && s.coordinator == map[]
    && (forall c | c in s.v.channels ::
          1 <= s.v.channels[c].capacity <= MAX_CAPACITY && (s.v.channels[c].temporary ==> s.v.channels[c].voice))
    && (forall c :: Armed(s.v, c) <==> Temporary(s.v, c) && c !in s.restoring)
    && (forall c | c in s.restoring :: Temporary(s.v, c))
  }

  ghost predicate Inv(s: State) {
    && (if s.restoring == {} then Good(s.v) else Restoring(s))
    && (forall u | u in s.coordinator :: u in s.v.members && s.v.members[u] == s.coordinator[u])
    && s.v.channels.Keys <= s.used
  }

  /** A start: persisted channels, no runtime state. */
  ghost predicate Init(s: State) {
    && s.v.members == map[] && s.v.expiry == map[] && s.coordinator == map[]
    && (forall c | c in s.v.channels ::
          1 <= s.v.channels[c].capacity <= MAX_CAPACITY && (s.v.channels[c].temporary ==> s.v.channels[c].voice))
    && s.restoring == (set c | c in s.v.channels && s.v.channels[c].temporary)
    && s.used == s.v.channels.Keys
  }

  lemma RestoringDone(s: State)
    requires Restoring(s) && s.restoring == {}
    ensures Good(s.v)
  {
    assert forall c :: Members(s.v, c) == {};
  }

  lemma InitInv(s: State)
    requires Init(s)
    ensures Inv(s)
  {
    if s.restoring == {} { RestoringDone(s); }
  }

  lemma RestoreInv(s: State, c: ChannelId, now: int)
    requires Inv(s) && CanAct(s, Restore(c, now))
    ensures Inv(Act(s, Restore(c, now)))
  {
    var s' := Act(s, Restore(c, now));
    ArmArms(s.v, c, now);
    assert Restoring(s') by { hide Arm; }
    if s'.restoring == {} { RestoringDone(s'); }
  }

  lemma ActInv(s: State, a: Action)
    requires Inv(s) && CanAct(s, a)
    ensures Inv(Act(s, a))
  {
    hide Good, Restoring, Arm, Permitted, Covers, LoseAccess;
    match a
    case Restore(c, now) => RestoreInv(s, c, now);
    case JoinVoice(u, c, now) =>
      var x := Authority(c, s.stamps);
      if Join(s.v, u, x, now).Some? {
        JoinGood(s.v, u, x, now);
        JoinArmed(s.v, u, x, now);
      }
    case LeaveVoice(u, now) => LeaveGood(s.v, u, s.coordinator[u], now);
    case CoordinatorDrops(u) => if s.restoring != {} { DropWhileRestoring(s, u); }
    case PublishTeardown(u, previous, now) =>
      if u in s.v.members && s.v.members[u] == previous { ProjectStep(s.v, u, previous, now); }
    case TearDownAccount(u, now) =>
      if Previous(s, u).Some? {
        ProjectStep(s.v, u, Previous(s, u).value, now);
      } else {
        assert SetMember(s.v, u, None) == s.v;
      }
    case Persist(m, lost, now) =>
      if Permitted(s.v, m, now) { MutateStep(s, m, lost, now); }
  }

  lemma DropWhileRestoring(s: State, u: User)
    requires Restoring(s)
    ensures Restoring(s.(coordinator := s.coordinator - {u}))
  {
    assert s.coordinator - {u} == s.coordinator;
  }

  lemma ProjectStep(v: Version, u: User, previous: Authority, now: int)
    requires Good(v) && now >= 0 && u in v.members && v.members[u] == previous
    ensures
      var w := Project(v, u, previous, now);
      Good(w) && w.channels == v.channels && w.members == v.members - {u}
  {
    ProjectGood(v, u, previous, now);
    SettleSettles(SetMember(v, u, None), previous.channel, now);
  }

  lemma MutateStep(s: State, m: Mutation, lost: seq<User>, now: int)
    requires Good(s.v) && now >= 0 && Permitted(s.v, m, now) && (m.CreateChannel? ==> m.c !in s.used)
    requires Covers(lost, s.v, Rows(s.v, m)) && s.v.channels.Keys <= s.used
    ensures
      var w := Mutate(s.v, m, lost, now);
      && Good(w) && w.channels == Rows(s.v, m)
      && (forall u :: u in w.members <==> u in s.v.members && u !in lost)
      && (forall u | u in w.members :: w.members[u] == s.v.members[u])
  {
    MutateGood(s.v, m, lost, now);
    var built := Rebuild(s.v, Rows(s.v, m));
    var armed := if m.CreateChannel? && m.channel.temporary then Arm(built, m.c, now) else built;
    hide Good, Rows;
    LoseAccessMembers(s.v, armed, lost, {}, now);
  }

  lemma {:induction false} LoseAccessMembers(base: Version, v: Version, lost: seq<User>, cleared: set<ChannelId>, now: int)
    ensures
      var w := LoseAccess(base, v, lost, cleared, now);
      && w.channels == v.channels
      && (forall u :: u in w.members <==> u in v.members && u !in lost)
      && (forall u | u in w.members :: w.members[u] == v.members[u])
    decreases |lost|
  {
    if lost != [] {
      if lost[0] !in v.members {
        LoseAccessMembers(base, v, lost[1..], cleared, now);
      } else {
        var c := v.members[lost[0]].channel;
        LoseAccessMembers(base, LoseOne(v, lost[0], cleared, c in base.expiry, now), lost[1..],
                          if c in v.channels && (Temporary(v, c) || c in base.expiry) then cleared + {c} else cleared, now);
      }
      assert forall u :: u in lost <==> u == lost[0] || u in lost[1..];
    }
  }

  // ----- Whole runs -----

  ghost predicate Reaches(s: State, actions: seq<Action>, s': State)
    decreases |actions|
  {
    if actions == [] then s == s' else CanAct(s, actions[0]) && Reaches(Act(s, actions[0]), actions[1..], s')
  }

  lemma {:induction false} ReachesInv(s: State, actions: seq<Action>, s': State)
    requires Inv(s) && Reaches(s, actions, s')
    ensures Inv(s')
    decreases |actions|
  {
    hide Inv, Act, CanAct;
    if actions != [] {
      ActInv(s, actions[0]);
      ReachesInv(Act(s, actions[0]), actions[1..], s');
    }
  }

  /** In every published version no channel holds more members than its capacity;
      once startup has restored the timers, a temporary channel is armed exactly
      while it is empty, so an expiry never deletes an occupied channel. */
  lemma OccupancyIsSound(s0: State, actions: seq<Action>, s: State)
    requires Init(s0) && Reaches(s0, actions, s)
    ensures forall c | c in s.v.channels :: |Members(s.v, c)| <= s.v.channels[c].capacity
    ensures s.restoring == {} ==> forall c | Temporary(s.v, c) :: Armed(s.v, c) <==> Members(s.v, c) == {}
    ensures s.restoring == {} ==> forall u | u in s.v.members :: s.v.members[u].channel in s.v.channels
  {
    InitInv(s0);
    hide Init;
    ReachesInv(s0, actions, s);
    if s.restoring != {} { assert forall c :: Members(s.v, c) == {}; }
    if s.restoring == {} {
      forall c | Temporary(s.v, c) ensures Armed(s.v, c) <==> Members(s.v, c) == {} {
        assert Settled(s.v, c);
      }
    }
  }

  // ----- When commands are accepted -----

  /** In a published version a join of a voice channel is accepted if and only if the
      channel then holds no more members than its capacity; afterwards the user is a
      member there and nobody else has moved. */
  lemma JoinAcceptedIff(v: Version, u: User, a: Authority, now: int)
    requires Good(v) && now >= 0
    ensures Join(v, u, a, now).Some? <==>
      a.channel in v.channels && v.channels[a.channel].voice && |Members(v, a.channel) + {u}| <= v.channels[a.channel].capacity
    ensures Join(v, u, a, now).Some? ==> Join(v, u, a, now).value.members == v.members[u := a]
  {
    if a.channel in v.channels {
      if u in v.members && v.members[u].channel == a.channel {
        assert u in Members(v, a.channel);
        assert Members(v, a.channel) + {u} == Members(v, a.channel);
      } else {
        assert u !in Members(v, a.channel);
        assert |Members(v, a.channel) + {u}| == |Members(v, a.channel)| + 1;
      }
    }
    if Join(v, u, a, now).Some? { JoinArmed(v, u, a, now); }
  }

  /** A new capacity is accepted if and only if it is in range and the present members
      fit into it. */
  lemma ResizeAcceptedIff(v: Version, c: ChannelId, capacity: int, now: int)
    requires Good(v)
    ensures Permitted(v, UpdateChannel(c, capacity), now) <==>
      c in v.channels && 1 <= capacity <= MAX_CAPACITY && |Members(v, c)| <= capacity
  {}

  /** In every reachable version a current timer that is due deletes its channel: the
      check for members never stops it. */
  lemma DueTimerDeletes(s0: State, actions: seq<Action>, s: State, c: ChannelId, timer: Schedule, lost: seq<User>, now: int)
    requires Init(s0) && Reaches(s0, actions, s) && s.restoring == {} && now >= 0
    requires Temporary(s.v, c) && c in s.v.expiry && s.v.expiry[c] == timer && timer.deadline > 0
    ensures Permitted(s.v, ExpireTemporary(c, timer.generation, timer.deadline), now) <==> now >= timer.deadline
    ensures
      var m := ExpireTemporary(c, timer.generation, timer.deadline);
      now >= timer.deadline && CanAct(s, Persist(m, lost, now)) ==> c !in Act(s, Persist(m, lost, now)).v.channels
  {
    hide Init;
    OccupancyIsSound(s0, actions, s);
    assert Armed(s.v, c) && Members(s.v, c) == {};
    assert Schedule(timer.generation, timer.deadline) == timer;
    var m := ExpireTemporary(c, timer.generation, timer.deadline);
    hide Reaches;
    if now >= timer.deadline && CanAct(s, Persist(m, lost, now)) {
      LoseAccessMembers(s.v, Rebuild(s.v, Rows(s.v, m)), lost, {}, now);
    }
  }

  /** When the last member of a temporary channel leaves at `now`, the channel expires
      from thirty seconds later on and not before. */
  lemma GraceAfterLastLeave(v: Version, u: User, held: Authority, now: int, later: int)
    requires Good(v) && now >= 0 && u in v.members && v.members[u] == held
    requires Members(v, held.channel) == {u} && Temporary(v, held.channel)
    ensures
      var w := Leave(v, u, held, now).value;
      && held.channel in w.expiry
      && (Permitted(w, ExpireTemporary(held.channel, w.expiry[held.channel].generation, w.expiry[held.channel].deadline), later) <==>
            later >= now + 30_000)
  {
    LeaveGood(v, u, held, now);
    var w := Leave(v, u, held, now).value;
    RemoveMember(v, u);
    SameMembers(SetMember(v, u, None), w);
    assert Members(w, held.channel) == {};
    assert |Members(v, held.channel)| <= 1;
  }

  // ----- Timers that were overtaken -----

  /** While a temporary channel lives its schedule keeps or gains generations. */
  ghost predicate Newer(v: Version, w: Version) {
    forall c | c in v.expiry && Temporary(v, c) && c in w.channels :: NewerAt(v, w, c)
  }

  ghost predicate NewerAt(v: Version, w: Version, c: ChannelId)
    requires c in v.expiry
  {
    Temporary(w, c) && c in w.expiry && (w.expiry[c] == v.expiry[c] || w.expiry[c].generation > v.expiry[c].generation)
  }

  lemma NewerTrans(v: Version, w: Version, x: Version)
    requires Newer(v, w) && Newer(w, x) && x.channels.Keys <= w.channels.Keys
    ensures Newer(v, x)
  {
    forall c | c in v.expiry && Temporary(v, c) && c in x.channels ensures NewerAt(v, x, c) {
      assert NewerAt(v, w, c) && NewerAt(w, x, c);
    }
  }

  ghost predicate VoiceOnly(v: Version) {
    forall c | c in v.channels && v.channels[c].temporary :: v.channels[c].voice
  }

  lemma TouchNewer(v: Version, c: ChannelId, now: int)
    requires VoiceOnly(v)
    ensures Newer(v, Arm(v, c, now)) && Newer(v, Clear(v, c)) && Newer(v, Arm(Clear(v, c), c, now))
  {}

  lemma MemberNewer(v: Version, u: User, a: Option<Authority>)
    ensures Newer(v, SetMember(v, u, a))
  {}

  lemma JoinNewer(v: Version, u: User, a: Authority, now: int)
    requires VoiceOnly(v) && Join(v, u, a, now).Some?
    ensures Newer(v, Join(v, u, a, now).value)
  {
    var joined := SetMember(v, u, Some(a));
    var cleared := if v.channels[a.channel].temporary then Clear(joined, a.channel) else joined;
    MemberNewer(v, u, Some(a));
    TouchNewer(joined, a.channel, now);
    assert cleared.channels == v.channels;
    hide Newer, Arm, Members;
    NewerTrans(v, joined, cleared) by { assert Newer(joined, cleared) by { if cleared == joined { SelfNewer(joined); } } }
    if u in v.members && v.members[u].channel != a.channel && Temporary(v, v.members[u].channel) {
      TouchNewer(cleared, v.members[u].channel, now);
      NewerTrans(v, cleared, Join(v, u, a, now).value) by { ArmSame(cleared, v.members[u].channel, now); }
    }
  }

  lemma SelfNewer(v: Version)
    ensures Newer(v, v)
  {}

  lemma ArmSame(v: Version, c: ChannelId, now: int)
    ensures Arm(v, c, now).channels == v.channels && Clear(v, c).channels == v.channels
    ensures Arm(v, c, now).members == v.members && Clear(v, c).members == v.members
  {}

  lemma LeaveNewer(v: Version, u: User, held: Authority, now: int)
    requires VoiceOnly(v) && Leave(v, u, held, now).Some?
    ensures Newer(v, Leave(v, u, held, now).value)
  {
    hide Members;
  }

  lemma ProjectNewer(v: Version, u: User, previous: Authority, now: int)
    requires VoiceOnly(v)
    ensures Newer(v, Project(v, u, previous, now))
  {
    var left := SetMember(v, u, None);
    MemberNewer(v, u, None);
    TouchNewer(left, previous.channel, now);
    hide Members;
  }

  lemma {:induction false} LoseAccessNewer(base: Version, v: Version, lost: seq<User>, cleared: set<ChannelId>, now: int)
    requires VoiceOnly(v)
    ensures Newer(v, LoseAccess(base, v, lost, cleared, now))
    decreases |lost|
  {
    if lost == [] {
      SelfNewer(v);
    } else if lost[0] !in v.members {
      LoseAccessNewer(base, v, lost[1..], cleared, now);
    } else {
      var c := v.members[lost[0]].channel;
      var v' := LoseOne(v, lost[0], cleared, c in base.expiry, now);
      var cleared' := if c in v.channels && (Temporary(v, c) || c in base.expiry) then cleared + {c} else cleared;
      LoseOneNewer(v, lost[0], cleared, c in base.expiry, now);
      hide Newer, LoseOne;
      LoseAccessNewer(base, v', lost[1..], cleared', now);
      LoseAccessMembers(base, v', lost[1..], cleared', now);
      NewerTrans(v, v', LoseAccess(base, v', lost[1..], cleared', now));
    }
  }

  lemma LoseOneNewer(v: Version, u: User, cleared: set<ChannelId>, hadSchedule: bool, now: int)
    requires VoiceOnly(v) && u in v.members
    ensures Newer(v, LoseOne(v, u, cleared, hadSchedule, now)) && LoseOne(v, u, cleared, hadSchedule, now).channels == v.channels
  {
    hide Members;
  }

  lemma MutateNewer(v: Version, m: Mutation, lost: seq<User>, now: int)
    requires VoiceOnly(v) && (m.CreateChannel? ==> m.c !in v.channels && (m.channel.temporary ==> m.channel.voice))
    ensures Newer(v, Mutate(v, m, lost, now))
  {
    var built := Rebuild(v, Rows(v, m));
    var armed := if m.CreateChannel? && m.channel.temporary then Arm(built, m.c, now) else built;
    assert Newer(v, armed) && VoiceOnly(armed);
    LoseAccessNewer(v, armed, lost, {}, now);
    LoseAccessMembers(v, armed, lost, {}, now);
    hide Newer, VoiceOnly, Rows;
    NewerTrans(v, armed, Mutate(v, m, lost, now));
  }

  lemma ActNewer(s: State, a: Action)
    requires Inv(s) && CanAct(s, a)
    ensures Newer(s.v, Act(s, a).v) && s.used <= Act(s, a).used
    ensures Act(s, a).v.channels.Keys * s.used <= s.v.channels.Keys
  {
    assert VoiceOnly(s.v);
    ActInv(s, a);
    hide Good, Restoring, VoiceOnly, Members, Newer, Arm, Clear, Permitted, LoseAccess;
    SelfNewer(s.v);
    match a
    case Restore(c, now) =>
      TouchNewer(s.v, c, now);
      ArmSame(s.v, c, now);
    case JoinVoice(u, c, now) =>
      if Join(s.v, u, Authority(c, s.stamps), now).Some? {
        JoinNewer(s.v, u, Authority(c, s.stamps), now);
        JoinArmed(s.v, u, Authority(c, s.stamps), now);
      }
    case LeaveVoice(u, now) =>
      LeaveGood(s.v, u, s.coordinator[u], now);
      LeaveNewer(s.v, u, s.coordinator[u], now);
    case CoordinatorDrops(u) =>
    case PublishTeardown(u, previous, now) =>
      if u in s.v.members && s.v.members[u] == previous {
        ProjectStep(s.v, u, previous, now);
        ProjectNewer(s.v, u, previous, now);
      }
    case TearDownAccount(u, now) =>
      MemberNewer(s.v, u, None);
      if Previous(s, u).Some? {
        ProjectStep(s.v, u, Previous(s, u).value, now);
        ProjectNewer(s.v, u, Previous(s, u).value, now);
      }
    case Persist(m, lost, now) =>
      if Permitted(s.v, m, now) {
        MutateStep(s, m, lost, now);
        CreatedVoice(s.v, m, now);
        MutateNewer(s.v, m, lost, now);
      }
  }

  lemma CreatedVoice(v: Version, m: Mutation, now: int)
    requires Permitted(v, m, now)
    ensures m.CreateChannel? && m.channel.temporary ==> m.channel.voice
  {}

  /** The timer's schedule is still the channel's, or was overtaken. */
  ghost predicate NotBefore(s: State, c: ChannelId, timer: Schedule) {
    && c in s.used
    && (c in s.v.channels ==>
          Temporary(s.v, c) && c in s.v.expiry && (s.v.expiry[c] == timer || s.v.expiry[c].generation > timer.generation))
  }

  ghost predicate Overtaken(s: State, c: ChannelId, timer: Schedule) {
    NotBefore(s, c, timer) && (c in s.v.channels ==> s.v.expiry[c] != timer)
  }

  lemma {:induction false} TimerAges(s: State, actions: seq<Action>, s': State, c: ChannelId, timer: Schedule)
    requires Inv(s) && Reaches(s, actions, s') && NotBefore(s, c, timer)
    ensures NotBefore(s', c, timer) && (Overtaken(s, c, timer) ==> Overtaken(s', c, timer))
    decreases |actions|
  {
    if actions != [] {
      ActInv(s, actions[0]);
      ActNewer(s, actions[0]);
      var t := Act(s, actions[0]);
      hide Inv, CanAct, Act;
      assert c in t.v.channels ==> NewerAt(s.v, t.v, c);
      TimerAges(t, actions[1..], s', c, timer);
    }
  }

  /** Once a channel's schedule differs from the one a timer was armed with, that
      timer can never again delete the channel, however late it fires. */
  lemma StaleTimerIsHarmless(
    s: State, before: seq<Action>, s1: State, after: seq<Action>, s2: State, c: ChannelId, timer: Schedule, now: int)
    requires Inv(s) && Temporary(s.v, c) && c in s.v.expiry && s.v.expiry[c] == timer
    requires Reaches(s, before, s1) && !(c in s1.v.expiry && s1.v.expiry[c] == timer && c in s1.v.channels)
    requires Reaches(s1, after, s2)
    ensures !Permitted(s2.v, ExpireTemporary(c, timer.generation, timer.deadline), now)
  {
    TimerAges(s, before, s1, c, timer);
    ReachesInv(s, before, s1);
    TimerAges(s1, after, s2, c, timer);
    assert Schedule(timer.generation, timer.deadline) == timer;
  }

  // ----- The candidate as the program changes it -----

  // The members of c outside todo.
  ghost function Seen(members: map<User, Authority>, todo: set<User>, c: ChannelId): set<User> {
    set u | u in members && u !in todo && members[u].channel == c
  }

  lemma SeenOneMore(members: map<User, Authority>, todo: set<User>, c: ChannelId, u: User)
    requires u in todo && u in members
    ensures |Seen(members, todo - {u}, c)| == |Seen(members, todo, c)| + if members[u].channel == c then 1 else 0
  {
    if members[u].channel == c {
      assert Seen(members, todo - {u}, c) == Seen(members, todo, c) + {u};
    } else {
      assert Seen(members, todo - {u}, c) == Seen(members, todo, c);
    }
  }

  class Candidate {
    const users: set<User>
    const channels: map<ChannelId, Channel>
    var members: map<User, Authority>
    var expiry: map<ChannelId, Schedule>

    ghost function View(): Version
      reads this
    {
      Version(channels, members, expiry)
    }

    constructor (users: set<User>, v: Version)
      ensures this.users == users && View() == v
    {
      this.users := users;
      channels, members, expiry := v.channels, v.members, v.expiry;
    }

    /** An authority needs an existing user and channel; zero names no user. */
    method SetVoiceAuthority(u: User, a: Option<Authority>) returns (ok: bool)
      modifies this
      ensures ok <==> u != 0 && (a.Some? ==> u in users && a.value.channel in channels)
      ensures View() == if ok then SetMember(old(View()), u, a) else old(View())
    {
      if u == 0 || (a.Some? && (u !in users || a.value.channel !in channels)) {
        return false;
      }
      ok := true;
      members := members - {u};
      if a.Some? {
        members := members[u := a.value];
        assert members == old(members)[u := a.value];
      }
    }

    method ScheduleTemporaryExpiry(c: ChannelId, now: int) returns (ok: bool)
      modifies this
      ensures ok <==> now + GRACE > 0 && Temporary(old(View()), c)
      ensures View() == if ok then Arm(old(View()), c, now) else old(View())
    {
      if now + GRACE <= 0 || c !in channels || !channels[c].temporary {
        return false;
      }
      var generation := if c in expiry then expiry[c].generation else 0;
      expiry := expiry[c := Schedule(generation + 1, now + GRACE)];
      return true;
    }

    /** Tells which armed schedule it took down, for its timer to be cancelled. */
    method ClearTemporaryExpiry(c: ChannelId) returns (cancelled: Option<Schedule>)
      modifies this
      ensures View() == Clear(old(View()), c)
      ensures cancelled == if Armed(old(View()), c) && old(expiry)[c].generation > 0 then Some(old(expiry)[c]) else None
    {
      cancelled := if c in expiry && expiry[c].generation > 0 && expiry[c].deadline > 0 then Some(expiry[c]) else None;
      if c !in channels || !channels[c].temporary || !channels[c].voice {
        expiry := expiry - {c};
      } else if c in expiry {
        expiry := expiry[c := Schedule(expiry[c].generation + 1, 0)];
      }
    }

    method ActiveChannelMembers(c: ChannelId) returns (count: nat)
      ensures count == |Members(View(), c)|
    {
      var todo := members.Keys;
      count := 0;
      assert Seen(members, todo, c) == {};
      assert Seen(members, {}, c) == Members(View(), c);
      hide Seen, Members;
      while todo != {}
        invariant todo <= members.Keys
        invariant count == |Seen(members, todo, c)|
        decreases |todo|
      {
        var u :| u in todo;
        SeenOneMore(members, todo, c, u);
        if members[u].channel == c {
          count := count + 1;
        }
        todo := todo - {u};
      }
    }

    /** The loop over the authorities that the candidate no longer allows. */
    method PrepareVoiceAccessLoss(base: Version, lost: seq<User>, now: int)
      requires Shaped(View()) && now >= 0 && 0 !in members
      modifies this
      ensures View() == LoseAccess(base, old(View()), lost, {}, now) && Shaped(View())
    {
      var cleared: set<ChannelId> := {};
      var i := 0;
      ghost var goal := LoseAccess(base, View(), lost, {}, now);
      assert lost[0..] == lost;
      hide Shaped, LoseOne;
      while i < |lost|
        invariant 0 <= i <= |lost| && Shaped(View()) && 0 !in members
        invariant LoseAccess(base, View(), lost[i..], cleared, now) == goal
      {
        assert lost[i..][0] == lost[i] && lost[i..][1..] == lost[i + 1..];
        if lost[i] in members {
          cleared := LoseMember(lost[i], base, cleared, now);
        }
        i := i + 1;
      }
    }

    method LoseMember(u: User, base: Version, cleared: set<ChannelId>, now: int) returns (cleared': set<ChannelId>)
      requires Shaped(View()) && now >= 0 && u in members && 0 !in members
      modifies this
      ensures Shaped(View()) && 0 !in members
      ensures View() == LoseOne(old(View()), u, cleared, old(members)[u].channel in base.expiry, now)
      ensures
        var c := old(members)[u].channel;
        cleared' == if c in channels && (Temporary(old(View()), c) || c in base.expiry) then cleared + {c} else cleared
    {
      var c := members[u].channel;
      cleared' := cleared;
      LoseOneShaped(View(), u, cleared, c in base.expiry, now);
      hide Shaped, Members, Clear;
      var removed := SetVoiceAuthority(u, None);
      if c in channels {
        if channels[c].temporary || c in base.expiry {
          if c !in cleared {
            var cancelled := ClearTemporaryExpiry(c);
            ArmSame(old(View()), c, now);
          }
          cleared' := cleared + {c};
          assert c in cleared ==> cleared' == cleared;
        }
        if channels[c].temporary {
          var count := ActiveChannelMembers(c);
          if count == 0 {
            var ok := ScheduleTemporaryExpiry(c, now);
          }
        }
      }
    }
  }
}
