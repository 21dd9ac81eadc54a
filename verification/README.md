# Verified model of the voice server's stateful core

This project models the parts of the Zephyr voice server that keep hard state and proves what they promise:
the UDP voice sessions and their send path, the replay window, the packet codec and the rate limiters, the
control-connection coordinator, the loading cache and the principal barrier around it, the crash-recoverable log
rotation, and voice occupancy with temporary channels.

`dafny verify dfyconfig.toml` checks the whole project.

How the model is built:

- A critical section of the program is a function on a value (`Sessions.Activate`, `Connections.Close`,
  `Cache.Complete`). Classes with the program's own fields and loops are proved to compute exactly those functions.
- A protocol is a machine whose actions are the steps between which other threads, or a crash, can come. A run is any
  sequence of enabled actions. Every main theorem is about every run from the initial state.
- History (what was written, accepted, installed, handed out) is recorded beside the state, and no step reads it,
  except that new random ids are new.
- Random 128-bit ids are fresh, SHA-256 is injective, AES-GCM is a pair with `open(seal(x)) = x` and 16 more bytes, float
  tokens are reals, and each call samples the clock once.

| file | what it holds |
|---|---|
| `Wrappers.dfy` | the option type the modules share |
| `Replay.dfy` | two-word replay window against an unbounded set |
| `Packet.dfy` | headers, nonces, whole datagrams |
| `RateLimit.dfy` | token bucket, pruned source tables, ingress and handshake limiters |
| `Sessions.dfy`, `Manager.dfy`, `Sending.dfy`, `Announcing.dfy` | session registry, its objects, the send barrier as threads, which removals are announced |
| `Connections.dfy`, `Admission.dfy`, `Voice.dfy` | one user's connections, admission and shutdown, voice authority with sessions |
| `Cache.dfy`, `CacheStore.dfy`, `CacheRuns.dfy`, `CacheTimes.dfy` | cache sections, their in-place form, all interleavings, lifetimes |
| `Principal.dfy`, `Coherence.dfy` | per-user lock registry, cached principals against the store |
| `Rotation.dfy`, `RotationScan.dfy`, `ArchiveNames.dfy` | rotation with crashes, scans and starts without errors, archive names and markers as text |
| `VoiceChannels.dfy`, `VoiceCreate.dfy` | occupancy and temporary channels, the voice-create budget |

What turned out not to hold as written in the source's own words:

- `internal/auth/principal_cache.go:66-69` promises that a read never sees a principal across a mutation boundary. That
  holds of a set of mutations if and only if each of them locks and invalidates every existing user it changes
  (`PrincipalCoherence.CoherentIffGuarded`). Deleting a channel or group cascades into the role bindings of other users
  (`internal/db/schema.sql:116-121`, foreign keys on in `internal/store/db.go:14`) under the actor's lock only and
  without invalidating anybody: a user with a binding on that scope keeps the deleted binding in the cache, for as long
  as the entry lives, while nobody holds him (`PrincipalCoherence.DeletedBindingStaysCached`).
  - Meet the condition: every mutation through `StateMutationRuntime.Run` (`internal/auth/state_change.go:158-420`: kick, ban,
    unban, account deletion, password change and reset; registration only creates users), the direct forms of those in
    `internal/auth/users.go:333-366`, `406-433`, `458-476`, `539-571` and `internal/auth/service.go:234-320`, and binding
    creation, binding deletion and owner transfer in `internal/rbac/control/service.go:347-490`; role and config changes
    there, and the other mutations of `internal/channel/service.go`, change no principal at all.
  - Do not meet it, unless nobody is bound to the scope (`PrincipalCoherence.ScopeDeleteGuardedIff`): `DeleteGroup`
    (`internal/channel/service.go:837-880`) and `DeleteChannel` (`1026-1074`), which lock the actor (`1303`), and `ExpireTemporary`
    (`1827-1891`), which locks nobody. The interface they use (`70-72`) has no invalidation.
- `internal/logging/rotating.go:414-417` says that the name check accepts the names `nextArchivePath` emits. It also
  accepts counters with needless zeros: `ArchiveNames.NeedlessZeroIsAccepted` gives one, and
  `ArchiveNames.AcceptedNameIsReservedIff` says exactly which accepted names are emitted ones.
- Pruning an idle source is invisible only when an idle bucket has the time to refill. `RateLimit.PruningInvisibleIff`
  gives the exact condition, and a run that shows the pruning whenever it fails.
- A voice generation grows only while the registry keeps the user's entry; pruning an idle user restarts it. Authorities
  stay distinct because connection ids are fresh (`Voice.AuthorityMatchesSession`).

## Model

| member | source | states |
|---|---|---|
| `Replay.NoSequenceAcceptedTwice` | internal/protocol/replay.go:26-82 | the unbounded memory that the window is measured against never admits one sequence twice in a run |
| `Replay.AcceptAll` | internal/protocol/replay.go:26-98 | a fresh two-word window fed with any run of packets decides each as the unbounded memory does, and never accepts one sequence twice |
| `Replay.ReplayWindow.WouldAccept` | internal/protocol/replay.go:26-40 | the precheck says yes exactly for a non-zero sequence that was never accepted and is not a window behind any accepted one |
| `Replay.ReplayWindow.Accept` | internal/protocol/replay.go:50-82 | the bitmap decides as the unbounded set does, remembers exactly the accepted sequence, and reports an advance exactly when the high mark moves |
| `Replay.ReplayWindow.ShiftBitmap` | internal/protocol/replay.go:86-98 | every slot of the 128-bit map moves up by n and the n newest are empty |
| `Replay.MaskTest` | internal/protocol/replay.go:26-40 | masking a word with one bit gives zero exactly when that bit is clear |
| `Packet.EncodeThenDecode` | internal/protocol/packet.go:145-190 | encoding succeeds exactly for a non-zero sequence, a payload within the mode's limit and a key of the right size; the datagram fits 1200 bytes and decodes to the same content, negative speaker ids included |
| `Packet.DecodeThenEncode` | internal/protocol/packet.go:145-190 | every datagram that decodes encodes again to the same bytes |
| `Packet.NonceInjective` | internal/protocol/crypto.go:88-92 | two sequences share a nonce exactly when they are equal |
| `Packet.OuterHeaderRoundTrip` | internal/protocol/packet.go:87-112 | a written outer header parses to its session id and sequence whatever follows it |
| `Packet.OuterHeaderParsed` | internal/protocol/packet.go:87-112 | a header that parses is the one that would be written for what it parsed to |
| `Packet.ChannelRoundTrip` | internal/protocol/packet.go:116-136 | a written channel header parses to itself |
| `Packet.ChannelParsed` | internal/protocol/packet.go:116-136 | twelve bytes always parse, to the header that writes them |
| `Packet.OuterHeaderLayout` | internal/protocol/packet.go:87-93 | every byte of the outer header: magic, version, zero, session id, sequence in network byte order |
| `Packet.ChannelLayout` | internal/protocol/packet.go:116-121 | every byte of the channel header: type, sequence, flags, speaker id as two's complement in network byte order |
| `Packet.NonceLayout` | internal/protocol/crypto.go:88-92 | every byte of the nonce: four zeros and the sequence in network byte order |
| `Packet.PutOuterHeader` | internal/protocol/packet.go:87-93 | fills the first bytes of the caller's buffer and leaves the rest |
| `Packet.PutChannelHeader` | internal/protocol/packet.go:116-121 | fills the first bytes of the caller's buffer and leaves the rest |
| `Packet.BuildPacket` | internal/protocol/udp.go:684-714 | the datagram joined from the two filled buffers, or the error of the first failing check |
| `RateLimit.TokenBucket.TakeAt` | internal/protocol/ratelimit.go:78-87 | refills, then grants exactly when a whole token is there |
| `RateLimit.TokenBucket.SetRate` | internal/protocol/ratelimit.go:56-73 | settles the time that passed at the old rate, then adopts the new limits without exceeding the new burst |
| `RateLimit.TokenBucket.RefillLocked` | internal/protocol/ratelimit.go:90-99 | time earns tokens up to the burst and a clock that went back earns none |
| `RateLimit.GrantsInInterval` | internal/protocol/ratelimit.go:78-99 | whatever happened before, any interval grants at most burst plus rate times its length |
| `RateLimit.SteadyRequestsGranted` | internal/protocol/ratelimit.go:78-99 | requests a token's worth of time apart are never refused |
| `RateLimit.RunsAgree` | internal/protocol/ingress.go:88-130 | from any state where forgotten sources would be full again, pruned and unbounded tables decide alike for the whole run, table-full refusals apart |
| `RateLimit.PruningInvisibleIff` | internal/realtime/upgrade_limiter.go:42-89 | pruning never changes a decision on any clocked run if and only if lifetime times rate reaches the burst |
| `RateLimit.PruningShows` | internal/protocol/ingress.go:88-130 | below that, a named run on a clock that never goes back (spend the burst, wait out the lifetime, spend again) is decided differently |
| `RateLimit.AllowedInInterval` | internal/protocol/ingress.go:88-130 | however the table is pruned, one source gets at most burst plus rate times length in any interval of any run |
| `RateLimit.TableFullIff` | internal/protocol/ingress.go:88-111 | a source is turned away by a full table if and only if it is unknown and as many sources as the table holds were seen within the lifetime |
| `Ingress.IngressLimiter.Allow` | internal/protocol/ingress.go:88-111 | the global bucket is charged first; a source refusal still costs a global token; an unknown source sweeps only a full table |
| `Ingress.IngressLimiter.Sweep` | internal/protocol/ingress.go:114-130 | removes exactly the sources idle for the lifetime and counts them |
| `Ingress.AllowSourceIsTable` | internal/protocol/ingress.go:88-130 | under a clock that never goes back the ingress table is the pruned table of the theorems above |
| `Upgrade.UpgradeLimiter.Allow` | internal/realtime/upgrade_limiter.go:42-69 | an invalid address is refused without trace; others follow the table that prunes on every attempt |
| `Upgrade.UpgradeLimiter.PruneLocked` | internal/realtime/upgrade_limiter.go:83-89 | removes exactly the sources idle for two minutes |
| `Upgrade.UpgradePruningInvisible` | internal/realtime/upgrade_limiter.go:42-89 | with the fixed limits pruning never shows in any run |
| `Sessions.ActivateValid` | internal/protocol/session.go:374-480 | activation succeeds if and only if the session is unused, within its deadline and the expectation is met (none, or the user's current unexpired session, or allowed and none there); a precondition error means used or unexpected, anything else is expiry. A success publishes the session as its user's only one; the one it replaces is dead, must be drained and is announced unless it had expired |
| `Sessions.ActivateSteps` | internal/protocol/session.go:374-480 | a success equals removing the user's current session and then publishing |
| `Sessions.PreparedSessionTakesOver` | internal/protocol/session.go:308-480 | a session prepared and then activated without expectation before its deadline always becomes its user's session, whatever ran in between |
| `Sessions.PrepareValid` | internal/protocol/session.go:308-347 | preparing is refused exactly for an invalid user and touches neither table |
| `Sessions.RemoveOwnedValid` | internal/protocol/session.go:697-802 | delete and revoke take a session exactly when it is the caller's current one; the answer tells live, expired, missing and foreign apart, and says what to drain and whether to announce |
| `Sessions.InvalidateValid` | internal/protocol/session.go:649-680 | afterwards the user has no session; the one taken must be drained and is announced unless it had expired |
| `Sessions.LookupValid` | internal/protocol/session.go:568-600 | a lookup that finds an expired session takes it out of both tables, dead, with a barrier if asked for; any other lookup changes nothing |
| `Sessions.LookupUserValid` | internal/protocol/session.go:605-643 | the user's session is returned exactly while it is within its deadline; an expired one is taken out |
| `Sessions.PurgeValid` | internal/protocol/session.go:815-851 | exactly the unexpired sessions stay |
| `Sessions.PacketPostponesPurge` | internal/protocol/session.go:815-979 | an accepted packet keeps its session through every purge until a full lifetime later and no longer, and no other session notices |
| `Sessions.StepValid` | internal/protocol/session.go:374-851 | every operation keeps table and index inverse maps, tabled sessions active and removed ones inactive |
| `Sessions.RunValid` | internal/protocol/session.go:374-851 | over any run the tables stay inverse and a session once removed stays removed and inactive |
| `Sessions.PublishedAtMostOnce` | internal/protocol/session.go:374-480 | no run publishes a prepared session twice |
| `Sessions.ReserveSendExact` | internal/protocol/session.go:985-1000 | an active session is granted its next sequence unless none is left or its key is missing |
| `Manager.VoiceSession.AcceptPacket` | internal/protocol/session.go:955-979 | the decision order is liveness, replay, budget; only an accepted packet is remembered and slides the deadline, and the address moves only with a packet above every accepted one; the panic is unreachable |
| `Manager.VoiceSession.ReserveSendSeq` | internal/protocol/session.go:985-1000 | an active session's next sequence, never rolled back and never past the last 64-bit value |
| `Manager.VoiceSession.ReserveNotice` | internal/protocol/session.go:1015-1065 | the in-place reservation of a notice; when one exists is stated by the announcing theorems |
| `Manager.SessionManager.Deliver` | internal/protocol/session.go:955-979 | the registry sees a packet exactly when the session object accepts it, as the sliding of that session's deadline |
| `Manager.SessionManager.Prepare` | internal/protocol/session.go:308-347 | a prepared session with a full lifetime that no table names yet |
| `Manager.SessionManager.ActivatePreparedStaged` | internal/protocol/session.go:374-480 | the in-place update computes exactly the registry transition, errors and drains included |
| `Manager.SessionManager.GetSessionStaged` | internal/protocol/session.go:568-600 | the in-place lookup with lazy expiry and its barrier |
| `Manager.SessionManager.SessionIDByUser` | internal/protocol/session.go:605-643 | the user's live session, expiring a stale one |
| `Manager.SessionManager.InvalidateUser` | internal/protocol/session.go:649-680 | the in-place removal of the user's session and what must be drained |
| `Manager.SessionManager.RemoveOwned` | internal/protocol/session.go:697-802 | the in-place delete and revoke, with not-found and not-owned outcomes |
| `Manager.SessionManager.Purge` | internal/protocol/session.go:815-851 | the scan loop expires exactly the overdue sessions and counts them |
| `Sending.EveryRunIsSafe` | internal/protocol/session.go:985-1065 | on every interleaving of sends with delete, revoke, replace and expiry: audio in increasing sequence, no sequence used twice, no audio after the drain returned, revocations above all audio |
| `Sending.EveryRunHasFreshNonces` | internal/protocol/udp.go:313-413 | hence no two datagrams of a session share a GCM nonce |
| `Sending.ActInv` | internal/protocol/udp.go:313-413 | every step of every thread keeps the invariant on locks, reservations and log |
| `Sending.WriteAudioInv` | internal/protocol/udp.go:334-365 | the write under the send lock keeps order and uniqueness |
| `Sending.MarkDrainedInv` | internal/protocol/session.go:1041-1047 | taking and releasing the send lock leaves no audio outstanding for a removed session |
| `Announcing.EveryNoticeIsOwed` | internal/protocol/session.go:1015-1036 | on every interleaving a revocation notice is written only for a session that was replaced, invalidated or revoked before its deadline with a handler installed |
| `Announcing.OwedNoticeIsReserved` | internal/protocol/session.go:1015-1065 | a revocation thread with the send lock goes on to write the session's next sequence, whatever others do meanwhile, if and only if that holds and the session has an address and a sequence left |
| `Announcing.WorkIsTruthful` | internal/protocol/session.go:374-802 | revocation work names a session just taken out of the table and reports it live exactly when its deadline lay ahead |
| `Announcing.SenderReservesNext` | internal/protocol/udp.go:313-365 | a sender with the send lock reserves the session's next sequence if and only if the session is active with address, key and a sequence left |
| `Connections.PerformValid` | internal/realtime/connection.go:475-1059 | every critical section keeps records keyed and admitted, and an authority owned by an active record of its generation with no pending teardown |
| `Connections.PerformKeepsRecords` | internal/realtime/connection.go:475-1059 | no section adds or drops a record, brings one back from closing or to opening, or takes a lease to an older revision |
| `Connections.OpenValid` | internal/realtime/connection.go:365-403 | a reservation adds one opening record with a generation above all others and leaves the rest |
| `Connections.RenewalDefeatsTimers` | internal/realtime/connection.go:543-558 | after a successful renewal, a timer armed for any lease up to the replaced one never closes the connection, whatever happens in between |
| `Connections.OneCloseWins` | internal/realtime/connection.go:1021-1059 | over the whole life of a connection at most one close, by request or by timer, wins |
| `Connections.CloseExact` | internal/realtime/connection.go:1249-1269 | a close leaves its connection closing and every other record alone; the authority falls, with its tombstone, exactly when that connection owned it |
| `Connections.LeaseRunsToItsExpiry` | internal/realtime/connection.go:475-558 | until its expiry a lease can be renewed and its timer does nothing; from then on a renewal is refused and the timer closes |
| `Connections.StagedIff` | internal/realtime/connection.go:631-666 | a well-formed request is staged if and only if its owner is active and the expected authority is the current one, its own for a move; an undisturbed stage can be installed |
| `Connections.ConnectionUser.ActivateConnection` | internal/realtime/connection.go:475-491 | only the exact opening record becomes active, with lease revision one |
| `Connections.ConnectionUser.BeginDisconnectLocked` | internal/realtime/connection.go:1249-1269 | closing takes the authority that the connection owns down and leaves its tombstone |
| `Connections.ConnectionUser.DisconnectMatching` | internal/realtime/connection.go:1336-1359 | the loop closes exactly the matching records, in any order |
| `Connections.ConnectionUser.InstallVoice` | internal/realtime/connection.go:746-829 | installs exactly when owner, expected authority and generation still match |
| `Admission.AdmissionIsConserved` | internal/realtime/connection.go:1363-1438 | in every reachable state the global, wait-group, per-user and per-source counts equal the numbers of records and pending reservations, each with its own source; the caps hold, no source stays at zero, no id is counted twice, and each slot is given back once, exactly when its connection is gone |
| `Admission.ReservationGrantedIff` | internal/realtime/connection.go:365-403 | a reservation is granted if and only if admission is open and fewer connections than each cap exist or are pending: in all, from the source, of the user |
| `Admission.RemovalFreesSlot` | internal/realtime/connection.go:1363-1396 | finishing a closing connection, or aborting one without transport, gives its slot back at once |
| `Admission.RegistryIsPruned` | internal/realtime/connection.go:1441-1474 | the registry holds only users with a connection or with a thread working on them |
| `Admission.ShutdownIsFinal` | internal/realtime/connection.go:1157-1182 | after a disconnect pass that began after the stop has ended, no later state has an opening or active connection or a reservation still inserting |
| `Admission.OccupiedIsRegistered` | internal/realtime/connection.go:1441-1474 | a user object with a record or a pending reservation is the one the registry hands to a pass |
| `Admission.TakeBalanced` | internal/realtime/connection.go:1400-1418 | taking a slot within the caps keeps all counts equal to the slots taken |
| `Admission.FreeBalanced` | internal/realtime/connection.go:1423-1438 | giving one back keeps them equal and drops a source that reaches zero |
| `Admission.AdmissionGate.ReserveAdmission` | internal/realtime/connection.go:1400-1418 | grants exactly when accepting and below both caps |
| `Admission.AdmissionGate.ReleaseAdmission` | internal/realtime/connection.go:1423-1438 | the in-place decrement with the removal of an empty source |
| `Admission.AdmissionGate.StopAdmission` | internal/realtime/connection.go:420-427 | only closes the gate |
| `Admission.ActInv` | internal/realtime/connection.go:1363-1474 | every step of reserving, closing, finishing, aborting, pruning and sweeping threads keeps the invariant |
| `Voice.AuthorityMatchesSession` | internal/realtime/connection.go:746-829 | in every reachable state of coordinator and registry an authority has its active owner of the same generation, no tombstone, and is named by the user's session if there is one; no authority was installed twice |
| `Voice.AtMostOneCommits` | internal/realtime/connection.go:631-829 | of the stages built from one coordinator state, once one has committed no other can in any later state, across pruning |
| `Voice.CommitInstallsProposal` | internal/realtime/connection.go:746-829 | a commit installs exactly the announced authority, and a refused one installs nothing |
| `Voice.CommitSucceedsIff` | internal/realtime/connection.go:746-829 | a stage commits if and only if owner, expected authority and generation still match and its session can be published, or for a move is live |
| `Voice.TeardownSucceedsIff` | internal/realtime/connection.go:866-1016 | in every reachable state a teardown succeeds if and only if its target is the user's current authority, whether the session is live, expired or gone; through the manager it leaves neither authority nor session |
| `Voice.StaleTeardownIsHarmless` | internal/realtime/connection.go:866-1016 | a teardown aimed at an earlier authority leaves a later one and its session alone |
| `Voice.StepShrinks` | internal/protocol/session.go:568-851 | no registry operation but an activation gives a user a session |
| `Voice.ActInv` | internal/realtime/connection.go:631-1016 | every step keeps the agreement of authorities, sessions, stages and installation history |
| `Cache.CompleteValid` | internal/cache/cache.go:387-428 | a finished loader publishes, for one lifetime from now, exactly when it is still the registered call, and is marked invalidated otherwise |
| `Cache.InsertOrderValid` | internal/cache/cache.go:431-445 | storing keeps the order a duplicate-free listing of the keys within the size limit; a new key in a full cache evicts the oldest key and no other |
| `Cache.SetValid` | internal/cache/cache.go:170-196 | a set detaches the key's loader, stores the value for one lifetime from now (for ever without one) and keeps order and call invariants |
| `Cache.DeleteValid` | internal/cache/cache.go:202-223 | a delete detaches the key's loader and removes key and order entry |
| `Cache.ClearValid` | internal/cache/cache.go:228-240 | a clear empties entries, order and in-flight table, marks every registered call invalidated and moves its key's generation |
| `Cache.RegisterValid` | internal/cache/cache.go:363-387 | a new call is registered with its key's tombstone generation |
| `Cache.PurgeExpiredValid` | internal/cache/cache.go:255-274 | expiry keeps order and entries in step |
| `CacheStore.LoadingCache.Set` | internal/cache/cache.go:170-196 | the in-place set computes the set of the model |
| `CacheStore.LoadingCache.Delete` | internal/cache/cache.go:202-223 | the in-place delete, with the scan that cuts the key out of the order |
| `CacheStore.LoadingCache.Clear` | internal/cache/cache.go:228-240 | the loop detaches every in-flight call before the maps are replaced |
| `CacheStore.LoadingCache.PurgeExpiredLocked` | internal/cache/cache.go:255-274 | drops exactly the stale entries, counts them, and filters the order |
| `CacheStore.LoadingCache.JoinOrRegister` | internal/cache/cache.go:363-387 | joins the registered call of a key or registers a new one |
| `CacheStore.LoadingCache.CompleteCall` | internal/cache/cache.go:387-428 | the loader's return publishes or discards as the model says |
| `CacheStore.LoadingCache.StoreLocked` | internal/cache/cache.go:431-445 | replaces in place or appends and evicts the front |
| `CacheRuns.EveryRunIsFresh` | internal/cache/cache.go:152-428 | on every interleaving no Get returns, and the cache never holds, a value whose loader or set began before the last set, delete or clear that the Get started after |
| `CacheRuns.ActInv` | internal/cache/cache.go:152-428 | every step of readers, loaders, waiters and invalidations keeps the invariant |
| `CacheTimes.EveryRunKeepsTime` | internal/cache/cache.go:255-336 | over every run, what is served from the cache was stored less than a lifetime before, a purge drops exactly the entries stored a lifetime or more ago, and without a lifetime time drops nothing |
| `CacheTimes.EntryServedIff` | internal/cache/cache.go:309-336 | a Get answers with the entry it read if and only if the entry is in date, and goes on to load otherwise |
| `PrincipalLocks.HoldersShareOneLock` | internal/auth/principal_locks.go:24-44 | two holders of one user hold one lock object, and two at once are readers |
| `PrincipalLocks.MutualExclusion` | internal/auth/principal_locks.go:47-78 | a mutation holds a user alone |
| `PrincipalLocks.NoDeadlock` | internal/auth/principal_locks.go:47-78 | while any caller runs some caller can step, for any mixture of multi-user mutations and readers with waiting writers blocking new readers |
| `PrincipalLocks.EveryRunLocksSafely` | internal/auth/principal_locks.go:24-78 | in every reachable state two holders of a user share one lock object, only as readers, and some running caller can step |
| `PrincipalLocks.ReachesInv` | internal/auth/principal_locks.go:24-78 | every run keeps one lock object a user with reference counts equal to its callers |
| `PrincipalLocks.SortCompact` | internal/auth/principal_locks.go:58-62 | strictly ascending with exactly the given users |
| `PrincipalLocks.LockRegistry.Acquire` | internal/auth/principal_locks.go:24-34 | the registered lock or a new one, with one more reference |
| `PrincipalLocks.LockRegistry.Release` | internal/auth/principal_locks.go:37-44 | one reference less, and the last one removes the entry |
| `PrincipalCoherence.EveryRunIsCoherent` | internal/auth/principal_cache.go:70-157 | over any run of readers, expiries and guarded mutations, the cached principal of a user no writer holds equals the stored one, and every principal handed out was the stored one at that moment |
| `PrincipalCoherence.CoherentIffGuarded` | internal/auth/principal_cache.go:66-157 | every run over a set of mutations is coherent if and only if each of them has every existing user it changes on its lock list and on its invalidation list |
| `PrincipalCoherence.UnguardedGoesStale` | internal/auth/principal_cache.go:66-157 | for any mutation that fails this, a run of one read and that mutation after which the cache keeps the old principal and no writer holds the user |
| `PrincipalCoherence.ScopeDeleteGuardedIff` | internal/channel/service.go:1026-1074 | a channel or group delete meets the condition if and only if no user is bound to the scope, whatever it locks |
| `PrincipalCoherence.DeletedBindingStaysCached` | internal/channel/service.go:1026-1074 | the smallest case: one bound and cached user, one delete by another user, and the deleted binding stays cached |
| `PrincipalCoherence.AccountMutationsStayCoherent` | internal/auth/state_change.go:175-403 | mutations through the runtime that change only users on their list, and mutations that lock actor and target and drop the target, keep every run coherent in any mixture |
| `PrincipalCoherence.ScopeDeletesBreakCoherence` | internal/channel/service.go:1026-1074 | any set of mutations with one delete of a scope that has a bound user has an incoherent run |
| `PrincipalCoherence.CommitInv` | internal/auth/state_change.go:175-403 | committing a guarded mutation, deletions and registrations included, keeps every other cached principal current and dooms the changed ones |
| `PrincipalCoherence.LockStepInv` | internal/auth/principal_locks.go:24-78 | lock steps of others never take away what a busy thread holds |
| `Rotation.NothingIsLost` | internal/logging/rotating.go:98-753 | from any directory and over any run of writes, rotations, scans, restarts, errors and crashes, each accepted write is in the live log, a staged file or a complete archive unless pruning removed its archive |
| `Rotation.KeepForever` | internal/logging/rotating.go:727-753 | with a negative keep every accepted write stays on disk for good |
| `Rotation.JobSucceedsOnlyIfArchived` | internal/logging/rotating.go:290-412 | archiving reaches its removal step only when a complete archive holds exactly the pending file or the file is empty, for any marker and any archives |
| `Rotation.StageInv` | internal/logging/rotating.go:222-280 | the rename that stages the live log never replaces another staged log |
| `Rotation.TruncateInv` | internal/logging/rotating.go:98-158 | startup empties the live log only after a complete archive holds it |
| `Rotation.ActInv` | internal/logging/rotating.go:98-753 | every file operation, failure and crash keeps the invariant |
| `Rotation.LogDirectory.ArchivePendingFile` | internal/logging/rotating.go:290-339 | succeeds if and only if the file's own marker serves or a listed name is free; then the file is empty or held exactly by a complete archive, a new one under the first free name, and no log or other archive is touched |
| `Rotation.LogDirectory.ReservePendingArchive` | internal/logging/rotating.go:344-357 | the first free name, if there is one, bound to the pending file's digest |
| `Rotation.LogDirectory.ProcessPending` | internal/logging/rotating.go:602-659 | a full scan removes exactly the listed files and a failed one stops; nothing stored is lost either way, and it does not fail while each file's date has a free name for every file |
| `Rotation.LogDirectory.NextArchivePath` | internal/logging/rotating.go:712-722 | the first free name, or none when all are taken |
| `Rotation.LogDirectory.Prune` | internal/logging/rotating.go:727-753 | exactly the oldest archives beyond the ones to keep go |
| `RotationScan.ScanEmptiesStaging` | internal/logging/rotating.go:602-659 | from any running state between scans, whatever the writer does, a scan without errors archives every staged log and leaves none |
| `RotationScan.StagingCanAlwaysBeEmptied` | internal/logging/rotating.go:577-659 | from any running state at all, the scan after the one under way does |
| `RotationScan.JobCompletes` | internal/logging/rotating.go:290-339 | whatever its marker says, a staged file can be archived and removed |
| `RotationScan.RotationCompletes` | internal/logging/rotating.go:222-280 | a rotation without errors stages the live log under a name of its own and goes on with an empty one |
| `RotationScan.StartupCompletes` | internal/logging/rotating.go:98-158 | a start without errors, from any directory, ends running with an empty live log and nothing staged, after everything had its archive |
| `ArchiveNames.ValidArchiveName` | internal/logging/rotating.go:418-443 | accepts exactly a calendar date and a counter of two to four digits from 1 to 9999 between prefix and suffix |
| `ArchiveNames.ReservedNamesAreAccepted` | internal/logging/rotating.go:712-722 | every name that is reserved is accepted |
| `ArchiveNames.AcceptedNameIsReservedIff` | internal/logging/rotating.go:414-443 | an accepted name is one that some date and counter reserve if and only if its counter carries no needless zero |
| `ArchiveNames.NeedlessZeroIsAccepted` | internal/logging/rotating.go:414-443 | one accepted name that no date and counter reserve |
| `ArchiveNames.AcceptedNameIsAnArchive` | internal/logging/rotating.go:414-443 | no accepted name is the live log or a dot file |
| `ArchiveNames.MarkerRoundTrip` | internal/logging/rotating.go:344-374 | a marker written in full is read back as written |
| `ArchiveNames.TornMarkerIsRejected` | internal/logging/rotating.go:361-374 | a marker cut short anywhere is never accepted |
| `VoiceChannels.OccupancyIsSound` | internal/channel/voice.go:457-537 | in every published version no channel exceeds its capacity, and after startup restore a temporary channel is armed exactly while empty |
| `VoiceChannels.StaleTimerIsHarmless` | internal/channel/service.go:1827-1851 | once a channel's schedule has changed, a timer armed with the old one can never delete it |
| `VoiceChannels.DueTimerDeletes` | internal/channel/service.go:1847-1858 | a current timer deletes its channel if and only if it is due: the check for members never stops it |
| `VoiceChannels.JoinGood` | internal/channel/voice.go:457-537 | an accepted join or move keeps capacity and timers right in both channels |
| `VoiceChannels.JoinAcceptedIff` | internal/channel/voice.go:457-459 | a join of a voice channel is accepted if and only if the channel then holds no more members than its capacity; nobody else moves |
| `VoiceChannels.LeaveGood` | internal/channel/voice.go:853-883 | a leave arms the timer exactly when the last member goes |
| `VoiceChannels.GraceAfterLastLeave` | internal/channel/voice.go:860-883 | after the last member of a temporary channel has left, the channel expires from thirty seconds later on and not before |
| `VoiceChannels.ProjectGood` | internal/channel/voice.go:178-211 | a published teardown settles the timer of the channel it empties |
| `VoiceChannels.LoseAccessShaped` | internal/channel/voice.go:235-283 | the access-loss loop removes exactly the lost members and leaves every channel settled |
| `VoiceChannels.MutateGood` | internal/channel/service.go:940-1252 | creating, resizing, deleting and expiring channels keep occupancy and timers right, access loss included |
| `VoiceChannels.ResizeAcceptedIff` | internal/channel/service.go:940-949 | a new capacity is accepted if and only if it is in range and the present members fit |
| `VoiceChannels.ActNewer` | internal/realtime/state.go:633-667 | no command reuses a generation of a living temporary channel's schedule |
| `VoiceChannels.RestoreInv` | internal/channel/service.go:1781-1821 | startup arms every temporary channel before any join |
| `VoiceChannels.Candidate.PrepareVoiceAccessLoss` | internal/channel/voice.go:235-283 | the in-place loop computes the access loss of the model |
| `VoiceChannels.Candidate.ActiveChannelMembers` | internal/channel/service.go:1606-1614 | the loop counts the members of the channel |
| `VoiceChannels.Candidate.SetVoiceAuthority` | internal/realtime/state.go:694-722 | refuses an unknown user or channel and otherwise replaces or clears one user's authority only |
| `VoiceChannels.Candidate.ScheduleTemporaryExpiry` | internal/realtime/state.go:633-645 | a new deadline under the next generation, only for a temporary channel |
| `VoiceChannels.Candidate.ClearTemporaryExpiry` | internal/realtime/state.go:652-667 | disarms and keeps counting, or forgets a channel that is not temporary, and returns the armed schedule it took down |
| `VoiceCreate.AllowExact` | internal/channel/voice.go:76-105 | a request is accepted if and only if fewer than ten acceptances of its key lie in the last minute and the key is live or fewer than 8192 keys are; the table never exceeds its cap |
| `VoiceCreate.RunExact` | internal/channel/voice.go:76-115 | over any run the pruned table decides as an unbounded record would, and no minute holds an eleventh acceptance |
| `VoiceCreate.PruneExact` | internal/channel/voice.go:109-115 | pruning keeps exactly the keys with a live time and loses no live time |
| `VoiceCreate.VoiceCreateLimiter.AllowRequest` | internal/channel/voice.go:76-105 | the in-place scan, trim and insert compute the request of the model |
| `VoiceCreate.VoiceCreateLimiter.PruneExpiredLocked` | internal/channel/voice.go:109-115 | the sweep removes exactly the keys whose last time has passed |

## Left out

- HTTP handlers, response bodies, idempotency replay, event payloads and permissions: transport and single-branch checks.
- The sequencer, publication and relay gates: commands are taken as one at a time, each publishing at most one version.
- HKDF, AES-GCM internals, certificate and password code: only the laws named above are used.
- The rest of the UDP receive pipeline (channel type checks, statistics, socket errors): single-branch filters in front of `AcceptPacket`.
- Manager.SessionManager: keeps session records by id in one map, not as shared pointers, so aliasing of session objects is not modelled; the threads of `Sending` act on the same records.
- RateLimit.TokenBucket.constructor: takes the creation time as a parameter, so a second clock sample inside the constructor is not modelled.
- Voice.AuthorityMatchesSession: takes a commit or teardown as one step, which user lock and manager lock together make it; relay gates and deferred drains are not part of this machine.
- Admission.AdmissionIsConserved: counts a reservation between taking its slot and inserting its record as pending rather than as a record.
- VoiceChannels.OccupancyIsSound: the authority tuple is reduced to its channel and an installation stamp, and restore is taken to finish before joins start, as the server's assembly does.
- RotationScan.StartupCompletes: takes archive names as unlimited; that a date has 9999 names is the free-name condition of `ArchivePendingFile`.
- Rotation.NothingIsLost: covers process crashes with retention on; power loss, a retention of zero (which drops logs on purpose) and short writes are not modelled.
- Rotation.LogDirectory.Prune: archive names are ranks in the sorted order, so the order of counters above 99 on one date is not modelled.
- Replay.ReplayWindow.ShiftBitmap: a 64-bit word is a sequence of 64 bits.
- PrincipalCoherence.CoherentIffGuarded: a principal is its set of binding rows, ban flag and version; a load reads the store in one step, and an expired entry may go at any moment.
- Close of the log writer, observers, statistics and goroutine start and stop: no property depends on them.
