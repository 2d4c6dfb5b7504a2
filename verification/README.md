# All-Chat shared cores, verified

A Dafny model of the stateful and text-level cores of All-Chat's shared library and of its overlay stream,
with proofs of the properties that code is built around. `dafny verify dfyconfig.toml` checks everything.

| files | what they model |
|---|---|
| `RingBuffer`, `RetryProtocol` | the retry ring buffer of a listener: the circular array in place, and every interleaving of publishers with the retry worker |
| `StreamIds`, `Leases`, `Coordinator`, `Fleet`, `Coverage`, `Stopping`, `Recovery`, `Tenure` | leadership leases: one pod as a state machine, the coordinator object that refines it, a fleet over one lease server, how it can reach full coverage, what Stop ends, what undoes an unsafe expiry, and how long a stream stays with a pod |
| `SeenIds`, `PlatformStatus`, `Reconnect`, `OverlaySocket` | the overlay stream: id deduplication, source status, and the reconnect machine with the hook object that refines it |
| `Base64`, `KeyChain` | the versioned key chain, key discovery and key rotation over an abstract authenticated cipher |
| `Premium` | the materialized premium columns against a pure entitlement function of rows and clock |
| `RateLimit` | the fixed-window rate limiter and its client keys |
| `SendAll`, `Template`, `AlertText`, `Signing` | text normalization and keys, alert templates and profiles, signature framing and verification |
| `Text`, `Wrappers` | joined keys, numerals, options and results |

Code that updates fields in place is a class whose methods are proved against pure functions; the properties
over runs are lemmas about those functions. A locked region or a transaction is one atomic step, and calls to
a server or a publish function happen between steps, so their answers are parameters.

Hypotheses that are stated where they are used, never globally: an authenticated cipher opens what it sealed;
a digest has 32 bytes and does not collide on the two texts compared; a rate-limit counter is gone from its
expiry instant on and shares the limiter's clock (a store that keeps a key for the very millisecond of its expiry
carries the count over if a request falls in it); a client address is a printed IP address or empty; interval timers
fire when due, and timeouts in the millisecond in which they are.

Where the code and its comments or documentation disagree, the model follows the code:

- the comment on `requeue` (shared/listener/ring_buffer.go:246-247) says it counts no drop; on a full buffer it does.
- shared/signing/README.md:124 documents a signature over fields joined with bars; the code signs a fixed-width framing.
- the comment on a refused renewal (shared/sourcemanager/coordinator.go:424-426) expects `false` for lost leadership, but
  the HTTP client answers status 410 with an error (shared/sourcemanager/client.go:182), so such a renewal is retried like
  any error. Both answers are modelled.
- the error text for a long template (shared/alerts/alerts.go:222-224) speaks of characters; the limit is on bytes.
- the note on ambiguous keys (shared/encryption/encryption.go:66-68) includes 16-character texts; those decode to at most 12
  bytes and are always taken raw: `KeyChain.SixteenBytesAreRaw`.
- the retry comment in shared/sourcemanager/coordinator.go:442 lists a 400 ms delay that never occurs with three attempts.
- the reducer's comment (frontend/src/core/overlayStreamCore.ts:199-200) promises the same state object when nothing
  changes; a repeated frame builds a new, equal map. The model compares values.

Properties that do not hold of the code, with what does:

- "Every lease has a live heartbeat" fails exactly for entries whose initial renewal failed: `Leases.DeadIffFailedAtStart`,
  with `Leases.DeadHeartbeatOnALease` as the case.
- "Stop ends every heartbeat" fails exactly in two cases: `Stopping.StopHoldsIffNoneMissed`. A granted claim may be installed
  only after Stop (`Stopping.GrantOutlivesStop`), which needs no expiry. Or a heartbeat is an orphan, which happens exactly
  when a claim is installed over the lease of a running heartbeat: `Leases.NoOrphansIffNoOverlap`, with
  `Leases.OverlappingClaimsOrphanTheFirst` as the case. The server refuses a stream to its holder, so both of those claims
  are granted only if the lease expires, or another call releases it, between the two; in a fleet only an unsafe expiry does
  that: `Stopping.NoOrphansWithoutUnsafeExpiry`. A claim made after Stop starts a new heartbeat in any case.
- "A stream has one leader" fails exactly after an expiry that hits an interest, and a release call still under way is one:
  `Fleet.ExpiryIsSafeIffNoInterest`. A leader without the server's backing then remains exactly if some stale lease did not
  have a ticking heartbeat or some grant under way had lapsed: `Recovery.LeadersHoldAgainIff`.
- "Buckets are isolated" fails exactly for buckets named user, viewer or custom: `RateLimit.BucketIsIsolatedIffProper`. For
  user and viewer the leak needs a user or viewer id of the form "ip:" and an address.
- "A signed request verifies within the window" fails exactly for a signer without a name: `Signing.SignedPassesIffTimelyAndNamed`.
- "A legacy blob always decrypts" and "a newer key changes nothing" hold up to a key that authenticates foreign bytes:
  `KeyChain.LegacyDecrypts` and `KeyChain.NewerKeyChangesNothing` give the condition, `KeyChain.LegacyBlobIsMistaken` and
  `KeyChain.NewerKeyMayChange` the cases.
- "A raw key is used as it is" fails exactly if it also decodes to a key: `KeyChain.RawKeysParseIffNotBase64`.

## Model

| member | source | states |
|---|---|---|
| `RingBuffer.RingBufferPublisher.constructor` | shared/listener/ring_buffer.go:88-123 | The circular array starts as the empty queue with no drops. |
| `RingBuffer.RingBufferPublisher.Enqueue` | shared/listener/ring_buffer.go:167-192 | On the circular array an enqueue appends to the queue; a full queue loses exactly its oldest message and one drop is counted; `tail == (head + size) mod capacity` is kept. |
| `RingBuffer.RingBufferPublisher.DequeueHead` | shared/listener/ring_buffer.go:196-205 | Takes the oldest message, or reports an empty buffer and changes nothing. |
| `RingBuffer.RingBufferPublisher.Requeue` | shared/listener/ring_buffer.go:248-264 | Puts a taken message back in front; on a full buffer that message is lost and the drop is counted, which the comment on the function denies. |
| `RingBuffer.RingBufferPublisher.Publish` | shared/listener/ring_buffer.go:130-147 | Cancelled exactly when stopped; otherwise accepted, and buffered exactly when the publish fails. |
| `RingBuffer.RingBufferPublisher.DrainOneTick` | shared/listener/ring_buffer.go:227-244 | One undisturbed tick delivers exactly the longest prefix of the queue whose publishes all succeed, in order, and leaves the rest, with no drop. |
| `RingBuffer.WindowAppend` | shared/listener/ring_buffer.go:185-190 | Writing at the tail of the circular array appends to the queue it stands for. |
| `RingBuffer.WindowTail` | shared/listener/ring_buffer.go:200-202 | Advancing the head removes the first element of the queue. |
| `RingBuffer.WindowPrepend` | shared/listener/ring_buffer.go:260-262 | Moving the head back and writing there prepends to the queue. |
| `RetryProtocol.StepKeepsInv` | shared/listener/ring_buffer.go:130-264 | Each step of any publisher, of the worker and of Stop keeps all five parts of the invariant. |
| `RetryProtocol.RunKeepsInv` | shared/listener/ring_buffer.go:130-264 | So does every run. |
| `RetryProtocol.EveryInterleaving` | shared/listener/ring_buffer.go:167-264 | In every interleaving of any number of publishers with the worker: the buffer is the newest stretch of the failure history; a message in flight is directly before it or the buffer is full; a dropped message has at least `capacity` newer failures; retries deliver each message once and in failure order. |
| `RetryProtocol.Conservation` | shared/listener/ring_buffer.go:130-264 | In every interleaving, after Stop too, each failed message is in exactly one of delivered, dropped, in flight and buffered, so failures = retried deliveries + drops + in flight + size. |
| `RetryProtocol.NoRetryAfterStop` | shared/listener/ring_buffer.go:149-162 | Once Stop was called and the worker has returned, no run delivers, takes or accepts anything. |
| `RetryProtocol.TickDelivers` | shared/listener/ring_buffer.go:227-244 | As on the object, an undisturbed tick delivers exactly the messages before the first failing retry, in order, and leaves the others in place, with no drop. |
| `RetryProtocol.EverythingCanBeDelivered` | shared/listener/ring_buffer.go:209-244 | From every state of every interleaving whose worker has not returned, what it holds and then all that is buffered can still be delivered, in order and without a further drop. |
| `RetryProtocol.FailedPublishIsRetried` | shared/listener/ring_buffer.go:130-192 | A failed publish is retried behind those that failed before it, of which a full buffer loses exactly the oldest; one that succeeds leaves no trace. |
| `RetryProtocol.FirstFailureIsDelivered` | shared/listener/ring_buffer.go:88-123 | From the start, a first publish that fails is retried and delivered. |
| `RetryProtocol.StopEndsTheWorker` | shared/listener/ring_buffer.go:149-162 | Stop, and only Stop, lets a waiting worker return, and no publish is accepted after it. |
| `StreamIds.LastAfterIsLast` | shared/sourcemanager/coordinator.go:289-297 | A set of ids is the alphabetically last part of the held ids, keeping a given number, if and only if it is what the sorted list ends with. |
| `StreamIds.FirstDifferenceDecides` | shared/sourcemanager/coordinator.go:294 | The order is that of bytes at the first difference, an end of text coming before any byte. |
| `StreamIds.AscendingIsUnique` | shared/sourcemanager/coordinator.go:289-294 | A sorted list is determined by its elements: the map iteration order does not matter. |
| `StreamIds.SortedAscends` | shared/sourcemanager/coordinator.go:294 | Sorting distinct ids gives them in ascending order. |
| `Leases.CapsCoverAllStreams` | shared/sourcemanager/coordinator.go:279-280 | peers * ceil(total / peers) covers every stream, and no smaller cap would. |
| `Leases.RebalanceReleasesTheLast` | shared/sourcemanager/coordinator.go:245-304 | With n peers, a count of none or less standing for one: if there is no stabilization period, or n was the count last seen and its period is over, a rebalance keeps min(leases, share) leases, where the share is the least number that covers all streams at n peers, and releases exactly the alphabetically last of the others; otherwise it releases nothing and closes no channel. A new count, and nothing else, sets the two fields, to n and to the end of a new period. |
| `Leases.ReleaseDependsOnIds` | shared/sourcemanager/coordinator.go:289-297 | What is released depends on no more of the leases than their ids. |
| `Leases.GateOpensIffStable` | shared/sourcemanager/coordinator.go:251-277 | The gate lets a rebalance through if and only if one and the same peer count has been observed for at least the period. |
| `Leases.StableForThePeriod` | shared/sourcemanager/coordinator.go:251-277 | Then no other count was observed within the period. |
| `Leases.GateFollowsRebalances` | shared/sourcemanager/coordinator.go:251-277 | In every run the two stabilization fields are those of the peer counts observed so far. |
| `Leases.RebalanceReleasesIffStable` | shared/sourcemanager/coordinator.go:251-304 | In every run of a pod a rebalance releases leases if and only if with one lease fewer at each of its peers all streams would still be covered, and the present peer count has been the only one observed for at least the period. |
| `Leases.StepKeepsInv` | shared/sourcemanager/coordinator.go:85-412 | Every locked region and heartbeat event keeps: leased entries are filed under their own stream with an open channel, no channel is closed twice, and a callback has been started exactly once if its entry is lost and else not at all. |
| `Leases.EveryRunKeepsInv` | shared/sourcemanager/coordinator.go:85-412 | So does every interleaving of claims, refreshes, releases, stops, rebalances and heartbeats. |
| `Leases.RenewalTouchesOnlyItsOwn` | shared/sourcemanager/coordinator.go:374-380 | A heartbeat that gives up deletes only its own entry: a successor lease for the stream survives, and so does every other lease. |
| `Leases.LostMeansTwoFailures` | shared/sourcemanager/coordinator.go:352-411 | Over any sequence of tick outcomes a heartbeat is lost if and only if two in a row failed. |
| `Leases.HeartbeatFollowsRenewals` | shared/sourcemanager/coordinator.go:342-412 | In every run of the pod the state of a heartbeat is decided by its own renewals alone, until it takes the closed stop channel; nothing else stops it. |
| `Leases.LostExactlyAfterTwoFailures` | shared/sourcemanager/coordinator.go:349-411 | In every run a lease past its initial renewal is lost only after two consecutive failed ticks, is out of the map once there were two, and its callback has then been started exactly once if it has one. |
| `Leases.LostIsNotifiedOnce` | shared/sourcemanager/coordinator.go:90-122 | In every run an entry's lost callback has been started exactly once if the entry was lost and its claim, or a later call for its stream while it held the lease, brought a callback, and otherwise not at all. |
| `Leases.ToldHeartbeatEnds` | shared/sourcemanager/coordinator.go:342-362 | A running heartbeat whose channel is closed ends: at its next look at the channel if it ticks, and at the first look after its initial renewal, whatever the outcome, if it does not yet; no lease and no other entry changes. |
| `Leases.DeadIffFailedAtStart` | shared/sourcemanager/coordinator.go:342-347 | In every run an entry that still has its lease has a dead heartbeat if and only if its initial renewal failed, and a live one if and only if it succeeded or is still to come. |
| `Leases.DeadHeartbeatOnALease` | shared/sourcemanager/coordinator.go:345-347 | Such entries exist: a claim whose initial renewal fails keeps its lease. |
| `Leases.StopReachesAllIffNoOrphans` | shared/sourcemanager/coordinator.go:169-177 | Stopping tells every running heartbeat of the pod to stop if and only if none is orphaned, that is running, out of the map, with its channel still open. |
| `Leases.StepOrphansIffClaimOfLeased` | shared/sourcemanager/coordinator.go:117-120 | A step orphans a heartbeat if and only if it installs a claim for a stream that is leased by a running heartbeat; Release, Stop, Rebalance and renewals orphan none. |
| `Leases.NoOrphansIffNoOverlap` | shared/sourcemanager/coordinator.go:98-120 | A run never has an orphan if and only if no claim in it is installed over the lease of a running heartbeat. |
| `Leases.OverlappingClaimsOrphanTheFirst` | shared/sourcemanager/coordinator.go:98-122 | Two overlapping claims of one stream, both granted, leave the first entry with a running heartbeat that Stop no longer reaches. |
| `Coordinator.LeadershipCoordinator.constructor` | shared/sourcemanager/coordinator.go:66-81 | A new coordinator is a pod without leases. |
| `Coordinator.LeadershipCoordinator.FindLease` | shared/sourcemanager/coordinator.go:90-98 | The first locked region finds a lease and refreshes its callback. |
| `Coordinator.LeadershipCoordinator.InstallLease` | shared/sourcemanager/coordinator.go:111-122 | The second locked region files a new entry with an open channel and a new heartbeat. |
| `Coordinator.LeadershipCoordinator.EnsureLeadership` | shared/sourcemanager/coordinator.go:85-125 | True without a call when leased; otherwise as the server answers, with an entry only when granted. |
| `Coordinator.LeadershipCoordinator.Release` | shared/sourcemanager/coordinator.go:128-161 | Closes and deletes the lease of one stream; a release call follows exactly if there was one. |
| `Coordinator.LeadershipCoordinator.Stop` | shared/sourcemanager/coordinator.go:164-195 | Closes every open lease once, empties the map, and lists each stream once for its release call. |
| `Coordinator.LeadershipCoordinator.PassGate` | shared/sourcemanager/coordinator.go:255-277 | The stabilization gate on the fields is the pure gate. |
| `Coordinator.LeadershipCoordinator.ShedExcess` | shared/sourcemanager/coordinator.go:279-305 | Closes and deletes exactly the alphabetically last leases above the cap. |
| `Coordinator.LeadershipCoordinator.Rebalance` | shared/sourcemanager/coordinator.go:229-340 | The rebalance on the mutable entries is the rebalance of the pod state, keeps min(leases, fair share) leases at a settled peer count and all of them otherwise, and returns the released ids in order. |
| `Coordinator.LeadershipCoordinator.HeartbeatRenewal` | shared/sourcemanager/coordinator.go:345-410 | One renewal of an entry updates the object as the pod state says. |
| `Coordinator.LeadershipCoordinator.GiveUp` | shared/sourcemanager/coordinator.go:374-385 | Giving up deletes the lease if it is still this very entry and starts the callback if there is one. |
| `Coordinator.SortAndCut` | shared/sourcemanager/coordinator.go:289-297 | Collecting in any order, sorting and cutting gives the alphabetically last ids, each once. |
| `Coordinator.TryRenewWithRetry` | shared/sourcemanager/coordinator.go:416-467 | One to three calls; only errors are retried; renewed exactly if the last answer was yes. |
| `Coordinator.Heartbeat` | shared/sourcemanager/coordinator.go:342-412 | The loop over ticks and the closed stop channel ends as the pure heartbeat does: at the second consecutive failure, at the stop, or not at all. |
| `Coordinator.StoppedOrAsTicksSay` | shared/sourcemanager/coordinator.go:355-411 | A ticking heartbeat is as the outcomes of its ticks say up to its first look at the closed channel, which stops it if it is still there. |
| `Fleet.StepKeepsGood` | services/source-manager/election/leader.go:82-185 | Every fleet step but an expiry of a stream somebody has an interest in keeps: at most one lease, pending grant or pending release per stream, and only with its holder. |
| `Fleet.ExclusionWithoutExpiry` | services/source-manager/election/leader.go:82-185 | While nothing expires, no interleaving of any number of pods, with lost replies and late releases, has two leaders of one stream, and every leader is the holder. |
| `Fleet.ExpiryIsSafeIffNoInterest` | shared/sourcemanager/coordinator.go:147-160 | An expiry can lead to two leaders if and only if some pod has a lease, an uninstalled grant or a release under way for the stream; a release runs after the lease is gone and can undo a later claim of the same pod. |
| `Fleet.UnheldStreamLeavesRoom` | shared/sourcemanager/coordinator.go:279-284 | By pigeonhole a stream nobody holds means some pod is strictly under ceil(T / P). |
| `Coverage.BalancedReleasesNothing` | shared/sourcemanager/coordinator.go:282-287 | With every pod at or under its cap no rebalance of any pod at any time releases anything. |
| `Coverage.SettledCanCover` | shared/sourcemanager/coordinator.go:279-305 | From a fleet whose held streams are all led, with no pod over its cap, the free streams can be taken one after the other until every stream is led, still with no pod over its cap. |
| `Coverage.FullCoverageStaysPossible` | shared/sourcemanager/coordinator.go:279-305 | From every good fleet, whatever is under way, some run without unsafe expiries ends with every stream led by exactly one pod and no pod over its cap: shedding never puts full coverage out of reach. |
| `Coverage.TwoRoundsBalance` | shared/sourcemanager/coordinator.go:245-305 | From every fleet, two rounds in which each pod sees all the pods, a stabilization period apart, leave every pod with what it led or, if that was more, with exactly its fair share. |
| `Stopping.NoOrphansWithoutUnsafeExpiry` | services/source-manager/election/leader.go:92-93 | Without an unsafe expiry no interleaving of a fleet orphans a heartbeat, since the server refuses a stream to its holder; an expiry must fall between the two grants. |
| `Stopping.StopHoldsIffNoneMissed` | shared/sourcemanager/coordinator.go:98-122 | Stop ends every heartbeat of a pod for good, whatever happens short of new claims by it, if and only if the pod has no orphan and no granted claim that it has yet to install. |
| `Stopping.GrantOutlivesStop` | shared/sourcemanager/coordinator.go:100-122 | A claim that was granted before Stop and is installed after it makes a running heartbeat with an open channel: the coordinator does not remember that it was stopped. |
| `Stopping.StopHoldsIffNoGrants` | shared/sourcemanager/coordinator.go:164-195 | In every run of a fleet without unsafe expiries only such grants keep Stop from ending every heartbeat. |
| `Recovery.CarefulRunIsSound` | services/source-manager/election/leader.go:82-185 | Whatever expires and whenever, in every run in which pods claim no stream they still lead, await or are releasing, each pod has at most one interest in a stream; any of them may be stale. |
| `Recovery.StaleLeaseEndsIffTicking` | shared/sourcemanager/coordinator.go:345-386 | A lease the server no longer backs, and that nothing but its heartbeat touches, ends if and only if the heartbeat is ticking, by its second failure; one whose initial renewal fails makes a second leader for good. |
| `Recovery.LapsedGrantLeads` | shared/sourcemanager/coordinator.go:100-122 | A grant that expires before the pod installs it makes, once installed, a leader that the server does not back, for good: its initial renewal can only fail. |
| `Recovery.LeadersHoldAgainIff` | shared/sourcemanager/coordinator.go:342-412 | After any expiries, once ticking heartbeats of stale leases have failed twice and lapsed grants have been installed, every leader is the holder again, and no stream has two, if and only if every stale lease had a ticking heartbeat and no grant under way had lapsed. |
| `Tenure.KeptIffRenewed` | shared/sourcemanager/coordinator.go:349-411 | In every run without unsafe expiries a pod whose heartbeat ticks keeps a stream it neither releases nor sheds, with a live heartbeat and as its holder, if and only if no two renewals in a row fail to get through. |
| `Tenure.LostCallBlocksUntilExpiry` | services/source-manager/election/leader.go:82-185 | Once the reply to a granted claim or a release call got lost, no run without an expiry gives the stream to any pod; an expiry is then safe, and any pod can lead the stream after it. |
| `SeenIds.SeenIdCache.constructor` | frontend/src/core/overlayStreamCore.ts:125-127 | A new cache has seen nothing. |
| `SeenIds.SeenIdCache.MarkSeen` | frontend/src/core/overlayStreamCore.ts:129-139 | The set always holds the elements of the duplicate-free queue, the queue is the last `capacity` accepted ids, and an id is reported seen exactly if it is non-empty and among them. |
| `SeenIds.SeenIdCache.Size` | frontend/src/core/overlayStreamCore.ts:140-142 | The size of the set is the length of the queue, at most the capacity. |
| `SeenIds.SuppressedIffRecentlyAccepted` | frontend/src/hooks/useOverlayStream.ts:394-396 | Over every stream of ids a non-empty id is suppressed if and only if it was accepted before and fewer than `capacity` ids were accepted since. |
| `SeenIds.AcceptedIdsRepeatLate` | frontend/src/core/overlayStreamCore.ts:129-139 | An id is accepted twice only with at least `capacity` acceptances from one to the other. |
| `PlatformStatus.ActiveIffLastConnected` | frontend/src/core/overlayStreamCore.ts:205-243 | In every run a source is active if and only if its last accepted frame among connected, offline, error and paused said connected. |
| `PlatformStatus.StoredStatusAgrees` | frontend/src/core/overlayStreamCore.ts:214-242 | A source stored as connected is active; an active one is stored, under its own key, and not as offline, error or paused. |
| `PlatformStatus.StoredIsShown` | frontend/src/core/overlayStreamCore.ts:230-237 | In every run the stored frame of a source is its last accepted one, except that one saying connected is not replaced by any number that say reconnecting. |
| `PlatformStatus.DifferentSourcesCommute` | frontend/src/core/overlayStreamCore.ts:52-54 | Frames of different sources commute, since the key is injective for colon-free platform names whatever the channel ids. |
| `Reconnect.DelayRange` | frontend/src/core/overlayStreamCore.ts:61-66 | A backoff delay lies in [min(1000 * 1.5^n, 30000), that + 1000), between 1000 and 31000 ms. |
| `Reconnect.DelayCurve` | frontend/src/core/overlayStreamCore.ts:61-66 | The base delay is 1000 ms at first and grows by half with each failure up to 30000 ms; the jitter is the random number in seconds. |
| `Reconnect.RunKeepsInv` | frontend/src/hooks/useOverlayStream.ts:282-499 | Every run of socket, timer, status and visibility events keeps the timer, curve, recovery, watchdog, due-time and no-reconnect-lost invariants. |
| `Reconnect.EveryRun` | frontend/src/hooks/useOverlayStream.ts:293-363 | In every run: at most one reconnect timeout is pending; each bound socket fires at most one; delays are 0 or in [1000, 31000) and follow the curve in consecutive failures; recovery reconnects are 15 s apart; a socket that is neither connecting nor open has the next bind on its way, or is in the peer's closing handshake, watched and heard within 45 s; one silent for longer has the next bind on its way, and after 76 s it has been requested. |
| `Reconnect.UnderWayCompletes` | frontend/src/hooks/useOverlayStream.ts:293-303 | A bind that is on its way completes within 31 s in a fresh connecting socket, with an open latch and no timeout left. |
| `Reconnect.RequestsAreNeverLost` | frontend/src/hooks/useOverlayStream.ts:304-334 | However often a reconnect is requested, the socket is latched, at most one timeout is pending and the next bind is on its way. |
| `Reconnect.RecordedIsLastReported` | frontend/src/hooks/useOverlayStream.ts:424-429 | In every run the recorded status of a source is the last one it reported to an open socket while configured; no other event, and no rebind, changes it. |
| `Reconnect.ReplacedIffSourceComesBack` | frontend/src/hooks/useOverlayStream.ts:424-445 | In every run a status frame makes its open socket be replaced at once if and only if it says connected, its source is configured and last reported offline, error, paused or reconnecting, and the last such replacement is 15 s ago; otherwise the socket stays open and nothing is scheduled. |
| `Reconnect.AnsweredPingsKeepTheSocket` | frontend/src/hooks/useOverlayStream.ts:344-363 | An open socket whose pings are all followed by a frame within 20 s is never found stale by the watchdog. |
| `Reconnect.AnsweredRunsAreQuiet` | frontend/src/hooks/useOverlayStream.ts:344-363 | The same for every run from the first bind. |
| `Reconnect.SilenceIsNoticed` | frontend/src/hooks/useOverlayStream.ts:344-363 | From every state of an attended socket the intervals alone, with no frame and no other event, get it given up by its watchdog, between 40 and 45 s after its last sign of life, with the next bind on its way. |
| `OverlaySocket.OverlaySocket.constructor` | frontend/src/hooks/useOverlayStream.ts:278-303 | A new object satisfies the machine's invariant in its start state. |
| `OverlaySocket.OverlaySocket.FireReconnect` | frontend/src/hooks/useOverlayStream.ts:293-297 | Keeps the invariant; the rebind is requested, no timeout is left, and the socket, which had not fired before, has used its one rebind. |
| `OverlaySocket.OverlaySocket.OnOpen` | frontend/src/hooks/useOverlayStream.ts:337-363 | Keeps the invariant; no reconnect timeout is pending, the curve starts over, this is the last sign of life, and the intervals run 20 s and 5 s from now. |
| `OverlaySocket.OverlaySocket.OnTraffic` | frontend/src/hooks/useOverlayStream.ts:365-366 | Keeps the invariant; after any frame the watchdog would not find the socket stale. |
| `OverlaySocket.OverlaySocket.OnStatus` | frontend/src/hooks/useOverlayStream.ts:424-445 | Keeps the invariant; records what a configured source says; the socket is given up, with a reconnect that fires at once, if and only if a configured source comes back outside the cooldown. |
| `OverlaySocket.OverlaySocket.OnClose` | frontend/src/hooks/useOverlayStream.ts:476-478 | Keeps the invariant; exactly one timeout is pending, with the delay of the failures so far, and the next failure will wait longer along the curve. |
| `OverlaySocket.OverlaySocket.HeartbeatTick` | frontend/src/hooks/useOverlayStream.ts:346-354 | Keeps the invariant, and that the last ping is recent: an open socket has a ping waiting for a frame, and the next tick is 20 s away. |
| `OverlaySocket.OverlaySocket.WatchdogTick` | frontend/src/hooks/useOverlayStream.ts:358-362 | Keeps the invariant; afterwards the socket is still attended and has been heard within 40 s, or it is given up and its replacement waits along the curve. |
| `OverlaySocket.OverlaySocket.ReconnectIfDead` | frontend/src/hooks/useOverlayStream.ts:508-515 | Keeps the invariant; a connecting or healthy socket is left exactly as it is, and of any other the next bind is requested or due at once. |
| `OverlaySocket.OverlaySocket.RunEffect` | frontend/src/hooks/useOverlayStream.ts:278-303 | Keeps the invariant; nothing of the old socket is pending, and the new one has its rebind still to use. |
| `OverlaySocket.OverlaySocket.Dispatch` | frontend/src/hooks/useOverlayStream.ts:282-525 | Every event in every state is handled as the machine says and keeps its invariant, so each run of the object is a run of the machine and the results over runs hold of it. |
| `Base64.RoundTrip` | shared/encryption/encryption.go:88-116 | Decoding an encoding, as leniently as the standard decoder does, gives the bytes back, for every byte string (section 4 of RFC 4648). |
| `Base64.SymbolIs` | shared/encryption/encryption.go:88-116 | The symbols are the alphabet of table 1 in section 4 of RFC 4648. |
| `Base64.UnusedBitsAreZero` | shared/encryption/encryption.go:88-116 | An encoding leaves the unused bits of its last symbol zero, as section 3.5 of RFC 4648 asks. |
| `Base64.OnlySymbolsHaveValues` | shared/encryption/encryption.go:74-78 | Only the symbol of a value is read as that value. |
| `Base64.DecodesIffWellFormed` | shared/encryption/encryption.go:74-78 | Without its line breaks, a text decodes if and only if it is whole groups of four symbols of which the last may end with one or two paddings. |
| `Base64.NewlinesAreSkipped` | shared/encryption/encryption.go:74-78 | A carriage return or line feed is skipped wherever it stands, and no other byte is. |
| `KeyChain.NewMultiKeyEncryptor` | shared/encryption/versioned.go:122-139 | Succeeds as registering the entries in order does, with the last one as the write key; the first reserved or repeated kid is the error. |
| `KeyChain.RegistersIffRegistrable` | shared/encryption/versioned.go:126-136 | Registering succeeds if and only if all kids are in 0x01..0x7F and distinct. |
| `KeyChain.FirstBadKidIsTheError` | shared/encryption/versioned.go:126-133 | The first entry whose kid is out of range or repeated decides the error. |
| `KeyChain.RegisteredEntries` | shared/encryption/versioned.go:126-136 | The table then holds exactly the entries. |
| `KeyChain.EncodedKeysParse` | shared/encryption/encryption.go:74-78 | A key configured in base64 is read back, whatever its bytes. |
| `KeyChain.RawKeysParseIffNotBase64` | shared/encryption/encryption.go:80-83 | A raw text of a key size is taken as it is if and only if it does not decode to a key. |
| `KeyChain.ParsesIffKeySized` | shared/encryption/encryption.go:69-86 | A text is a key if and only if it is, or decodes to, 16, 24 or 32 bytes. |
| `KeyChain.SixteenBytesAreRaw` | shared/encryption/encryption.go:74-83 | A raw text of 16 bytes is always taken as it is. |
| `KeyChain.EncodedKeysLookRaw` | shared/encryption/encryption.go:65-68 | The ambiguity is real: the encoding of every 16- or 24-byte key has itself a key size. |
| `KeyChain.VersionedKeys` | shared/encryption/versioned.go:181-201 | The discovery loop takes exactly the variables before the first gap, and fails exactly if one of them does not parse, naming the first such. |
| `KeyChain.LegacyChain` | shared/encryption/versioned.go:206-231 | One legacy key for each set legacy variable, the older variable first, unless one does not parse. |
| `KeyChain.NewMultiKeyEncryptorFromEnv` | shared/encryption/versioned.go:176-234 | Kids 1 to the last variable before the first gap are registered with their keys and the last is current; it succeeds if and only if there is a first variable and every variable looked at parses. |
| `KeyChain.DecryptStringWithKid` | shared/encryption/versioned.go:294-326 | The versioned attempt and the first-match loop over the legacy keys compute the specified decryption. |
| `KeyChain.EncryptThenDecrypt` | shared/encryption/versioned.go:245-260 | Decrypting anything EncryptString wrote gives its plaintext and CurrentKid. |
| `KeyChain.EncryptedBlob` | shared/encryption/versioned.go:245-260 | A ciphertext is the base64 text of the kid, the 12-byte nonce and the cipher's output, which is 16 bytes longer than the plaintext. |
| `KeyChain.LegacyDecrypts` | shared/encryption/versioned.go:296-321 | A kid-less blob sealed by a legacy key decrypts to its plaintext and LegacyKid, whatever its first byte and length, if and only if the key that byte may name does not authenticate the rest and no earlier legacy key opens it to something else. |
| `KeyChain.EmptyLegacyDecrypts` | shared/encryption/versioned.go:71-73 | The 28-byte blob of an empty plaintext under the first legacy key always decrypts: it is never taken for a versioned one. |
| `KeyChain.NewerKeyChangesNothing` | shared/encryption/versioned.go:122-139 | A newer key leaves the plaintext and kid of a ciphertext unchanged if and only if the ciphertext does not carry the new kid byte before bytes that the new key authenticates. |
| `KeyChain.LegacyBlobIsMistaken` | shared/encryption/versioned.go:296-311 | The exception for legacy blobs occurs: under a correct cipher that authenticates anything, every non-empty legacy blob whose nonce starts with a registered kid is mistaken. |
| `KeyChain.NewerKeyMayChange` | shared/encryption/versioned.go:296-311 | So does the exception for newer keys. |
| `KeyChain.ColumnRotates` | services/auth-service/cmd/key-rotator/sweeper.go:144-169 | A readable column ends with its plaintext under the current kid; one already there is not rewritten, and an empty one stays. |
| `KeyChain.RowRotates` | services/auth-service/cmd/key-rotator/sweeper.go:189-220 | A row is rewritten only if all its columns are readable, and then all are current. |
| `KeyChain.SweepConverges` | services/auth-service/cmd/key-rotator/sweeper.go:179-235 | However rows are visited and revisited, a visited readable row ends at the current kid throughout, plaintexts stay, unreadable rows stay. |
| `KeyChain.FurtherSweepIsNoOp` | services/auth-service/cmd/key-rotator/sweeper.go:165-167 | After a sweep over every readable row any further sweep changes nothing. |
| `KeyChain.SweptRowsOutliveOldKeys` | services/auth-service/cmd/key-rotator/sweeper.go:151-158 | After its visit a row decrypts to its original plaintexts with the current key alone, so every older key can be retired. |
| `Premium.Database.Recompute` | shared/premium/recompute.go:96-163 | Writes and returns: the override if it is set and not expired, else whether the user has an active subscription or is a beta tester or ambassador; changes nothing else, and nothing for an unknown user. |
| `Premium.UserEntitledIff` | shared/premium/recompute.go:61-66 | That is what a user is entitled to, by the rows and the clock. |
| `Premium.Database.ExpireUserOverrideIfDue` | shared/premium/recompute.go:175-208 | Clears and recomputes exactly a set override whose expiry has come; otherwise changes nothing. |
| `Premium.Database.RecomputeViewer` | shared/premium/recompute.go:230-295 | Writes and returns: the override if it is set and not expired, else whether the viewer has an active viewer subscription or a linked user with a true column; changes nothing else. |
| `Premium.ViewerEntitledIff` | shared/premium/recompute.go:251-295 | What a viewer is entitled to is the same with linked users that are entitled. |
| `Premium.Database.ExpireViewerOverrideIfDue` | shared/premium/recompute.go:301-334 | The viewer counterpart. |
| `Premium.StepsKeepEntitlements` | shared/premium/recompute.go:61-66 | No recompute or expiry changes what any user or viewer is entitled to, now or at any later time, and a permanent or still running override is never cleared. |
| `Premium.UsersConverge` | shared/premium/recompute.go:118-163 | While no expiry passes, a user recomputed anywhere in a run ends with the column it is entitled to. |
| `Premium.ViewersConverge` | shared/premium/recompute.go:251-295 | So does a viewer recomputed after the users linked to it. |
| `Premium.EveryCoveringRunConverges` | shared/premium/recompute.go:86-95 | Any number and order of recomputes and expiries in which users come before their linked viewers ends with every column equal to the pure entitlement. |
| `Premium.ConvergedIsFixpoint` | shared/premium/recompute.go:86-95 | From there no further run changes a column. |
| `Premium.ViewerFirstIsLeftBehind` | shared/premium/recompute.go:270-274 | The order is needed: a viewer recomputed before its linked user ends with a wrong column. |
| `RateLimit.RateLimiter.constructor` | shared/ratelimit/ratelimit.go:53-64 | An empty prefix becomes "ratelimit". |
| `RateLimit.RateLimiter.CheckLimit` | shared/ratelimit/ratelimit.go:158-189 | Counts the request, moves the expiry to the end of the minute, allows exactly while fewer than the limit came before; unreachable counters are an error with the reset time. |
| `RateLimit.RateLimiter.CheckLimitForKey` | shared/ratelimit/ratelimit.go:192-195 | The same under the custom key: the count, the verdict, what remains and the reset time. |
| `RateLimit.LiveIsCount` | shared/ratelimit/ratelimit.go:160-176 | In every run in time order a live counter is the number of its key's requests in the running minute. |
| `RateLimit.ResetIsNextMinute` | shared/ratelimit/ratelimit.go:160-164 | The reset time is the first full minute after now. |
| `RateLimit.AllowedIffEarlyEnough` | shared/ratelimit/ratelimit.go:178-179 | A request is allowed if and only if fewer than the limit of its key came before it in its minute. |
| `RateLimit.AlignedMinute` | shared/ratelimit/ratelimit.go:158-189 | In an aligned minute exactly min(n, limit) of n requests of a key are allowed. |
| `RateLimit.AnyMinuteLongInterval` | shared/ratelimit/ratelimit.go:158-189 | In any half-open 60 s interval at most twice the limit is allowed. |
| `RateLimit.TwiceTheLimitIsReached` | shared/ratelimit/ratelimit.go:160-162 | And twice the limit is reached, for every limit, across a minute boundary. |
| `RateLimit.KeysAreIndependent` | shared/ratelimit/ratelimit.go:166-173 | A verdict is the one the key's own requests alone would give. |
| `RateLimit.SameBucketKeys` | shared/ratelimit/ratelimit.go:131-154 | In one bucket two requests share a key if and only if they name the same user, or neither names one and they name the same viewer, or neither names either and they come from the same address. |
| `RateLimit.AcrossBuckets` | shared/ratelimit/ratelimit.go:128-135 | Across buckets without colons and reserved names, keys are equal if and only if bucket and client are. |
| `RateLimit.CustomKeysAreApart` | shared/ratelimit/ratelimit.go:192-194 | No such client key is a custom key. |
| `RateLimit.BucketIsIsolatedIffProper` | shared/ratelimit/ratelimit.go:73-78 | A named colon-free bucket shares no counter with the unscoped and custom keys if and only if it is not called user, viewer or custom; one called ip is safe, since no address reads like a client key. |
| `RateLimit.KindBucketLeaks` | shared/ratelimit/ratelimit.go:131-152 | In a bucket called user or viewer every address shares the counter of the user or viewer whose id is "ip:" and that address. |
| `SendAll.FieldsOfJoin` | shared/sendall/sendall.go:55 | Splitting undoes joining for every list of non-empty space-free words. |
| `SendAll.FieldsAreWords` | shared/sendall/sendall.go:55 | The fields of every text are such words. |
| `SendAll.FieldsOfSpacing` | shared/sendall/sendall.go:55 | However a text alternates between gaps of blanks, tabs and line breaks and words without any, those words are its fields. |
| `SendAll.EveryTextIsSpaced` | shared/sendall/sendall.go:55 | And every text alternates so. |
| `SendAll.LowerOfLetters` | shared/sendall/sendall.go:54 | The 26 capital letters become the small ones; every other character stays. |
| `SendAll.NormalizeAlike` | shared/sendall/sendall.go:51-56 | Two texts normalize alike if and only if their lower-cased fields are the same. |
| `SendAll.NormalizeIsIdempotent` | shared/sendall/sendall.go:51-56 | Normalizing twice is normalizing once. |
| `SendAll.NormalizedIffCanonical` | shared/sendall/sendall.go:51-56 | A text is its own normal form if and only if it is lower-case with single blanks strictly between words. |
| `SendAll.KeyDetermines` | shared/sendall/sendall.go:62-65 | For any names a key determines platform and sender as one field and the digest of the normalized text, and is determined by them. |
| `SendAll.KeysAreExact` | shared/sendall/sendall.go:58-65 | With colon-free platforms and no digest collision, keys are equal if and only if platform, sender and normalized text are, colons in the sender id included. |
| `SendAll.ColonInPlatformCollides` | shared/sendall/sendall.go:64 | With a colon in a platform name two senders share a key. |
| `SendAll.PublishedKeysAreExact` | shared/sendall/sendall.go:67-72 | With colon-free overlay ids, published markers are equal if and only if overlay and group are. |
| `SendAll.MarkersAreApartIffNotPub` | shared/sendall/sendall.go:62-72 | A registration of a colon-free platform can equal a published marker if and only if the platform is called pub. |
| `AlertText.RenderText` | shared/alerts/alerts.go:252-270 | The text is the template read once into characters and placeholders, each placeholder replaced by its value or left as it is. |
| `AlertText.EachPlaceholder` | shared/alerts/alerts.go:252-270 | {username}, {amount}, {count} and {message}, wherever they stand, become the user name, the display text, the count and the message, or stay if the alert has none; text without braces stays. |
| `Template.ReplaceIsRendered` | shared/alerts/alerts.go:266-269 | A single left-to-right replacement with only the pairs that have a value equals reading the template once and filling each slot. |
| `Template.TokensAreTheTemplate` | shared/alerts/alerts.go:249-251 | Reading loses nothing: writing the tokens gives the template back. |
| `Template.ReadingIsUnique` | shared/alerts/alerts.go:249-251 | It is the only reading in which no placeholder is spelled out in characters. |
| `Template.SlotsAreIndependent` | shared/alerts/alerts.go:249-251 | Wherever a placeholder stands, the text around it renders as it would alone and the value is copied unread, even if it contains placeholders; one without a value stays literally. |
| `AlertText.LayeringIsIdempotent` | shared/alerts/alerts.go:193-215 | Layering a profile over the base again changes nothing, saved or not. |
| `AlertText.LayeringKeepsUnits` | shared/alerts/alerts.go:200-215 | An unsaved profile takes the base's timing and a saved one keeps its own; custom code moves as a unit and only into a profile without any; image and sound are filled only if empty; either switch silences; type, template and order stay. |
| `AlertText.LayeringKeepsValidity` | shared/alerts/alerts.go:200-247 | Two valid profiles layer to a valid one. |
| `AlertText.Validate` | shared/alerts/alerts.go:218-247 | No error if and only if the event type is known, template, code, duration and volume are within their limits and both URLs are loadable; an unknown event type is reported exactly when it is one, and each other error names a limit that is exceeded, in whatever order fields are visited. |
| `AlertText.Resolve` | shared/alerts/alerts.go:274-286 | The alert's own image, sound and text win where present, the rest is the profile's and its rendered template. |
| `AlertText.ResolvedIsValidIffOwnMediaIs` | shared/alerts/alerts.go:274-280 | A valid profile stays valid if and only if the alert's own image and sound are absent or loadable. |
| `Signing.NewSigner` | shared/signing/signing.go:75-87 | A secret under 32 bytes is an error, any other gives a signer with it. |
| `Signing.Signer.SignRequest` | shared/signing/signing.go:90-115 | Sets the three headers for the claim at the clock's second; a body that cannot be read leaves them as they were. |
| `Signing.Signer.VerifySignature` | shared/signing/signing.go:251-271 | No error if and only if the age is within the window and the signature is that of the claim; too old is told apart first. |
| `Signing.Signer.VerifyMiddleware` | shared/signing/signing.go:118-218 | Passes if and only if all headers are there, the timestamp is a 64-bit number in the window, the body is readable and the signature matches; otherwise the first failing check is the error. |
| `Signing.TimestampBytesAreInjective` | shared/signing/signing.go:240-242 | The eight bytes are the timestamp modulo 2^64, the most significant first, and determine every 64-bit timestamp, negative ones included. |
| `Signing.FramesAreExact` | shared/signing/signing.go:229-244 | The signed bytes are 168, and equal if and only if the timestamp and every field digest are. |
| `Text.HexAt` | shared/signing/signing.go:245 | Each byte is two lower-case hexadecimal digits, the high one first. |
| `Text.NumeralsParse` | shared/signing/signing.go:148 | A timestamp header is a number if and only if it is an optional sign and digits; a plus sign and leading zeros change nothing. |
| `Text.FormatIs` | shared/signing/signing.go:111 | A timestamp header has a minus sign exactly if it is negative, and no leading zero. |
| `Signing.SignaturesAreExact` | shared/signing/signing.go:220-246 | Unless a hash collides, signatures are equal if and only if method, path, query, service, timestamp and body are. |
| `Signing.DelimitedCollides` | shared/signing/signing.go:222-228 | The bar-joined form gives one text to two different requests, for every choice of fields. |
| `Signing.SignedPassesIffTimelyAndNamed` | shared/signing/signing.go:128-196 | A signed, unaltered request passes if and only if its age is between -60 s and 300 s and its service has a name. |
| `Signing.SignaturePassesOnlyItsOwn` | shared/signing/signing.go:195-206 | Unless a hash collides, a signature passes only with the method, path, query, service, timestamp and body it was made for. |
| `Signing.AlteredRequestIsRejected` | shared/signing/signing.go:195-206 | Within the window and unless a hash collides, the headers signed for one request pass on another if and only if method, path, query and the bytes read from the body are the same; otherwise the error is the invalid signature. |
| `Signing.FirstFailingCheck` | shared/signing/signing.go:128-193 | The checks come in the order signature, timestamp, service, 64-bit timestamp, age, skew, body, and the first that fails is the error. |

## Left out

- Metrics, logging, tracing, gauges and HTTP handlers: they change none of the modelled state.
- Redis, PostgreSQL, HTTP, WebSocket and React: replaced by atomic steps, parameters and event traces. The Lua scripts and
  the key expiry of the lease server are its contract here.
- AES-GCM, SHA-256, HMAC and random numbers: parameters with hypotheses.
- Coordinator.LeadershipCoordinator.EnsureLeadership: the nil coordinator that leads everything is not modelled; the method
  runs both locked regions without interference, while `Leases` and `Fleet` interleave them.
- Coordinator.LeadershipCoordinator.Rebalance: a negative number of streams is not modelled, and a failed peer registration
  returns before anything changes.
- RingBuffer.RingBufferPublisher.Stop: the object has no goroutine; closing the channel and the worker's return are the Stop and
  Exit steps of `RetryProtocol`.
- Coordinator.TryRenewWithRetry: the pauses between attempts are not modelled.
- Coordinator.LeadershipCoordinator.Stop: closes and deletes lease by lease instead of closing all before replacing the map;
  both happen under one lock.
- Fleet.ExclusionWithoutExpiry: the time to live of a lease is not measured; an expiry is a step that may happen any time.
- RetryProtocol.EveryInterleaving: payloads keep no enqueue time, and the 500 ms between ticks is any time.
- Recovery.LeadersHoldAgainIff: the fleet has no step in which a heartbeat sees its stop channel; a stopped heartbeat may go on
  renewing there, which only adds runs. Pods claim no stream they still lead, await or are releasing, although a claim may
  overlap a release call of the same pod after an expiry.
- Reconnect.EveryRun: browser throttling of timers and two reconnects in one millisecond, which the hook numbers by the clock,
  are not modelled.
- `advanceWatermark`, badge resolution, the name-gradient parser and alert, goal and list frames: easy members or user interface;
  the watermark also takes wall-clock values, so it is not monotone.
- KeyChain.SweepConverges: a visit reads and writes its row at once; the batching of writes, dry runs and rows changed by others
  meanwhile are not modelled, nor are the tables that skip columns.
- KeyChain.NewMultiKeyEncryptorFromEnv: the warning about weak keys is not modelled, and an error does not carry its text.
- Premium.Database.RecomputeViewer: a premium column that is NULL counts as false; transactions that fail and roll back change nothing.
- RateLimit.RateLimiter.CheckLimit: resetting a key by hand, a pipeline that fails half-way and clocks that differ are not
  modelled; nor are the response headers and the choice between failing open and closed.
- SendAll.NormalizeIsIdempotent: characters are ASCII; Unicode spaces and case folding are not modelled.
- AlertText.RenderText: the printed form of a count is a given text; floating-point formatting is not modelled.
- AlertText.Validate: which texts are absolute http(s) URLs is a parameter.
- The default profiles and test alerts: constants without a property of their own.
- Signing.Signer.VerifySignature: the age is an unbounded integer; for a timestamp in the last 62 billion
  seconds before the 64-bit limit the library's time arithmetic wraps, and the request is rejected as too old instead of
  as too far ahead.
- The quota functions of the database, the message processor, token issuing, cookies, feature gates, pages and scripts: easy
  members or outside these cores.
