# Verified model of the VoIP repository

A Dafny 4.11 project about the stateful components and codecs of a peer-to-peer VoIP system: the
signaling server (rate limiter, peer and call registries, WebSocket sessions, tokens), the client
(session tickets, jitter buffer, NAT probing, MoQ and MASQUE wire formats, proxies), the core call
state machine and a UDP-over-TCP bridge script. `dafny verify dfyconfig.toml` checks all of it.

Code that works by changing things is modelled by classes and loops, each proved against a function
of the old state; the results over whole runs are lemmas about these functions.

| file | subject |
|---|---|
| `RateLimit.dfy` | token buckets: when eviction is invisible, and how much is admitted |
| `TicketStore.dfy` | TLS ticket store: what holds although its two deques drift apart |
| `Lru.dfy`, `Registry.dfy`, `Signaling.dfy` | bounded registries, and the session handlers as steps that interleave at every lock |
| `RegistryContents.dfy` | what the registries hold after a run, told by its operations |
| `HandlerPlan.dfy`, `AcceptHandler.dfy` | what each handler does from start to end; the handler that reads its call twice |
| `JitterBuffer.dfy` | sorted insertion and prefix drain against a plain filter |
| `NatProbe.dfy` | classification, port prediction, the probe cache, the ports dialled |
| `ProbeResponse.dfy` | the hand-written protobuf reader |
| `QuicVarint.dfy`, `Moq.dfy`, `MasqueCapsule.dfy` | varints (section 16 of RFC 9000), MoQ messages and handshake, DATAGRAM capsules (section 3.5 of RFC 9297) |
| `Base64.dfy`, `Jwt.dfy`, `ProxyToken.dfy` | base64 (sections 4 and 5 of RFC 4648), JWTs, proxy tokens |
| `Bridge.dfy` | length-prefixed frames over any chunking of TCP |
| `CallMachine.dfy`, `ProxyOrder.dfy` | call states with retries; proxy preference |
| `Arith.dfy`, `Bytes.dfy`, `Wrappers.dfy` | multiplication, division, numbers in bytes, optional values |

How the model relates to the program:

- Clocks, random choices, what the network delivers and whether a channel send succeeds are inputs.
- Tokens of the rate limiter are whole numbers: the program adds, subtracts and caps whole numbers in
  an `f64`. An operation reads the clock once. Time counts in the milliseconds to which the program
  truncates its differences.
- The standard deviation of port deltas, truncated from floating point in the program, is the floor of
  an exact square root.
- Machine integers are unbounded except where the width shows: varints, length prefixes, counters,
  16-bit ports, the 32-bit base64 buffer. Where slicing or arithmetic would panic the model has an
  outcome for it. The repository sets no build profile, so overflow is checked in development builds
  and wraps around in release builds: dialling is modelled for both, the probe-response reader for the
  former.
- Strings on the wire are their UTF-8 bytes. Ed25519 and JSON are functions that obey their usual laws,
  and the `lru` crate behaves as documented.
- A session handler is cut into steps at its lock acquisitions. Creating a call takes both registry
  locks, the first held while the second is taken, and is one step. Shutdown holds the lock of the peer
  id while it disconnects the peer, and is one step after the exchange of the flag.

Where the code and its own words disagree the model follows the code:

- `cleanup` is documented to drop buckets idle for more than two intervals, and then the oldest ones.
  It drops them at exactly two intervals already, and an over-full map loses entries in hash order.
- A ticket timestamp is documented as the time its ticket was stored. After a take the two deques no
  longer correspond (`TicketStore.SparesLiveIff`, `TicketStore.LiveTicketLost`), and overlapping
  insertions store their times out of order (`TicketStore.RunNeverStaleIff`).
- Duplicates are documented to be dropped by the jitter buffer; one of an already played datagram is not
  (`JitterBuffer.DistinctIff`, `JitterBuffer.PlayedTwice`). A drain looks at timestamps, not at how long a datagram was held, and
  attempts no recovery.
- The capsule decoder is documented to read the encoding in use; encoder and decoder share only
  one-byte numbers below 64 (`MasqueCapsule.CapsuleRoundTripIff`).
- The proxy's base64 encoder is documented as unpadded and pads.
- The cached NAT answer ignores the configured margins (`NatProbe.AlwaysAgreesIff`) and has no form for
  IPv6 (`NatProbe.CacheAgreesIff`).
- A retry of a call keeps the connection method of the failed attempt.

## Model

| member | source | states |
|---|---|---|
| `RateLimit.EvictionInvisibleIff` | crates/voip-signaling/src/rate_limit.rs:225-247 | For every configuration: over all runs of checks, removals and cleanups in which no cleanup overflows, evicting stale buckets never changes an answer if and only if two refill amounts are at least the maximum. |
| `RateLimit.EvictionInvisibleFrom` | crates/voip-signaling/src/rate_limit.rs:157-247 | The relation behind it, from any pair of maps that differ only in stale buckets: the run gives the answers, and every peer the admissions, of the same run without its cleanups. |
| `RateLimit.StaleActsAsNew` | crates/voip-signaling/src/rate_limit.rs:58-88 | A stale bucket and a new one reach the same state at the next request. |
| `RateLimit.EvictionVisible` | crates/voip-signaling/src/rate_limit.rs:225-247 | Otherwise there is a run whose answers differ: drain the bucket, wait two intervals, clean up, ask again. |
| `RateLimit.LifetimeBound` | crates/voip-signaling/src/rate_limit.rs:68-88 | A peer without a bucket is admitted at most max + refill * floor(T / interval) times in the next T milliseconds, over every run that keeps its bucket. |
| `RateLimit.BoundDespiteEviction` | crates/voip-signaling/src/rate_limit.rs:157-247 | The same bound for a peer whose stale buckets are evicted and created anew any number of times. |
| `RateLimit.WindowBound` | crates/voip-signaling/src/rate_limit.rs:157-199 | In every stretch of every run that lasts at most W milliseconds and keeps the bucket: at most 2 * max + refill * floor(W / interval) admissions, and at most max + refill + refill * floor(W / interval). |
| `RateLimit.WindowBoundDespiteEviction` | crates/voip-signaling/src/rate_limit.rs:157-247 | Both window bounds for a peer whose stale buckets are evicted and created anew in the window, where two refill amounts are at least the maximum. |
| `RateLimit.NeverRefused` | crates/voip-signaling/src/rate_limit.rs:157-247 | The lower bound: over every run from the empty map, a peer that from each request on makes at most min(max, refill) requests within one interval is never refused, whatever others do and whatever is removed, evicted or dropped. |
| `RateLimit.BurstExact` | crates/voip-signaling/src/rate_limit.rs:68-88 | Of requests of one peer at one moment, k whole intervals after the last refill, exactly as many are admitted as min(tokens + k * refill, max). |
| `RateLimit.NewBurstExact` | crates/voip-signaling/src/rate_limit.rs:58-88 | And exactly max of a peer without a bucket. |
| `RateLimit.NoRefillBackwards` | crates/voip-signaling/src/rate_limit.rs:79-88 | A clock that goes back refills nothing. |
| `RateLimit.RefillExact` | crates/voip-signaling/src/rate_limit.rs:79-88 | A refill after k whole intervals adds k refill amounts up to the maximum and restarts the interval; before the first one nothing changes. |
| `RateLimit.CleanupLeaves` | crates/voip-signaling/src/rate_limit.rs:225-247 | In every run a cleanup leaves the smaller of the limit and the number of buckets refilled less than two intervals ago, all of them such buckets with their states; if they fit, all of them. |
| `RateLimit.StepMissesOnlyStale` | crates/voip-signaling/src/rate_limit.rs:157-247 | One step keeps the relation between the cleaned and the uncleaned map, and both give the same answer. |
| `RateLimit.AdmittedFrom` | crates/voip-signaling/src/rate_limit.rs:68-88 | From any bucket state the number of admissions is at most the tokens plus what the clock can still add. |
| `RateLimit.CheckSpendsCredit` | crates/voip-signaling/src/rate_limit.rs:68-88 | One check lowers tokens plus future refills by at least the request it admits, although refilling drops the unfinished part of an interval. |
| `RateLimit.Bucket.constructor` | crates/voip-signaling/src/rate_limit.rs:58-64 | A new bucket is full and stamped with the current time. |
| `RateLimit.Bucket.Refill` | crates/voip-signaling/src/rate_limit.rs:79-88 | New tokens and stamp as a function of the old ones and the clock. |
| `RateLimit.Bucket.TryConsume` | crates/voip-signaling/src/rate_limit.rs:68-76 | Admits exactly if enough tokens are there after the refill, and then takes them. |
| `RateLimit.BucketMap.Check` | crates/voip-signaling/src/rate_limit.rs:157-199 | Looks up or creates the bucket and consumes one token; all other buckets stay as they are. |
| `RateLimit.BucketMap.Remove` | crates/voip-signaling/src/rate_limit.rs:212-217 | Drops exactly the bucket of one peer. |
| `RateLimit.BucketMap.Retain` | crates/voip-signaling/src/rate_limit.rs:235-239 | Keeps exactly the buckets refilled less than two intervals ago. |
| `RateLimit.BucketMap.Trim` | crates/voip-signaling/src/rate_limit.rs:240-246 | Leaves a map within the limit alone; cuts a larger one to exactly the limit, keeping the states of the entries that stay. |
| `RateLimit.BucketMap.Cleanup` | crates/voip-signaling/src/rate_limit.rs:234-247 | Both in sequence. |
| `TicketStore.RunIsSafe` | crates/voip-client/src/session_store.rs:153-187 | Over every run from the empty store, whatever the clocks show: a ticket is handed out only for the server it was stored for, always the newest one held at that moment, and none twice; at most four are held per server, and never more tickets than stamps. |
| `TicketStore.RunNeverStaleIff` | crates/voip-client/src/session_store.rs:153-187 | Over every run, whatever the clocks show: no eviction, at any time, leaves a ticket as old as the time to live in any state of the run, if and only if no insertion finds a younger stamp than its own where its ticket can hide behind it (or the time to live is zero). |
| `TicketStore.NeverStaleIff` | crates/voip-client/src/session_store.rs:78-88 | The exact condition on one record: no stamp up to the one beside a ticket is younger than the ticket. |
| `TicketStore.StepShieldedIff` | crates/voip-client/src/session_store.rs:153-187 | An insertion keeps that condition if and only if it is not overtaken; a take always keeps it. |
| `TicketStore.HandedOutLive` | crates/voip-client/src/session_store.rs:175-187 | Without overtaken insertions no ticket as old as the time to live is handed out. |
| `TicketStore.OvertakenIsHandedOut` | crates/voip-client/src/session_store.rs:153-187 | An insertion overtaken by a live stamp leads to a take that hands its ticket out too late. |
| `TicketStore.SequentialNeverOvertaken` | crates/voip-client/src/session_store.rs:153-187 | Operations one after the other, under a clock that never goes back, are never overtaken. |
| `TicketStore.SequentialIsFresh` | crates/voip-client/src/session_store.rs:153-187 | So over every such run whatever is handed out is live. |
| `TicketStore.NewestHandedOut` | crates/voip-client/src/session_store.rs:153-187 | The lower bound over runs: insertions for a server followed by takes, all within the time to live of every stamp, hand out the newest four tickets, or all if there are fewer, newest first, and then nothing. |
| `TicketStore.AfterInserts` | crates/voip-client/src/session_store.rs:153-173 | After such insertions the record is exactly the newest four tickets with the newest four stamps. |
| `TicketStore.TakesHandOut` | crates/voip-client/src/session_store.rs:175-187 | From any record whose oldest stamp stays live, takes hand out all its tickets from newest to oldest, and then nothing. |
| `TicketStore.InsertedDrops` | crates/voip-client/src/session_store.rs:153-173 | An insertion drops as many of the oldest entries as there are expired stamps in front or, if that leaves no room, just one ticket and stamp; all others stay, and the new ones are appended. |
| `TicketStore.TakenIsNewest` | crates/voip-client/src/session_store.rs:182-186 | What is handed out is the newest ticket held, it survived the eviction, and only older ones stay. |
| `TicketStore.StepKeepsOk` | crates/voip-client/src/session_store.rs:153-187 | Every operation keeps the sizes and the order of serial numbers. |
| `TicketStore.EvictedDrops` | crates/voip-client/src/session_store.rs:78-88 | The eviction loop drops as many tickets as there are expired stamps in front of the first live one. |
| `TicketStore.SparesLiveIff` | crates/voip-client/src/session_store.rs:78-88 | No later eviction loses a live ticket if and only if every ticket that is live has a stamp up to the one beside it that is no older than the ticket. |
| `TicketStore.KeptIff` | crates/voip-client/src/session_store.rs:78-88 | An eviction keeps the i-th ticket if and only if some stamp up to the i-th one has not expired. |
| `TicketStore.AlignedUntilTake` | crates/voip-client/src/session_store.rs:153-187 | Every ticket sits beside its own stamp as long as no ticket has been handed out. |
| `TicketStore.LiveTicketLost` | crates/voip-client/src/session_store.rs:175-187 | For every time to live of two ticks or more: a run in which one take makes a live ticket be evicted early. |
| `TicketStore.OverlapOutlivesTtl` | crates/voip-client/src/session_store.rs:158-159 | For every time to live but zero: two overlapping insertions after which a ticket is handed out at the age of the time to live. The clock is read before the lock is taken. |
| `TicketStore.StampsPileUp` | crates/voip-client/src/session_store.rs:175-187 | Taking leaves stamps behind without bound: for every n a sequential run from the empty store ends with no ticket and n stamps. |
| `TicketStore.ServerData.constructor` | crates/voip-client/src/session_store.rs:35-45 | Both deques start empty. |
| `TicketStore.ServerData.EvictExpired` | crates/voip-client/src/session_store.rs:78-88 | The loop computes the specified eviction of both deques. |
| `TicketStore.ServerData.Insert` | crates/voip-client/src/session_store.rs:162-172 | Evicts, makes room below the limit of four, and appends ticket and stamp. |
| `TicketStore.ServerData.Take` | crates/voip-client/src/session_store.rs:182-186 | Evicts and pops the newest ticket, not its stamp. |
| `TicketStore.SessionTicketStore.constructor` | crates/voip-client/src/session_store.rs:63-68 | An empty store with its time to live. |
| `TicketStore.SessionTicketStore.InsertTicket` | crates/voip-client/src/session_store.rs:153-173 | Inserts under one server name, creating its record on demand; other servers stay as they are. |
| `TicketStore.SessionTicketStore.TakeTicket` | crates/voip-client/src/session_store.rs:175-187 | Takes for one server name; nothing for an unknown one. |
| `Lru.EvictionCost` | crates/voip-signaling/src/state.rs:189-190 | Inserting into a full cache evicts a key only if as many distinct other keys as the cache holds were used since that key was. |
| `Lru.PutKeepsValid` | crates/voip-signaling/src/state.rs:189-190 | Insertion and overwriting keep the cache within capacity, with one place in the order per entry. |
| `Lru.GetAndPopKeepValid` | crates/voip-signaling/src/state.rs:189-190 | So do lookup and removal. |
| `Registry.RunKeepsOk` | crates/voip-signaling/src/state.rs:211-365 | In every run of registry operations both registries stay within 10,000 and 1,000 entries, each stored under its own id. |
| `Registry.CallLostOnlyWhenFull` | crates/voip-signaling/src/state.rs:299-365 | A registered call disappears only by removal, or because at least 1,000 distinct other calls were created or touched since it was last touched. |
| `Registry.PartiesNeverChange` | crates/voip-signaling/src/state.rs:299-365 | From creation to removal a call keeps its caller and callee. |
| `Registry.OrderIsRecent` | crates/voip-signaling/src/state.rs:299-365 | The order of the call registry is the order of use: whatever stands before a call was used after it. |
| `RegistryContents.RouteIff` | crates/voip-signaling/src/state.rs:211-293 | Over every run of registry operations: a message for a peer goes to a channel only if a registration gave the peer that channel and no later disconnect, unregistration or registration with a channel ended that; if the registry never dropped the peer of its own accord, also if. Then too the peer is unknown exactly if it was never registered or was unregistered since. |
| `RegistryContents.PeerFromRegistration` | crates/voip-signaling/src/state.rs:211-271 | What the registry holds of a peer is the info of its last registration, with the status set to offline if a disconnect came since. |
| `RegistryContents.PeerLostOnlyWhenFull` | crates/voip-signaling/src/state.rs:211-293 | A registered peer disappears only by being unregistered, or because at least 10,000 distinct other peers were registered or touched since it was last touched. |
| `RegistryContents.PeerStep` | crates/voip-signaling/src/state.rs:211-293 | The effect of every operation on one peer entry. |
| `RegistryContents.CallHistory` | crates/voip-signaling/src/state.rs:299-365 | While a call stays registered its entry is the earlier one with the state, end time and reason that the operations in between last gave it. |
| `RegistryContents.CallAppears` | crates/voip-signaling/src/state.rs:299-315 | A call appears only by being created between two registered peers, and as it was created. |
| `RegistryContents.CreateIff` | crates/voip-signaling/src/state.rs:299-315 | A creation succeeds if and only if both peers are registered and the id is free; otherwise nothing changes and the error names a missing peer or the taken id. |
| `RegistryContents.RemoveIff` | crates/voip-signaling/src/state.rs:318-365 | Of the operations that create no call exactly the removal of a call takes it out. |
| `Registry.AppState.constructor` | crates/voip-signaling/src/state.rs:180-200 | Both registries start empty. |
| `Registry.AppState.Register` | crates/voip-signaling/src/state.rs:211-236 | A known peer gets the new info and keeps its channel unless a new one comes; an unknown peer is inserted. |
| `Registry.AppState.Disconnect` | crates/voip-signaling/src/state.rs:249-263 | Removes the channel and marks the peer offline; repeating it changes nothing but the order of use. |
| `Registry.AppState.RouteTo` | crates/voip-signaling/src/state.rs:273-293 | Where a message for a peer goes: unknown, offline, or the channel. |
| `Registry.AppState.Create` | crates/voip-signaling/src/state.rs:299-315 | Creates a call exactly if both peers are known and the id is free. |
| `Registry.AppState.SetState` | crates/voip-signaling/src/state.rs:318-330 | Changes nothing but the state of the call, without a guard on the transition. |
| `Registry.AppState.End` | crates/voip-signaling/src/state.rs:333-351 | Records state, time and reason of the end, and leaves the call registered. |
| `Signaling.EveryFrameJustified` | crates/voip-signaling/src/session.rs:276-631 | In every interleaving of sessions, REST handlers and shutdowns: each forwarded CALL_*, MASQUE_RELAY_NEEDED or PUSH_RETRY frame answers one received message and goes to a participant of a call with its id; that very entry was in the registry, and the same handler saw it there, before the action that sends; the session had passed its check; forwarded payloads are the received bytes; a retry is always announced as the first. |
| `Signaling.SawWasRegistered` | crates/voip-signaling/src/session.rs:276-631 | Whatever a handler sees was the registry's entry after some earlier action. |
| `Signaling.NoRetryCounted` | crates/voip-signaling/src/session.rs:316-328 | In every interleaving every registered call has a retry count of zero: the server never writes it. |
| `Signaling.InvariantHolds` | crates/voip-signaling/src/session.rs:34-631 | The invariant of every reachable state behind it. |
| `Signaling.KnownStepFrame` | crates/voip-signaling/src/push.rs:160-212 | One handler step sends at most one frame, and a justified one: a retry goes to the other party with the attempt number within the limit. |
| `Signaling.KnownStepTask` | crates/voip-signaling/src/masque.rs:53-106 | What a handler has seen and been allowed stays true from step to step, through relay coordination and its fallback to a retry. |
| `Signaling.DisconnectedOnce` | crates/voip-signaling/src/session.rs:65-155 | In every interleaving a session has disconnected its peer exactly once if one of its two ending tasks has won the flag and finished, and never before. |
| `Signaling.ClosingDisconnects` | crates/voip-signaling/src/session.rs:65-155 | Whichever of them wins leaves the peer the session then belongs to offline and without a channel, and touches no other peer, no call and no running handler. |
| `Signaling.ReachIsRun` | crates/voip-signaling/src/session.rs:159-631 | Every interleaving leaves the registries as the run of the registry operations of its actions does. |
| `Signaling.StepIsRegOp` | crates/voip-signaling/src/session.rs:159-631 | The registry operation of a step, at most one, is all it does to the registries. |
| `Signaling.RegistriesStayOk` | crates/voip-signaling/src/session.rs:159-631 | Both registries stay within capacity, entries under their own ids, in every interleaving. |
| `Signaling.PartiesFixed` | crates/voip-signaling/src/session.rs:276-631 | A call keeps its caller and callee while it is registered, in every interleaving. |
| `Signaling.CallLost` | crates/voip-signaling/src/session.rs:276-631 | In every interleaving a step loses a call only by removing it, or because the actions so far have created or touched at least 1,000 distinct others since it was last touched. |
| `HandlerPlan.HandlerCompletes` | crates/voip-signaling/src/session.rs:198-631 | Completeness, in every interleaving and for each of the seven messages: a handler that is done has been through one of the listed words of stages, which it cuts short only at a stage that failed; if it was authorized, it got past its check. |
| `HandlerPlan.AlwaysOnPlan` | crates/voip-signaling/src/session.rs:159-631 | At every moment of every interleaving the stages a handler has been through form a path of the plan for its message, and it stands at the stage the plan has next. |
| `HandlerPlan.ActDoes` | crates/voip-signaling/src/session.rs:159-631 | Each of these stages was an action of that handler that did just what the plan says of it: its registry operation, the frame it sends and to whom, what it logs, whom the session belongs to after it; and it succeeded exactly under the condition the plan states over registry, sender and inputs. |
| `HandlerPlan.OtherPartyIsTold` | crates/voip-signaling/src/session.rs:427-631 | Once a rejection, a failure or an end has passed its check and its handler is done, the other party of the call (for a rejection, the caller) has been looked up, and was sent the frame with the received bytes if and only if it had a channel that took it. |
| `HandlerPlan.EndedIsRemoved` | crates/voip-signaling/src/session.rs:427-631 | And a rejected or ended call was removed from the registry. |
| `HandlerPlan.KnownMeetsPlan` | crates/voip-signaling/src/push.rs:160-244 | One step of a handler that has its call, push retry included, is the planned one. |
| `HandlerPlan.SendingMeetsPlan` | crates/voip-signaling/src/masque.rs:53-106 | So is each step that sends, relay coordination included. |
| `HandlerPlan.FreshMeetsPlan` | crates/voip-signaling/src/session.rs:198-352 | And each step before that, registration and unregistration included. |
| `AcceptHandler.ForwardedForCheckedIff` | crates/voip-signaling/src/session.rs:354-425 | Over every interleaving: an accept is forwarded for the entry found at its second lookup, while its sender was checked against the entry found at the first. The call forwarded for has the checked parties, and a checked peer is its callee, if and only if the second entry has the parties, and the callee, of the first; both hold while the call stays registered in between. |
| `AcceptHandler.AcceptTrace` | crates/voip-signaling/src/session.rs:354-425 | Where an accept handler is, and which entries it has read when, at every moment of every interleaving. |
| `AcceptHandler.ForwardedForOtherCall` | crates/voip-signaling/src/session.rs:394-418 | A run that ends with the accept of one peer sent to a caller with whom its handler has seen no call: the id was removed and taken by another call between the two lookups. |
| `JitterBuffer.NothingLost` | crates/voip-client/src/pipeline.rs:212-270 | In every run the buffer is strictly sorted by sequence number and every accepted datagram is exactly once either played or still buffered. |
| `JitterBuffer.PlayedInOrderIff` | crates/voip-client/src/pipeline.rs:212-270 | Over every run: played and buffered datagrams together are strictly increasing if and only if none was taken in after one with its number or a later one was played; then all drains together play strictly increasing numbers. |
| `JitterBuffer.DistinctIff` | crates/voip-client/src/pipeline.rs:212-270 | Over every run: every number is played or buffered at most once if and only if no datagram is taken in whose number has been played. |
| `JitterBuffer.DrainIsFilterIff` | crates/voip-client/src/pipeline.rs:234-270 | After the first playback a drain returns exactly the datagrams that are ready (a frame before the last playback time, or two before the present one) if and only if none of them waits behind one that is not. |
| `JitterBuffer.DrainIsFilter` | crates/voip-client/src/pipeline.rs:234-270 | In particular for timestamps that do not decrease along the buffer. |
| `JitterBuffer.SenderDrainIsFilter` | crates/voip-client/src/pipeline.rs:112-270 | And therefore always for the frames of one sender, in whatever order they arrive and whichever are lost or repeated. |
| `JitterBuffer.FirstDrain` | crates/voip-client/src/pipeline.rs:252-256 | Before the first playback a drain takes all but the newest datagram. |
| `JitterBuffer.PlaybackTime` | crates/voip-client/src/pipeline.rs:234-270 | Over every run the remembered playback time is the timestamp of the datagram played last, and there is none before the first. |
| `JitterBuffer.PlayedTwice` | crates/voip-client/src/pipeline.rs:212-224 | A run in which a repeated datagram is played twice: duplicates are looked for in the buffer only. |
| `JitterBuffer.BufferedIsSorted` | crates/voip-client/src/pipeline.rs:218-223 | Insertion keeps the buffer strictly sorted. |
| `JitterBuffer.AudioPipeline.constructor` | crates/voip-client/src/pipeline.rs:89-100 | Counters at zero, empty buffer, no playback yet. |
| `JitterBuffer.AudioPipeline.NumberFrame` | crates/voip-client/src/pipeline.rs:128-138 | Consecutive numbers, timestamps one frame apart, modulo 2^64; until a counter wraps around, the timestamp is the number times the frame size. |
| `JitterBuffer.AudioPipeline.BufferIncoming` | crates/voip-client/src/pipeline.rs:212-224 | Search and insertion compute the specified insertion. |
| `JitterBuffer.AudioPipeline.DrainBuffer` | crates/voip-client/src/pipeline.rs:234-270 | The loop takes exactly the specified prefix and remembers the timestamp of its last datagram. |
| `NatProbe.CacheAgreesIff` | crates/voip-client/src/nat_probe.rs:350-530 | With the default margins and any threshold, the answer rebuilt from the cache equals the fresh one in all but the time exactly for non-empty lists of IPv4 probes; the rebuilt answer never says that there is no NAT. |
| `NatProbe.AlwaysAgreesIff` | crates/voip-client/src/nat_probe.rs:642-687 | For every configuration: the two agree on all lists of IPv4 probes if and only if the sequential margin is 3 and the other one is 8, or of no account because the threshold is 0 or at least 92680. |
| `NatProbe.PredictionAgreesIff` | crates/voip-client/src/nat_probe.rs:441-530 | Where there is a prediction, the two agree if and only if configured and fixed margin give the same range. |
| `NatProbe.DeviationBound` | crates/voip-client/src/nat_probe.rs:379-404 | The deviation of port deltas is at most 92680, for every list of probes. |
| `NatProbe.DeviationAtMost` | crates/voip-client/src/nat_probe.rs:394-404 | Comparing the truncated standard deviation with t is comparing the sum of squares with (t + 1)^2 (n - 1). |
| `NatProbe.DeltasTelescope` | crates/voip-client/src/nat_probe.rs:379-393 | The deltas add up to the distance between first and last port. |
| `NatProbe.TypeBySquares` | crates/voip-client/src/nat_probe.rs:350-439 | For every list of probes and configuration: no NAT exactly for an empty or IPv6 list, a cone exactly for equal ports, and otherwise the type is decided by the sum of squares s of the n deltas around their mean: sequential for s < (t + 1)^2 (n - 1), pseudo-sequential for s < (3 t + 1)^2 (n - 1), else random. |
| `NatProbe.PredictionSays` | crates/voip-client/src/nat_probe.rs:441-479 | There is a prediction exactly for the first two of these, with the last address and port, the mean delta cut toward zero, the confidence of the type, and a range of the configured margin around the predicted port cut to 1024..65535. |
| `NatProbe.ProgressionIsSequential` | crates/voip-client/src/nat_probe.rs:379-479 | Every arithmetic progression of ports is sequential with its step as delta, and whatever the margin the range contains the true next port if and only if that port is in 1024..65535. |
| `NatProbe.RangeContainsIff` | crates/voip-client/src/nat_probe.rs:455-462 | For every center and margin: the clamped range contains its center if and only if the center is in 1024..65535. |
| `NatProbe.RangeWellFormedIff` | crates/voip-client/src/nat_probe.rs:455-462 | 1024 <= start <= end <= 65535 if and only if center - margin <= 65535 and center + margin >= 1024. |
| `NatProbe.NextPortDialledIff` | crates/voip-client/src/probe.rs:81-121 | From probes to sockets, for every configuration, with overflow checks or without: after a progression the true next port is among those dialled if and only if it is in 1024..65535, the probe limit reaches it from the start of the range, and start plus limit is at most 65535 (65536 without checks); with checks the dialling panics exactly beyond that. |
| `NatProbe.DefaultNextPortIff` | crates/voip-client/src/probe.rs:81-121 | With the default configuration: from 1024 to 65521 (65522 without checks), and a panic from 65522 on with checks. |
| `NatProbe.DialsRangeIff` | crates/voip-client/src/probe.rs:92-121 | Exactly the given range is dialled if and only if it fits the probe limit and start plus limit is at most 65535 (65536 without checks), or both are zero and wrap around. |
| `NatProbe.ProbeRange` | crates/voip-client/src/probe.rs:81-121 | Dials the specified ports, or panics where 16-bit arithmetic overflows and is checked. |
| `NatProbe.DialEach` | crates/voip-client/src/probe.rs:121 | The loop dials every port from first to last. |
| `ProbeResponse.ReadsMeaning` | crates/voip-client/src/nat_probe.rs:554-617 | For every list of well-formed fields, known or not, in any order: the reader returns the last observed address and the last observed port. |
| `ProbeResponse.ReadsUpToTail` | crates/voip-client/src/nat_probe.rs:554-617 | The same if behind the fields stands a field of an unknown wire type with whatever follows it, or a string that announces more than is left. |
| `ProbeResponse.RecoversAddress` | crates/voip-client/src/nat_probe.rs:554-617 | A message that carries one address and one port yields them, whatever the order and the other fields. |
| `ProbeResponse.UnknownFieldsIgnored` | crates/voip-client/src/nat_probe.rs:594-609 | Inserting any well-formed field other than the observed address and port, anywhere in a message, does not change what the reader returns. |
| `ProbeResponse.OverflowIff` | crates/voip-client/src/nat_probe.rs:559-611 | For every byte string: a position overflows if and only if the reader comes to a length-delimited field that announces 2^64 less its payload offset or more. |
| `ProbeResponse.LengthOverflowsIff` | crates/voip-client/src/nat_probe.rs:573-582 | The shortest message about an address overflows if and only if its length field is 2^64 less the size of the message or more. |
| `ProbeResponse.ParseProbeResponse` | crates/voip-client/src/nat_probe.rs:554-617 | The loop terminates on every byte string with every slice in range and computes the specified reading. |
| `ProbeResponse.DecodeVarint` | crates/voip-client/src/nat_probe.rs:621-639 | The loop computes the specified value modulo 2^64 and length, at most ten bytes. |
| `ProbeResponse.VarintMeans` | crates/voip-client/src/nat_probe.rs:621-639 | For every byte string, well-formed or not: what is consumed ends at the first unmarked byte, the tenth byte or the end of the input, and the value is the number its groups of seven bits stand for, modulo 2^64. |
| `ProbeResponse.ReadLeb` | crates/voip-client/src/nat_probe.rs:621-639 | Every 64-bit value written in LEB128 is read back, with its exact length, whatever follows. |
| `QuicVarint.RoundTrip` | crates/voip-client/src/moq.rs:1178-1228 | For every 64-bit value and any suffix: decoding yields the value modulo 2^62 and consumes exactly the encoding. |
| `QuicVarint.Truncated` | crates/voip-client/src/moq.rs:1192-1228 | Any encoding that is cut short, of any 64-bit value, reads as nothing. |
| `Moq.DatagramRoundTripIff` | crates/voip-client/src/moq.rs:191-233 | Datagrams survive encoding and decoding if and only if they are media datagrams whose counters are below 2^62. |
| `Moq.DatagramDecodes` | crates/voip-client/src/moq.rs:202-233 | For every byte string: fewer than five bytes, or another type than 1, are refused; anything else is the big-endian alias, two counters and the rest. |
| `Moq.ClientSetupRoundTripIff` | crates/voip-client/src/moq.rs:278-291 | CLIENT_SETUP survives if and only if the number of versions, each version and the length of the path are below 2^62. |
| `Moq.BuildClientSetup` | crates/voip-client/src/moq.rs:278-291 | The appending loop writes the specified message. |
| `Moq.ParseVersions` | crates/voip-client/src/moq.rs:569-574 | The loop reads the specified versions and leaves the specified rest. |
| `Moq.ParseClientSetup` | crates/voip-client/src/moq.rs:553-596 | The cursor parser computes the specified decoding, errors included. |
| `Moq.Handshake` | crates/voip-client/src/moq.rs:629-826 | Setup against accept: the accepting side becomes active if and only if its read delivers at least 10 of 11 bytes, and then the opening side if and only if its read delivers at least 9 of 10. |
| `Moq.ServerAcceptsIff` | crates/voip-client/src/moq.rs:741-795 | The accepting half, for every length of the read. |
| `Moq.ClientAcceptsIff` | crates/voip-client/src/moq.rs:675-731 | The opening half, for every length of the read. |
| `Moq.ServerTakesIff` | crates/voip-client/src/moq.rs:741-795 | The accepting side takes a CLIENT_SETUP, whatever its other versions, role and path, if and only if one of its versions reads back as draft-17. |
| `Moq.ServerRefuses` | crates/voip-client/src/moq.rs:741-795 | Any other message it refuses, naming the type. |
| `Moq.ClientTakesIff` | crates/voip-client/src/moq.rs:675-731 | For every message: the opening side takes a SERVER_SETUP if and only if it selects draft-17, lets ANNOUNCE_CANCEL, GOAWAY and MAX_SUBSCRIBE_ID pass, and refuses all else. |
| `Moq.MoqSession.constructor` | crates/voip-client/src/moq.rs:603-615 | A session starts idle. |
| `Moq.MoqSession.Setup` | crates/voip-client/src/moq.rs:629-733 | Only from idle; active on success, stuck in set-up on failure. |
| `Moq.MoqSession.Accept` | crates/voip-client/src/moq.rs:741-826 | Only from idle; answers and becomes active on success, stuck in set-up on failure. |
| `MasqueCapsule.CapsuleRoundTripIff` | crates/voip-client/src/masque.rs:876-922 | For every packet of at most 65535 bytes: decoding returns it if and only if it has at most 62 bytes, panics if and only if it has 63, and reports truncation if and only if it has more. |
| `MasqueCapsule.DecodesTo` | crates/voip-client/src/masque.rs:891-922 | For every byte string: another type than DATAGRAM is refused, a length beyond the input is reported with the missing size, a length shorter than the stream id panics, and anything else yields the bytes up to the length. |
| `MasqueCapsule.SplitExists` | crates/voip-client/src/masque.rs:925-953 | Every byte string splits into type, length, stream id and rest as that needs. |
| `MasqueCapsule.ConformingCapsule` | crates/voip-client/src/masque.rs:891-922 | A capsule written with the varints of RFC 9000 is understood, for every packet, stream id and suffix, if it is a DATAGRAM, and refused otherwise. |
| `MasqueCapsule.VarintLen` | crates/voip-client/src/masque.rs:859-867 | The computed length is the length of what the encoder writes. |
| `MasqueCapsule.EncodeVarint` | crates/voip-client/src/masque.rs:842-854 | The loop appends the LEB128 encoding. |
| `MasqueCapsule.BuildCapsule` | crates/voip-client/src/masque.rs:876-886 | Type, length, stream id and packet. |
| `MasqueCapsule.LongLengthMisread` | crates/voip-client/src/masque.rs:925-953 | A LEB128 length of two bytes or more is read as a number of at least 65536. |
| `Base64.RoundTrip` | crates/voip-client/src/proxy.rs:1134-1195 | For every byte string decoding inverts encoding, in both alphabets, padded or not. |
| `Base64.DecodeInverts` | crates/voip-client/src/proxy.rs:1168-1195 | The same from any state of the bit buffer between groups. |
| `Base64.UrlIsStandardUnpadded` | crates/voip-signaling/src/jwt.rs:142-171 | The JWT text is the standard text with the two last characters of the alphabet swapped and the padding dropped. |
| `Base64.AlphabetInverse` | crates/voip-signaling/src/jwt.rs:174-196 | Looking a character of the alphabet up gives its position; none of them is a dot or padding. |
| `Base64.ProxyEncode` | crates/voip-client/src/proxy.rs:1134-1165 | The loop over 24-bit groups writes the standard encoding. |
| `Base64.HandlerEncode` | crates/voip-signaling/src/handlers.rs:649-676 | So does the loop of the REST handlers: the two encoders agree. |
| `Base64.JwtEncode` | crates/voip-signaling/src/jwt.rs:142-171 | The loop writes the unpadded URL-safe encoding. |
| `Base64.Decode` | crates/voip-client/src/proxy.rs:1168-1195 | The streaming loop with its 32-bit buffer computes the specified decoding, or the first invalid character. |
| `Jwt.CreatedVerifiesIff` | crates/voip-signaling/src/jwt.rs:45-139 | A created token verifies, to the claims it was created with, exactly from the time of issue through its expiry; before it is not yet valid, after it is expired. |
| `Jwt.ValidIff` | crates/voip-signaling/src/jwt.rs:80-139 | For every string: it verifies to given claims if and only if it is the fixed header, a dot-free payload and a dot-free signature joined by dots, the signature decodes to 64 bytes that the key accepts for all that stands before the last dot, the payload decodes to these claims, their subject is the key they carry, and the time is within them. |
| `Jwt.ValidIsSigned` | crates/voip-signaling/src/jwt.rs:80-139 | So if the key accepts only messages of a given kind, what stands before the last dot of a valid token is one of them. |
| `Jwt.CreatedParts` | crates/voip-signaling/src/jwt.rs:63-95 | A created token splits into exactly the three parts it was made of. |
| `ProxyToken.TokenRoundTripIff` | crates/voip-client/src/proxy.rs:551-615 | Decoding inverts encoding if and only if both strings are shorter than 65536 bytes and the signature has 64 bytes. |
| `ProxyToken.DecodedIsShort` | crates/voip-client/src/proxy.rs:579-615 | Whatever is decoded has these sizes. |
| `ProxyToken.SigningMessageInjective` | crates/voip-client/src/proxy.rs:625-636 | The signed message determines all four fields, for strings shorter than 2^32 bytes. |
| `Bridge.Transfer` | scripts/udp_tcp_bridge.py:73-93 | Every sequence of datagrams of at most 65535 bytes arrives whole and in order, however TCP cuts the stream; if the stream ends early, exactly the datagrams whose frames are complete. |
| `Bridge.StreamReader.constructor` | scripts/udp_tcp_bridge.py:63-66 | A reader over the bytes of the connection. |
| `Bridge.StreamReader.Read` | scripts/udp_tcp_bridge.py:29-36 | One TCP read: some non-empty part of what is left, at most what was asked for, nothing only at the end. |
| `Bridge.StreamReader.ReadExact` | scripts/udp_tcp_bridge.py:29-36 | Returns the next n bytes, or fails exactly if fewer are left, whatever the pieces. |
| `Bridge.ReceiveLoop` | scripts/udp_tcp_bridge.py:149-158 | What the loop sends on is a function of the byte stream alone. |
| `Bridge.SendLoop` | scripts/udp_tcp_bridge.py:135-144 | The loop writes the concatenated frames. |
| `Bridge.CutStream` | scripts/udp_tcp_bridge.py:122-158 | The frames of a stream cut after k bytes, for every k. |
| `Bridge.OversizedEnds` | scripts/udp_tcp_bridge.py:86-93 | A larger datagram ends the transfer: everything before it arrives, nothing after it. |
| `CallMachine.TransitionBound` | crates/voip-core/src/state.rs:100-308 | Over every sequence of calls: at most 4 * (max_retries + 1) successful transitions, retries within the limit, an end reason exactly in Failed and Ended, a connection method exactly once some connect succeeded. |
| `CallMachine.BoundReached` | crates/voip-core/src/state.rs:147-308 | The bound is tight: some sequence of calls reaches it. |
| `CallMachine.RunUsesFuel` | crates/voip-core/src/state.rs:147-308 | The measure behind it, from every sound state. |
| `CallMachine.EndedForever` | crates/voip-core/src/state.rs:200-213 | Nothing leaves Ended. |
| `CallMachine.SucceedsIff` | crates/voip-core/src/state.rs:147-308 | A call succeeds exactly along the edges of the state diagram, a retry only while some are left; one that does not changes nothing and reports where it was tried from and where to. |
| `CallMachine.RecordsLast` | crates/voip-core/src/state.rs:147-308 | Over every sequence of calls the machine holds the method of the last successful connect, and the reason of the last successful call that ends the attempt unless a retry cleared it. |
| `CallMachine.CallStateMachine.constructor` | crates/voip-core/src/state.rs:100-108 | Idle, no retries used. |
| `CallMachine.CallStateMachine.Ring` | crates/voip-core/src/state.rs:147-159 | From Idle only. |
| `CallMachine.CallStateMachine.Accept` | crates/voip-core/src/state.rs:164-176 | From Ringing only. |
| `CallMachine.CallStateMachine.Connect` | crates/voip-core/src/state.rs:182-195 | From Accepted only; records the method. |
| `CallMachine.CallStateMachine.End` | crates/voip-core/src/state.rs:200-213 | From Connected only; records the reason. |
| `CallMachine.CallStateMachine.Fail` | crates/voip-core/src/state.rs:218-241 | From the three active states; records the reason. |
| `CallMachine.CallStateMachine.Reject` | crates/voip-core/src/state.rs:247-260 | From Ringing only. |
| `CallMachine.CallStateMachine.TimeOut` | crates/voip-core/src/state.rs:266-279 | From Ringing and Accepted. |
| `CallMachine.CallStateMachine.Retry` | crates/voip-core/src/state.rs:286-308 | From Failed while retries are left; keeps the connection method. |
| `ProxyOrder.OrderIsComplete` | crates/voip-client/src/proxy.rs:925-952 | The recovery order loses exactly the later entries of the last-used URL; behind the preferred proxy it is sorted by latency, entries of equal latency in their old order. |
| `ProxyOrder.HeadIsBest` | crates/voip-client/src/proxy.rs:1049-1074 | Its first entry is what a cache with the same list chooses within its time to live; a cache chooses none if and only if it is too old or empty. |
| `ProxyOrder.AboutSort` | crates/voip-client/src/proxy.rs:948 | Sorting gives a sorted permutation. |
| `ProxyOrder.SortStable` | crates/voip-client/src/proxy.rs:948 | Sorting keeps entries of equal latency in order. |

## Left out

- Signaling.EveryFrameJustified: for CALL_ACCEPT it promises the check against a call of the same id seen earlier by the same handler, not against the entry read last; `AcceptHandler.ForwardedForCheckedIff` says exactly when the two agree and `AcceptHandler.ForwardedForOtherCall` shows that they need not.
- MasqueCapsule.CapsuleRoundTripIff: packets above 65535 bytes, which UDP cannot carry.
- RateLimit.WindowBoundDespiteEviction: a peer that is removed within the window; it starts afresh.
- NatProbe.RangeWellFormedIff: centers outside -65535..131070, which no two 16-bit ports produce.
- NatProbe.AlwaysAgreesIff: configuration values of 2^31 and more, which turn negative in the program, and the overflow of sums over more than 32,768 probes.
- ProbeResponse.OverflowIff: what a release build reads after a position has wrapped around.
- Moq.ParseVersions: the allocation failure that a huge announced number of versions causes; the model reads on.
- ProbeResponse.ParseProbeResponse: replacement of invalid UTF-8 in the observed address; the model keeps the bytes. The same holds of the path in MoQ messages.
- Jwt.CreatedVerifiesIff: overflow of the expiry time beyond 2^64 seconds.
- The rate limiter as a whole: it keeps three independent maps, each modelled by `RateLimit.BucketMap`, and forwards to them.
- Buckets with a refill interval of zero, on which the program divides by zero.
- Key-exchange hints and TLS 1.2 sessions in the ticket store: plain fields beside the modelled ones.
- Error replies of the session handlers to their own client, FCM notifications, and the fields of peers and calls that no decision depends on.
- Message framing of the signaling server, extraction of client addresses, REST formatting: easy members.
- Retry delays, the relay detection tables, error codes, enumeration conversions, configuration defaults: finite tables.
- The refresh of the NAT cache with its lock use and expiry; only building and reading the cache are modelled.
- QUIC, TLS, HTTP/2, HTTP/3, WebSocket and libp2p plumbing, connection races, certificate provisioning, proxy limits, Opus: library behaviour or thin wrappers.
- The FFI, CLI and mobile layers.
