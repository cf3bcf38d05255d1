# The Wisp multiplexor, verified

The `wisp` crate carries many streams over one message transport (Wisp version 1 and 2). This project models its
core in Dafny and proves what its parts promise each other, over every input, every interleaving and every run:

- **The lock around the transport** (`LockProtocol`, `LockedSink`): an unfair asynchronous mutex without guards, at
  the granularity of single swaps, sections under the waiters mutex and wakes, for any number of handles.
- **Credit-based flow control** (`FlowSpec`, `FlowObjects`, `FlowSystem`, `FlowLimits`, `CreditRace`, `ServerRace`): a
  client writer and a server reader, the 90% threshold, the bounded queue and Continue packets. `HalfRuns` runs each
  half by itself, with and without flow control and with transport errors; `FlowDuplex` adds the server's writing half.
- **The transport contract** (`UnfoldSink`, `TransportSystem`, `TransportContract`, `TransportStates`,
  `TransportDeadlock`): any number of stream halves and the actor share one unfold transport behind the lock.
  `WakeSystem` and `WakeLimits` add the waiting queue of the lock and the wakeups, and `WakeLock` shows that each poll
  there is a run of `LockProtocol`.
- **The multiplexor actor** (`MuxSpec`, `MuxObjects`, `MuxClosing`, `MuxServing`, `MuxKinds`, `MuxTraffic`,
  `MuxDelivery`, `MuxPeer`, `UnfairSelect`): stream table, ids, routing, credit, closing, shutdown, the packets sent,
  two-party delivery and the select that feeds the actor. `MuxFlow`, `MuxFlowLinks`, `MuxFlowDelivery` and
  `MuxFlowProgress` put flow-controlled halves on many streams of the same two transports.
- **The handshake** (`Extensions`, `Handshake`, `HandshakeSuccess`, `HandshakeVersions`, `HandshakeRequired`,
  `HandshakeEnforced`, `HandshakeOversize`, `HandshakeFailures`, `HandshakeErrors`): INFO exchange, negotiation,
  downgrade, required extensions, the password and certificate builders, and how a handshake fails.
- **The wire format** (`Packets`, `Unicode`, `WireObjects`): packet and INFO codecs and the buffers they work on.

Code that updates objects in place is modelled by classes and methods (`LockedSink`, `FlowObjects`, `MuxObjects`,
`WireObjects`, `UnfairSelect`, `UnfoldSink`), each proved against the functions of its specification module; the
theorems about whole runs are proved about those functions. `dafny verify dfyconfig.toml` checks everything.

## Where the code does not meet a property

Each of these is proved as an exact condition, with a run that fails when the condition is violated:

- A parked handle is guaranteed a wakeup exactly if queued handles are never dropped and every poll of a queued handle
  gets as far as `poll_lock` (`LockProtocol.WakeupExactly`). `Drop` leaves the slab entry behind, and a woken half that
  returns early uses up the only wakeup of an `unlock`.
- For stream halves this means: no wakeup is wasted exactly if halves are not dropped while they wait for the lock, no
  pending operation is cancelled while its half is kept, streams are not closed under their halves, `poll_ready` is not
  called while a flush is pending, and no credit of 0 is advertised (`WakeLimits.WakeupKeptExactly`). Otherwise the
  actor can sleep for ever on a free lock, next to a writer that waits for the credit the actor would have to deliver,
  or that nobody polls any more (`WakeLimits.FreeLockDeadlock`).
- The owner of the transport lock always gets to release it by polling again exactly under the last four of these
  conditions and if no transport failure hits an actor that creates streams, where `?` returns before the `unlock`
  (`TransportContract.NeverStuckExactly`). An owner that sleeps with the lock, or whose operation was cancelled, is a
  deadlock for good while the actor wants to send (`TransportDeadlock.DeadlockForGood`), and no run gets there exactly
  under the same four conditions (`TransportDeadlock.NeverDeadlocksExactly`).
- The server never drops a packet exactly for buffer sizes up to 10 with a writer that flushes every item, and for
  size 0, which carries nothing: the client *sets* its credit and forgets data in flight (`FlowLimits.NeverDropsExactly`).
- An update is taken off the count of read chunks only if the transport takes it, but added to the credit before: after
  an error the same chunks are added twice (`HalfRuns.RefusedUpdateCountsTwice`).
- A stalled stream can be unblocked by reading exactly if the buffer size is not 0 (`FlowLimits.NeverDeadlocksExactly`).
- The client's counter and flow waker are exact exactly if the writing half and the client actor never run in parallel
  or the buffer size is 0 (`CreditRace.LedgerExactly`, `CreditRace.NeverOversleepsExactly`), and the server's counter
  exactly if the reading half and the server actor never do or the size is 0 (`ServerRace.ServerLedgerExactly`).
- A closed stream shows the reason of the first close request exactly if that reason is not a catch-all that carries a
  named code: reasons are stored as their codes (`MuxClosing.FirstCloseWins`, `Packets.StoredExactly`).
- The unfold transport never panics exactly if its futures never fail: after a failure it is left without a state,
  yet `poll_ready` answers Ready (`TransportContract.NeverPanicsExactly`, `TransportContract.PanicsExactly`).
- Decoding undoes encoding exactly for packets whose catch-all variants carry no named code (`Packets.PacketRoundTrip`).
- Handshakes with a version 1 server always succeed, a version 1 client never succeeds with a version 2 server, and two
  version 2 sides succeed exactly if each of the client's builders is acceptable (`HandshakeVersions.SucceedsExactly`).
  A version 2 server falls back to version 1 exactly if the first message is a plain packet, and then sends no
  Continue packet (`HandshakeVersions.DowngradesExactly`).
- The `required` flags of the password and certificate builders change nothing in how the server's handshake ends
  (`HandshakeRequired.RequiredIsIgnored`): an INFO packet without entries or any plain packet gets a client in
  (`HandshakeVersions.EmptyInfoPasses`, `HandshakeVersions.PlainPacketPasses`). An extension is enforced exactly if the
  caller names its id to `with_required_extensions`, or names ids that no client satisfies
  (`HandshakeEnforced.EnforcedExactly`); which ids some client satisfies is stated exactly as well
  (`HandshakeEnforced.PassableExactly`, `HandshakeEnforced.SatisfiableExactly`).
- Whenever the client's handshake succeeds both sides agree, over all conversations with offered payloads of at most
  `max` bytes, exactly if `max` is below 2^32 (`HandshakeOversize.AgreesExactly`): with a message of the day of 2^32
  bytes both may succeed and disagree (`HandshakeOversize.OversizedOfferDisagrees`).

## Model

| member | source | states |
|---|---|---|
| `LockProtocol.MutualExclusion` | wisp/src/locked_sink.rs:132-269 | in every interleaving the sink has one owner while the flag is set and none otherwise, ownership being conserved by handles, guards and drops; one thread at most holds the waiters mutex; queued handles have distinct keys that are on the slab |
| `LockProtocol.NoLostWakeup` | wisp/src/locked_sink.rs:132-155 | if no queued handle is dropped and every poll of a queued one asks for the lock: while the lock is free and a handle is parked, an unlocker still has to scan, or a handle is before its swap, or a queued handle is notified |
| `LockProtocol.NotifiedHandleAcquires` | wisp/src/locked_sink.rs:196-246 | when all calls have returned, the lock is free and a handle is parked, some parked handle was notified, and polling it makes it the owner and removes its entry |
| `LockProtocol.PollFreeLock` | wisp/src/locked_sink.rs:196-235 | a poll of a free lock makes the handle its only owner at once, even while an unlocker holds the waiters mutex |
| `LockProtocol.WinnerCollects` | wisp/src/locked_sink.rs:196-235 | nothing the others do takes the lock from the winner, and as soon as the waiters mutex is free its call ends with the lock held and its slab entry gone |
| `LockProtocol.ScannerReleases` | wisp/src/locked_sink.rs:147-155 | whoever holds the waiters mutex can give it back in its next step |
| `LockProtocol.ScanIsDetermined` | wisp/src/locked_sink.rs:76-78 | a scan marks exactly one entry, the first that sleeps, and can pick no other |
| `LockProtocol.DroppedWaiterLosesWakeup` | wisp/src/locked_sink.rs:180-184 | a run in which a dropped waiter consumes the only wakeup |
| `LockProtocol.SkippingWaiterLosesWakeup` | wisp/src/stream/mod.rs:80-82 | a run without drops in which a woken task returns before `poll_lock` and the next waiter sleeps on a free lock |
| `LockProtocol.WakeupExactly` | wisp/src/locked_sink.rs:76-155 | the wakeup guarantee holds over all interleavings if and only if no queued handle is dropped and every poll of a queued one asks for the lock |
| `LockProtocol.SafeNext` | wisp/src/locked_sink.rs:132-269 | every micro-step keeps the safety invariant and moves ownership as `OwnerAfter` says |
| `LockProtocol.LiveNext` | wisp/src/locked_sink.rs:132-155 | every micro-step that drops no queued handle keeps the wakeup invariant |
| `LockedSinkObjects.WakerList.Add` | wisp/src/locked_sink.rs:61-63 | registers a waker under a key that was vacant |
| `LockedSinkObjects.WakerList.Update` | wisp/src/locked_sink.rs:65-70 | puts a waker on an existing entry |
| `LockedSinkObjects.WakerList.Remove` | wisp/src/locked_sink.rs:72-74 | removes exactly that entry |
| `LockedSinkObjects.WakerList.GetNext` | wisp/src/locked_sink.rs:76-78 | takes the waker of the first sleeping entry and marks only that entry; None means all are woken |
| `LockedSinkObjects.SinkState.Lock` | wisp/src/locked_sink.rs:132-145 | the status and the slab after `lock` for every combination of flag and key |
| `LockedSinkObjects.SinkState.Unlock` | wisp/src/locked_sink.rs:147-155 | frees the flag and picks the first sleeping waiter |
| `LockedSinkObjects.LockedSink.PollLock` | wisp/src/locked_sink.rs:196-235 | the whole effect of an undisturbed poll on flag, slab, key and lock state |
| `LockedSinkObjects.LockedSink.Unlock` | wisp/src/locked_sink.rs:241-246 | nothing if not locked; otherwise releases and wakes the first sleeper |
| `LockedSinkObjects.LockedSink.Clone` | wisp/src/locked_sink.rs:169-178 | a clone shares the state and starts unqueued and unlocked |
| `LockedSinkObjects.PollAloneIsARun` | wisp/src/locked_sink.rs:196-235 | the poll method's effect is that of one interleaving of the micro-steps, other handles untouched |
| `LockedSinkObjects.UnlockAloneIsARun` | wisp/src/locked_sink.rs:147-155 | the same for `unlock`, including who is notified |
| `FlowSpec.Target` | wisp/src/mux/inner.rs:71-73 | the threshold is the largest number that is at most 90% of the buffer size; it is size - 1 for sizes 1 to 10, and below size - 1 above |
| `FlowSystem.ReaderExactlyOnce` | wisp/src/stream/mod.rs:79-124 | each accepted chunk is returned once and in order; after k chunks with none held back exactly k / (target + 1) updates were sent; the counter cannot overflow |
| `FlowSystem.AdvertisedCredit` | wisp/src/stream/mod.rs:110-120 | every advertised credit lies between the free room of the queue and one refill more, for every run |
| `FlowSystem.ServerLedger` | wisp/src/mux/server.rs:33-45 | if data arrives only while credit is positive: credit + queue + read count stays B, nothing is dropped, no update exceeds B |
| `FlowSystem.AdvertisedExactly` | wisp/src/stream/mod.rs:110-120 | with balanced books every Continue equals B minus the queue length at that moment |
| `FlowSystem.WriterCreditBound` | wisp/src/stream/mod.rs:200-255 | between credit updates at most n + 1 packets, at most n if items are flushed; the slot is never overwritten; a parked writer has no credit |
| `FlowSystem.OverCommitBound` | wisp/src/mux/client.rs:30-44 | for every B: until the client adopts the next credit nothing is dropped and one update at most is under way; then it exceeds the server's books by at most B - target - 1 |
| `FlowSystem.LossFree` | wisp/src/mux/server.rs:33-45 | for B up to 10: nothing is dropped, and read ++ held back ++ queued ++ in flight ++ stored equals what was written |
| `FlowSystem.ReadsReplenish` | wisp/src/stream/mod.rs:106-120 | how many reads it takes to send the next update, and what they leave unchanged |
| `FlowSystem.StallResolves` | wisp/src/mux/client.rs:36-41 | a stalled stream has chunks to read; at most target + 1 reads send an update that gives the client credit and wakes it |
| `FlowLimits.LargeWindowLoses` | wisp/src/mux/client.rs:37-39 | for every B above 10 there is a run that loses a packet although every item is flushed |
| `FlowLimits.FeedingLoses` | wisp/src/stream/mod.rs:217-242 | for every B but 0 there is a run that loses a packet if items are fed without flushing |
| `FlowLimits.NeverDropsExactly` | wisp/src/mux/server.rs:33-45 | no run drops a packet if and only if B is 0, or at most 10 with every item flushed |
| `FlowLimits.NeverDeadlocksExactly` | wisp/src/stream/mod.rs:106-123 | reading alone always resolves a stall if and only if B is not 0 |
| `FlowObjects.StreamInfo.constructor` | wisp/src/mux/inner.rs:68-84 | initial credit, target, reason and waker |
| `FlowObjects.StreamInfo.FlowAdd` | wisp/src/mux/inner.rs:89-96 | saturating addition, returned and stored |
| `FlowObjects.StreamInfo.FlowSub` | wisp/src/mux/inner.rs:97-104 | saturating subtraction, returned and stored |
| `FlowObjects.StreamInfo.FlowWake` | wisp/src/mux/inner.rs:118-125 | takes the registered task, leaves nobody registered |
| `FlowObjects.Channel.TrySend` | wisp/src/mux/server.rs:39-43 | a bounded or closed channel refuses, otherwise the item is appended |
| `FlowObjects.MuxStreamRead.PollNext` | wisp/src/stream/mod.rs:79-124 | refines `FlowSpec.PollNext` for every answer of lock and transport, with the lock kept or released on each path |
| `FlowObjects.MuxStreamRead.SendContinue` | wisp/src/stream/mod.rs:110-120 | the same for the part that needs the transport |
| `FlowObjects.MuxStreamWrite.PollReady` | wisp/src/stream/mod.rs:217-235 | refines `FlowSpec.PollReady`; parking registers the polling task |
| `FlowObjects.MuxStreamWrite.Hand` | wisp/src/stream/mod.rs:200-211 | the stored chunk is handed over and paid for only if the transport takes it; each failure path |
| `FlowObjects.MuxStreamWrite.StartSend` | wisp/src/stream/mod.rs:237-242 | stores the item in the free slot |
| `FlowObjects.MuxStreamWrite.PollFlush` | wisp/src/stream/mod.rs:244-255 | refines `FlowSpec.PollFlush`, which does not look at the credit |
| `FlowObjects.HandleData` | wisp/src/mux/server.rs:33-45 | queue and credit after a Data packet, or unchanged if the queue refuses it |
| `FlowObjects.HandleContinue` | wisp/src/mux/client.rs:30-44 | credit replaced and the parked task woken, only for tracked streams |
| `HalfRuns.ReadsInOrder` | wisp/src/stream/mod.rs:79-124 | for streams with and without updates, over every run with any answers of lock and transport, errors and a close: taken ++ held back ++ queued equals what was put on the queue, in order; without updates nothing is held back or lost |
| `HalfRuns.ReadsAtOnce` | wisp/src/stream/mod.rs:84-93 | a poll of an open stream without updates returns the first chunk whenever there is one and leaves the rest of the queue, credit, count and lock alone |
| `HalfRuns.DeliversExactly` | wisp/src/mux/server.rs:33-45 | a packet goes to the end of the queue and off the credit if and only if the stream is open and has room; otherwise nothing changes |
| `HalfRuns.ReadLocks` | wisp/src/stream/mod.rs:106-120 | a poll that needs the transport keeps the lock exactly if the transport is not ready, errors included |
| `HalfRuns.ReadCharges` | wisp/src/stream/mod.rs:106-120 | when and by how much a poll raises the credit and resets the count |
| `HalfRuns.RefusedUpdateCountsTwice` | wisp/src/stream/mod.rs:113-120 | an update that the transport refuses is added to the credit again by the next one |
| `HalfRuns.WritesInOrder` | wisp/src/stream/mod.rs:200-255 | over every run with any answers: handed over or lost ++ stored equals what was given; on streams that do not track credit it never changes, whatever Continue packets arrive, and on those that do it is the credit granted last less the chunks handed over since |
| `HalfRuns.ReadyLocks` | wisp/src/stream/mod.rs:217-235 | for each result of `poll_ready` when exactly it is given, and when the lock is kept |
| `HalfRuns.FlushLocks` | wisp/src/stream/mod.rs:244-255 | the same for `poll_flush` |
| `FlowDuplex.RunsAsIfAlone` | wisp/src/stream/mod.rs:200-211 | with both halves of a server stream on one `StreamInfo`: however much the server writes, the other direction runs as if it did not |
| `FlowDuplex.ServerWritesAreFree` | wisp/src/mux/server.rs:33-45 | so the books stay balanced and small windows lose nothing in every run of both directions |
| `CreditRace.LateCreditIsMissed` | wisp/src/stream/mod.rs:222-225 | for every buffer size but 0 a parallel run that leaves the writer parked with all the credit of an update |
| `CreditRace.OldPacketIsCharged` | wisp/src/stream/mod.rs:200-211 | for every buffer size but 0 a parallel run in which an update that arrives between `start_send` and `flow_dec` pays for a packet sent before it |
| `CreditRace.CreditIsOverwritten` | wisp/src/mux/inner.rs:97-107 | for every buffer size but 0 a parallel run in which `flow_dec` overwrites a new credit |
| `CreditRace.NeverOversleepsExactly` | wisp/src/mux/inner.rs:108-125 | a parked writer never has credit if and only if writer and actor do not run in parallel or the buffer size is 0 |
| `CreditRace.LedgerExactly` | wisp/src/mux/inner.rs:86-107 | the client's counter is the credit owed if and only if writer and actor do not run in parallel or the buffer size is 0 |
| `ServerRace.RefillIsLost` | wisp/src/mux/inner.rs:97-107 | for every buffer size but 0 a run with an honest client in which a chunk is taken between `try_send` and the store of `flow_dec`, and the refill that follows is lost |
| `ServerRace.ChargeIsLost` | wisp/src/mux/inner.rs:89-96 | a run in which `flow_dec` falls between load and store of `flow_add`: the server books and advertises one packet more than it has room for |
| `ServerRace.ReadBeforeCharged` | wisp/src/mux/server.rs:40-41 | a run in which a chunk is read and refilled before it is charged: the books end up right, but the update promised one packet too many |
| `ServerRace.ServerLedgerExactly` | wisp/src/mux/server.rs:39-43 | between operations the server's counter is the credit it owes an honest client if and only if reading half and actor do not run in parallel or the buffer size is 0 |
| `UnfoldSink.AsyncIteratorTransportWrite.TakeState` | wisp/src/ws/unfold.rs:59-67 | takes the value and leaves the state empty; nothing otherwise |
| `UnfoldSink.AsyncIteratorTransportWrite.PollReady` | wisp/src/ws/unfold.rs:145-147 | is `poll_flush` |
| `UnfoldSink.AsyncIteratorTransportWrite.StartSend` | wisp/src/ws/unfold.rs:149-158 | starts a future on the payload, or panics unless there is a value |
| `UnfoldSink.AsyncIteratorTransportWrite.PollFlush` | wisp/src/ws/unfold.rs:160-176 | the state after each answer of the future; Ready when there is no future |
| `TransportContract.ContractKept` | wisp/src/ws/unfold.rs:145-176 | in every run: the flag says whether there is an owner, and there is one at most; payloads enter one at a time, each half's in the order it took them on, none lost or twice but for dropped halves and failed sends of the actor; `start_send` never finds the slot taken; without failing futures no panic |
| `TransportContract.PanicsExactly` | wisp/src/ws/unfold.rs:149-158 | in every reachable state a step panics if and only if it hands a message over after a failure |
| `TransportStates.StatesAreThreaded` | wisp/src/ws/unfold.rs:149-176 | in every run the function is called on the initial state first, and on the (k+1)-th payload with exactly the state the future of the k-th returned |
| `TransportContract.NeverPanicsExactly` | wisp/src/ws/unfold.rs:160-176 | no run panics if and only if futures never fail |
| `TransportContract.NeverStuckExactly` | wisp/src/stream/mod.rs:217-255 | every owner releases the lock by polling again once the transport completes, if and only if no closes under halves, no cancelled operations, no eager `poll_ready`, no zero credit, no failure while actors create streams |
| `TransportContract.ClosedReaderKeepsLock` | wisp/src/stream/mod.rs:80-82 | a run in which a closed reading half keeps the lock |
| `TransportContract.EagerWriterKeepsLock` | wisp/src/stream/mod.rs:222-225 | a run in which a writing half parks for credit with the lock held |
| `TransportContract.ZeroUpdateKeepsLock` | wisp/src/mux/client.rs:37-39 | a run in which a credit of 0 makes the owner of the lock park |
| `TransportContract.CancelledFlushKeepsLock` | wisp/src/stream/mod.rs:244-255 | a run in which a flush is cancelled with the lock held and the half is kept |
| `TransportContract.FailedCreationKeepsLock` | wisp/src/mux/inner.rs:289-310 | a run in which a failed Connect packet leaves the actor's handle locked |
| `TransportContract.SendEnds` | wisp/src/mux/inner.rs:289-347 | how a send of the actor ends: idle with the packet gone, and the lock given back unless a Connect packet was lost |
| `TransportContract.StandsStill` | wisp/src/stream/mod.rs:217-235 | while the owner sleeps or is not polled, nothing enters the transport, whatever the others do and however long |
| `TransportDeadlock.DeadlockForGood` | wisp/src/mux/inner.rs:289-310 | a half that sleeps with the lock, or whose operation was cancelled with it, while the sequential actor wants to send: whatever the others do and the peer sends, nothing is sent and no credit gets through, unless one of the two is given up or polled again |
| `TransportDeadlock.NeverDeadlocksExactly` | wisp/src/stream/mod.rs:217-235 | no run gets there if and only if no closes under halves, no cancelled operations, no eager `poll_ready`, no zero credit |
| `WakeSystem.ReaderConsultsExactly` | wisp/src/stream/mod.rs:79-124 | a poll of a reading half asks for the lock if and only if the stream is open and a Continue packet is due |
| `WakeSystem.WriterConsultsExactly` | wisp/src/stream/mod.rs:217-235 | `poll_ready` asks for the lock if and only if the actor is there, a tracked stream has credit and an item is stored |
| `WakeSystem.FlushConsults` | wisp/src/stream/mod.rs:244-255 | `poll_flush` always asks for the lock |
| `WakeSystem.ClosedNeverAsks` | wisp/src/stream/mod.rs:80-82 | after a close a half asks for the lock neither by reading nor by `poll_ready` |
| `WakeSystem.CancelledIsAbandoned` | wisp/src/locked_sink.rs:196-235 | a cancelled operation leaves lock and ownership as they are and nobody who polls |
| `WakeSystem.SteadyNext` | wisp/src/locked_sink.rs:147-155 | without drops, closes under halves, cancelled operations, eager `poll_ready` and zero credit every step keeps: queued halves ask again, and a free lock with a sleeper has somebody woken |
| `WakeLimits.ClosedHalfLoses` | wisp/src/stream/mod.rs:80-82 | a run in which a closed reading half wastes the wakeup and the actor sleeps on a free lock |
| `WakeLimits.EagerHalfLoses` | wisp/src/stream/mod.rs:222-225 | a run in which a writing half without credit wastes it |
| `WakeLimits.ZeroedHalfLoses` | wisp/src/mux/client.rs:37-39 | a run in which a credit of 0 makes a waiting half waste it |
| `WakeLimits.DroppedHalfLoses` | wisp/src/locked_sink.rs:180-184 | a run in which a dropped half wastes it |
| `WakeLimits.CancelledHalfLoses` | wisp/src/locked_sink.rs:147-155 | a run in which a woken flush is cancelled, the half is kept, and the actor sleeps on a free lock |
| `WakeLimits.WakeupKeptExactly` | wisp/src/locked_sink.rs:147-155 | no wakeup of the transport lock is wasted if and only if no drops of waiting halves, no cancelled operations, no closes under halves, no eager `poll_ready`, no zero credit |
| `WakeLimits.FreeLockDeadlock` | wisp/src/mux/inner.rs:289-310 | a reachable state with the lock free, the actor asleep in its queue and a writer that waits for credit or is not polled any more, from which no woken task can do anything |
| `WakeLock.StepIsALockRun` | wisp/src/locked_sink.rs:132-246 | every step of the wake model that does not panic is an interleaving of lock steps of that half's handle alone, from a lock with the same flag, owner, slab entries and notified tasks to one that has them again |
| `WakeLock.RunIsALockRun` | wisp/src/locked_sink.rs:132-246 | the same for whole runs from a new lock; handles are abandoned or skip their turn only as far as the callers are not careful |
| `WakeLock.SomeHalfIsFirst` | wisp/src/locked_sink.rs:76-78 | whenever the wake model can wake some half, it can wake the one with the least slab key, as the code does |
| `UnfairSelect.Selector.PollSide` | wisp/src/unfair_select.rs:88-101 | asks exactly the given source |
| `UnfairSelect.Selector.PollNext` | wisp/src/unfair_select.rs:72-129 | refines `SelectStep`: preferred side first, the other only if it is pending, end remembered, preference toggled |
| `UnfairSelect.SelectMerges` | wisp/src/unfair_select.rs:72-129 | for any two sources and any number of polls the output interleaves the items of what was consumed of each, and the select has finished exactly if one was seen to end |
| `UnfairSelect.EndsForGood` | wisp/src/unfair_select.rs:79-80 | after the end every poll reports the end and asks nobody |
| `UnfairSelect.FairShare` | wisp/src/unfair_select.rs:19-30 | from any state, a source ready for 2n polls has at least n items taken by then, unless the select ended |
| `UnfairSelect.PendingExactly` | wisp/src/unfair_select.rs:72-129 | a poll of an unfinished select is Pending if and only if both sources answer Pending, and is answered by a source that is ready |
| `UnfairSelect.AloneIsServed` | wisp/src/unfair_select.rs:72-129 | while the other source is pending, a ready source is served on every poll: n items in n polls |
| `UnfairSelect.TakesTurns` | wisp/src/unfair_select.rs:19-30 | two sources that are ready take turns, and the left one goes first |
| `MuxClosing.FirstReasonIsFirst` | wisp/src/mux/inner.rs:380-383 | `FirstReason` is the reason of the first close request of a log |
| `MuxClosing.FirstCloseWins` | wisp/src/mux/inner.rs:311-347 | for every log of a client: a stream shows the reason of the first request processed for it, as its stored code names it, and the very reason if and only if it is no catch-all with a named code; Unknown if the actor ended first, none while it is open |
| `MuxClosing.ClientTraffic` | wisp/src/mux/inner.rs:232-249 | no stream stays connected after the end, one Close packet at most per id, Connect ids strictly increasing and non-zero |
| `MuxTraffic.SentExactly` | wisp/src/mux/inner.rs:289-347 | for every log of a client, all it sends, in order: Connect packets with the type, host and port of the requests that got an id, Close packets with the reasons of the first close requests, and the reason given for the end |
| `MuxTraffic.EachAnswersAnEvent` | wisp/src/mux/inner.rs:289-347 | for every log of either side each packet sent answers an own event, in order, and carries what it asked for |
| `MuxServing.RunsExactly` | wisp/src/mux/inner.rs:385-423 | for every log of either side, which events end the actor: a client ends on any Connect, a server on any Continue and on a Connect nobody waits for |
| `MuxServing.ServedExactly` | wisp/src/mux/inner.rs:362-423 | for every log of a server and whatever ids the client uses: the k-th stream has the id of the k-th Connect packet, is open until the first event that closes it, replaces it or ends the actor, and then shows the reason of that event |
| `MuxKinds.KindsExactly` | wisp/src/mux/inner.rs:362-378 | for every log of either side each stream was made by an event that asks for one, in order; exactly the types under flow control have a bounded queue on a server and tracked credit on a client; and how the actor alone changes the credit |
| `MuxDelivery.MultiplexedDelivery` | wisp/src/mux/inner.rs:353-423 | over every two-party run, with writes even after an actor ended: ids match on both sides; client reads are a prefix of what that server stream wrote; server reads are an in-order duplicate-free subsequence; nothing is missing on open unbounded streams |
| `MuxPeer.RequestsArrive` | wisp/src/mux/server.rs:23-31 | over every two-party run the server is told the type, host and port of the requests the client made, in order |
| `MuxPeer.ReasonArrives` | wisp/src/mux/inner.rs:311-330 | the reason with which the client closes a stream is the one the server sees once all packets are handled, unless the server closed it by itself or an actor ended |
| `MuxPeer.ReasonsAgree` | wisp/src/mux/inner.rs:380-383 | a stream closed on a side that has not closed it by itself is closed on the other side for the same reason |
| `MuxFlowDelivery.NothingIsLost` | wisp/src/mux/server.rs:33-45 | for buffer sizes up to 10 and flushed writers, over every run with any number of streams: on every stream the server has open, flow-controlled or not, read ++ queued ++ on the wire equals what the client wrote |
| `MuxFlowDelivery.LinkedActors` | wisp/src/mux/inner.rs:385-423 | every step of the actors keeps one stream's halves, tables and wires in agreement |
| `MuxFlow.FlowKept` | wisp/src/stream/mod.rs:79-255 | every call of the halves and every arrival keeps a stream in order and drops nothing, also after the client closed it |
| `MuxFlow.UpdateKept` | wisp/src/mux/client.rs:30-44 | for windows up to 10 taking over a credit keeps both sides in agreement |
| `MuxFlowProgress.ReadsSendUpdate` | wisp/src/stream/mod.rs:106-120 | on a stalled stream among any others, however the steps interleave, enough reads lead to a moment at which an update has been sent |
| `MuxFlowProgress.UpdateArrives` | wisp/src/mux/client.rs:30-44 | once the client has handled the packets ahead of an update and the update, there was a moment at which the writer had its credit and was awake |
| `MuxFlowProgress.StallEnds` | wisp/src/mux/client.rs:36-41 | in every run with any number of streams, window from 1 to 10 and flushed items: a stalled stream that stays open gets credit after at most target + 1 reads and the deliveries that follow |
| `MuxDelivery.SubsequencePositions` | wisp/src/mux/server.rs:33-45 | a subsequence comes from strictly increasing positions, one for each element |
| `MuxObjects.MuxInner.AddStream` | wisp/src/mux/inner.rs:362-378 | refines `MuxSpec.AddStream`; table and open streams stay in step |
| `MuxObjects.MuxInner.CreateStream` | wisp/src/mux/inner.rs:353-360 | the next id, or none and no change when the ids are used up |
| `MuxObjects.MuxInner.CloseStream` | wisp/src/mux/inner.rs:380-383 | disconnects and gives the reason to exactly the stream with the id |
| `MuxObjects.MuxInner.HandleData` | wisp/src/mux/server.rs:33-45 | routes data to the stream with the id, if there is one with room, and takes it off the server's credit |
| `MuxObjects.MuxInner.HandleContinue` | wisp/src/mux/client.rs:30-44 | replaces the credit of the tracked stream with the id, if there is one |
| `MuxObjects.MuxInner.Drain` | wisp/src/mux/inner.rs:235-242 | closes every open stream with an unknown reason, changes no closed one |
| `MuxObjects.MuxInner.HandlePacket` | wisp/src/mux/inner.rs:385-423 | refines `MuxSpec.HandlePacket`, with credit and with the packets that end the actor, such as a Connect nobody waits for |
| `MuxObjects.MuxInner.HandleEvent` | wisp/src/mux/inner.rs:289-347 | refines one round of the loop, with the packet sent, if the transport takes it |
| `MuxObjects.MuxInner.Entry` | wisp/src/mux/inner.rs:287-350 | the whole loop: final state and all packets sent |
| `MuxObjects.StoppedStaysPut` | wisp/src/mux/inner.rs:289-350 | nothing is handled or sent after the end |
| `Packets.PacketRoundTrip` | wisp/src/packet.rs:447-476 | decoding undoes encoding if and only if the packet is canonical; the length is the size hint |
| `Packets.AcceptedReencodes` | wisp/src/packet.rs:125-223 | accepted input is canonical and re-encodes to a prefix of it: all for Connect and Data, 9 and 6 bytes for Continue and Close |
| `Packets.RejectedExactly` | wisp/src/packet.rs:361-370 | which bytes are rejected, with which error: short input, unknown types and hosts that are not UTF-8 |
| `Packets.LittleEndian` | wisp/src/packet.rs:447-462 | byte k of a number is its k-th digit to the base 256 |
| `Packets.Layout` | wisp/src/packet.rs:447-462 | where type, stream id and the fields of each body stand |
| `Packets.CodesExactly` | wisp/src/packet.rs:46-118 | the tables of close reasons and stream types; every other code is kept as it is |
| `Unicode.Utf8Exactly` | wisp/src/packet.rs:125-170 | a host is accepted if and only if it is the UTF-8 encoding of some Unicode scalar values, by an encoder of its own |
| `Unicode.OneSpelling` | wisp/src/packet.rs:125-170 | of one list of scalar values only |
| `Packets.StoredExactly` | wisp/src/mux/inner.rs:127-132 | a close reason survives being stored as its code if and only if it is no catch-all with a named code; the code itself always does |
| `WireObjects.EncodePacket` | wisp/src/packet.rs:447-462 | the buffer code writes the packet's encoding |
| `WireObjects.DecodePacket` | wisp/src/packet.rs:464-476 | the buffer code reads it, with every error |
| `WireObjects.DecodeRest` | wisp/src/packet.rs:361-370 | the same for the body of each type |
| `WireObjects.PutEntry` | wisp/src/extensions/mod.rs:72-77 | id, 32-bit length and payload are appended |
| `WireObjects.EncodeInfo` | wisp/src/packet.rs:311-322 | the loop writes header and all entries in order |
| `WireObjects.FindBuilder` | wisp/src/packet.rs:298-302 | the first builder for an id |
| `WireObjects.DecodeEntry` | wisp/src/packet.rs:289-303 | one round of the loop consumes one entry and updates one builder |
| `WireObjects.DecodeExtensions` | wisp/src/packet.rs:266-303 | the loop ends on all bytes and yields builders and extensions of `DecodeExts` |
| `WireObjects.BuildPasswordFromBytes` | wisp/src/extensions/password.rs:178-221 | the server's reading of credentials, with every error and the state afterwards |
| `WireObjects.BuildCertFromBytes` | wisp/src/extensions/cert.rs:262-312 | the server's search for a verifying key |
| `Extensions.EntriesRoundTrip` | wisp/src/packet.rs:266-322 | splitting undoes encoding for all entry lists with payloads below 2^32 bytes, ignoring up to four stray bytes |
| `Extensions.DecodeIsFeed` | wisp/src/packet.rs:266-303 | decoding any bytes is giving the entries they split into to the builders in turn |
| `Extensions.FeedIds` | wisp/src/packet.rs:289-303 | the result has one extension for each entry with a known id, in order |
| `Extensions.PasswordSound` | wisp/src/extensions/password.rs:178-221 | for every byte string: a result with id 0x02 means exactly one such entry, spelling a user and password of the table |
| `Extensions.FeedCert` | wisp/src/extensions/cert.rs:262-312 | a result with id 0x03 means an entry whose signature of the challenge a listed key verifies |
| `Extensions.HonestPassword` | wisp/src/extensions/password.rs:60-77 | names up to 255 bytes are encoded and accepted exactly if they match the table; longer ones panic |
| `Extensions.HonestCert` | wisp/src/extensions/cert.rs:145-171 | an encoded response is accepted exactly if a listed key verifies it |
| `Handshake.InfoDecodes` | wisp/src/packet.rs:378-398 | a side that reads the other's INFO ends up with exactly the ids both know |
| `Handshake.OfferIds` | wisp/src/mux/mod.rs:61-82 | a side offers exactly the ids of its builders |
| `Handshake.HandshakeAgreement` | wisp/src/mux/client.rs:60-119 | all four version combinations, any break-off: client success means it received the server's Continue, the server succeeded, and both agree on version, buffer size and extension ids |
| `Handshake.ServerPasswordSound` | wisp/src/mux/server.rs:73-138 | whatever the client sent, a finished server that reports the password extension received one valid pair |
| `Handshake.ServerCertSound` | wisp/src/extensions/cert.rs:315-372 | likewise a listed key verified a signature of the challenge in the server's own INFO packet |
| `HandshakeSuccess.FeedExactly` | wisp/src/packet.rs:289-303 | with distinct ids decoding succeeds if and only if each builder accepts its entry in its initial state |
| `HandshakeSuccess.OfferExactly` | wisp/src/mux/mod.rs:61-82 | INFO can be sent if and only if each builder has something to send |
| `HandshakeSuccess.AcceptableExactly` | wisp/src/extensions/password.rs:160-221 | for one client builder, being able to answer and being accepted amounts to the caller-visible condition |
| `HandshakeSuccess.HandshakeSucceedsExactly` | wisp/src/mux/server.rs:73-166 | a version 2 conversation succeeds on both sides if and only if every authentication builder of the client has its counterpart and brings accepted credentials or signature |
| `HandshakeVersions.SucceedsExactly` | wisp/src/mux/client.rs:60-119 | all four version combinations: always with a version 1 server, never for a version 1 client of a version 2 server, and exactly if all builders are acceptable in version 2; the server succeeds if and only if the client does |
| `HandshakeVersions.OldClientFails` | wisp/src/mux/client.rs:60-119 | whatever is delivered, a version 1 client fails with a version 2 server, with the INFO packet's type as the error |
| `HandshakeVersions.DowngradesExactly` | wisp/src/mux/server.rs:113-122 | a version 2 server falls back to version 1 if and only if the first message is a plain packet, and then sends nothing but its INFO |
| `HandshakeVersions.ServerReportsExactly` | wisp/src/mux/server.rs:73-138 | for any bytes and any `required`: a finished server reports an extension of its builders if and only if the first message is an INFO packet that mentions it |
| `HandshakeVersions.EmptyInfoPasses` | wisp/src/mux/server.rs:91-112 | an INFO packet without entries gets a client past every builder |
| `HandshakeVersions.PlainPacketPasses` | wisp/src/mux/server.rs:113-122 | so does any packet of version 1 |
| `HandshakeFailures.FailureIsTold` | wisp/src/mux/server.rs:139-169 | for any bytes: a failed server has sent INFO and then a Close packet for stream 0 with code 0xC0 on wrong credentials, with 0xC1 on a wrong signature, and nothing on any other failure |
| `HandshakeFailures.WrongPasswordIsTold` | wisp/src/mux/server.rs:139-169 | a client whose name and password are not in the table is told so |
| `HandshakeFailures.WrongSignatureIsTold` | wisp/src/mux/server.rs:139-169 | so is one whose signature no listed key verifies |
| `HandshakeFailures.FirstErrorCounts` | wisp/src/packet.rs:289-303 | with distinct ids the list fails with the error of the first entry that is refused |
| `HandshakeFailures.MotdArrives` | wisp/src/extensions/motd.rs:68-99 | a client that succeeded shows the text of the server, and no other |
| `HandshakeFailures.RequiredIsTold` | wisp/src/extensions/password.rs:205-214 | a client that has read INFO knows what the server requires, and its challenge |
| `HandshakeErrors.OfferSays` | wisp/src/mux/mod.rs:61-82 | the entry each builder offers, byte by byte |
| `HandshakeErrors.InfoLayout` | wisp/src/packet.rs:311-322 | an INFO packet is type 5 on stream 0, version 2.0 and the entries one after the other |
| `HandshakeErrors.OfferFails` | wisp/src/mux/mod.rs:61-82 | a side that cannot offer fails with the error of the first builder that has nothing to say, or because of a user name above 255 bytes |
| `HandshakeErrors.RefusedExactly` | wisp/src/extensions/cert.rs:262-312 | for any payload, when exactly a builder refuses it with which error |
| `HandshakeErrors.AcceptedMakes` | wisp/src/extensions/password.rs:178-221 | what a builder makes of a payload it accepts |
| `HandshakeErrors.FeedRefused` | wisp/src/packet.rs:289-303 | a list of entries fails for the reason for which a builder refuses one of them |
| `HandshakeErrors.ServerFailsExactly` | wisp/src/mux/server.rs:73-138 | for any bytes: each error of a version 2 server, told from the bytes of the first message |
| `HandshakeErrors.ClientFailsExactly` | wisp/src/mux/client.rs:60-119 | for any bytes: each error of a version 2 client |
| `HandshakeErrors.ClientDowngradesExactly` | wisp/src/mux/client.rs:60-119 | a version 2 client falls back to version 1 if and only if the first message is a Continue packet for stream 0 |
| `HandshakeErrors.OldServerExactly` | wisp/src/mux/server.rs:124-137 | what a version 1 server sends, and that it is done at once |
| `HandshakeErrors.OldClientExactly` | wisp/src/mux/client.rs:60-119 | how a version 1 client ends, for any bytes |
| `HandshakeRequired.RequiredIsIgnored` | wisp/src/extensions/password.rs:160-221 | for any bytes the server's handshake ends in the same way whatever its builders say is required |
| `HandshakeRequired.UnsupportedExtensions` | wisp/src/mux/mod.rs:274-300 | the loop collects exactly the required ids that are not supported |
| `HandshakeRequired.CheckedClientsAreAuthentic` | wisp/src/mux/mod.rs:274-300 | with 0x02 required, every client that gets in sent one entry with a user and password of the table |
| `HandshakeEnforced.CouldLeaveOut` | wisp/src/mux/server.rs:91-112 | for every version 2 client that got in there is one that gets in with the same extensions but any given one |
| `HandshakeEnforced.EnforcedExactly` | wisp/src/mux/mod.rs:274-300 | for any builders and any list of required ids: no client gets past the server and the check without an extension if and only if its id is required or no client gets past the check at all |
| `HandshakeEnforced.PassableExactly` | wisp/src/mux/mod.rs:274-300 | some client gets past the check if and only if nothing but UDP is required or each required id can be satisfied by itself |
| `HandshakeEnforced.SatisfiableExactly` | wisp/src/extensions/password.rs:178-221 | a builder can be satisfied if and only if its table has a name and password that can be sent, or some signature is verified by a listed key; UDP and message of the day always |
| `HandshakeOversize.TextIsReadAsEntries` | wisp/src/extensions/mod.rs:72-77 | a text of 2^32 bytes that spells entries is read as those entries |
| `HandshakeOversize.OversizedOfferDisagrees` | wisp/src/extensions/mod.rs:72-77 | a conversation in which both sides succeed and disagree on the extensions |
| `HandshakeOversize.AgreesExactly` | wisp/src/extensions/mod.rs:72-77 | over all conversations with offers of at most max bytes a successful client means agreement, if and only if max is below 2^32 |

## Model assumptions

- In the lock model a waker is identified with the handle it was registered for, and the slab may hand out any
  vacant key. Memory is sequentially consistent there.
- `MuxDelivery` reads and writes streams with `FlowSpec.PollNext` and `FlowSpec.MaybeWrite`, the functions that the poll
  methods of `FlowObjects` are proved against.
- In the flow and transport systems one poll, or one packet handled by an actor, is one step. `CreditRace` and
  `ServerRace` show exactly what of this is needed for the counters of both sides and the flow waker.
- In the wake model an unlock may wake any sleeping waiter; the code takes the one with the lowest slab key, which
  `WakeLock` brings in.
- A cancelled operation is one whose future is dropped while the half is kept, as `timeout` and `select!` do.
- The actor's `lock`, `SinkExt::send` and `unlock` make one operation of several polls: each polls the lock, hands the
  packet over once the transport is ready, and flushes it. Meanwhile the actor handles no packet and makes no stream.
- A packet the transport does not take counts as one that stays in flight for ever in the two-party runs.
- Randomness, signing and verifying are parameters of the handshake; nothing is assumed about them except, in
  `HandshakeSuccess`, the lengths of challenges, hashes and signatures.

## Left out

- FlowSystem.LossFree: transport errors and disconnects are outside the flow system; a chunk that is being held back is lost when the transport fails.
- FlowSystem.ServerLedger: stated from any balanced state of the flow system, of which the initial state is one.
- Handshake.HandshakeAgreement: requires that every offered payload fits the 32-bit length field, to which the code cuts the length; `HandshakeOversize.AgreesExactly` shows that this limit is exact.
- ServerRace.ChargeIsLost: leaves out the largest 32-bit buffer size, where the addition saturates; `ServerRace.RefillIsLost` covers it.
- WakeLock.StepIsALockRun: leaves out steps that panic; a panic in the middle of a poll ends the run.
- TransportContract.NeverStuckExactly: a half gets the lock whenever it polls and the flag is free; the waiting queue is added in `WakeSystem`.
- MuxDelivery.MultiplexedDelivery: lets server queues refuse data at any time; `MuxFlowDelivery.NothingIsLost` adds the credit that keeps them from it.
- MuxFlowDelivery.NothingIsLost: polls get arbitrary Pending answers but no transport errors, as in `FlowSystem`.
- Guards of the transport lock that `lock_ws` hands to callers, who may keep the lock as long as they like.
- `poll_close` of stream halves and transports, and the closing of the transport at the end of the actor.
- The read side of the unfold transport, and the real transports.
- The `AsyncRead` and `AsyncWrite` adapters, which bypass credit.
- Extension packets after the handshake; one that is handled ends the read stream and is modelled as its end.
- Handshake middleware, third-party extensions and type-erased lookups.
- Ed25519, SHA-256 and random number generation.
- Weak-memory effects of relaxed atomics.
- Addresses, listeners, configuration, statistics and the browser client: I/O and glue around the core.
