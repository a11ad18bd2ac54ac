# Walkie: a verified model

Walkie is a store-and-forward messenger: a coordinator queues messages for devices that are away, and a
client keeps one connection alive, reconnects when it dies, applies what it is sent, and acknowledges the
sealed messages among it. Its promises live in concurrent state machines and in a durable queue, so that is
what is modelled here.

Every component is a module of its own. The concurrent ones are state machines: a `State`, an `Event` per
atomic step (one critical section, one SQL statement or transaction, one channel operation), a `Step`
function, and `Run`, which folds any sequence of events. Steps that cannot happen leave the state alone, so
a theorem about `Run(es)` for all `es` is a theorem about every interleaving. Next to them stand the
objects as the program has them: classes whose methods update their fields in place and are proved against
the step and specification functions that the theorems talk about.

| module | what it covers |
|---|---|
| `Queue`, `Sweep`, `ExpiryWatcher`, `SealedStorage` | the offline queue: tables, unlocked sweep, expiry watcher, stored bodies |
| `AckProtocol` | the queue, the hello and ack handlers, and any number of client processes together |
| `Connection`, `Watchdog`, `Supervisor`, `Backoff` | the client's state machine and its subscriptions, its death verdicts, the loop that shares the machine with them, its delays |
| `Presence`, `Server` | liveness leases, route bracketing, the drain registry |
| `SealedBox`, `Hub`, `MessageLog`, `Display` | opening sealed mail, applying it, filing it once, and what a process shows of its queue |
| `StoredTime`, `History`, `HistoryRaces` | the text layout of times, retention that compares texts, and its statements interleaved |
| `CtlSocket`, `Outbox`, `FakeClock` | bounded fan-out with loss accounting, the outbox drain, the test clock |
| `Basics`, `Envelopes`, `Strings`, `ConnStates` | machine integers, the envelope, text order, the table of legal edges |

Six results are about where the code and a comment in it part ways; the model follows the code.

- `PendingCount` is said never to disagree with `Resume` (internal/coordinator/queue/queue.go:399-402). It
  counts rows that `Resume` skips as unreadable. On any tables the two agree exactly when every pending row
  is readable (`Queue.PendingCountOnTables`), so they do agree in every history of rows this build wrote
  (`Queue.PendingCountAgreesWithResume`), and may not on tables found on disk with a row left by another
  build or damaged at rest (`Queue.PendingCountCanExceedResume`).
- The gap report is said to describe events older than its batch (internal/ctlsocket/server.go:516-518). The
  full queue drops the newest event, so the dropped run is newer than the batch it heads.
  `CtlSocket.StreamIsAccountedFor` states the order that holds, `CtlSocket.ReportComesEarly` an instance.
- The stored-time layout is said to sort chronologically (internal/history/history.go:346-349). Around year
  0 it does exactly from the start of year -1 to the end of year 9999:
  `StoredTime.SortsExactlyThroughYear9999`. Beyond, a five-digit year sorts as its first four digits.
- The history's cap is said to be eventually exact under concurrent writers, which may transiently exceed
  it (internal/history/history.go:66-68). Overlapping appends can also evict twice and fall short of it, down
  to an empty table (`HistoryRaces.OverlappingAppendsUndershoot`, `HistoryRaces.TwoAppendsCanLeaveNothing`).
  A size delete does so exactly when other statements deleted more than they added since its count
  (`HistoryRaces.UndershootsExactlyWhenOthersDeletedMore`), and never when appends do not overlap
  (`HistoryRaces.SerialAppendsKeepTheCap`).
- `serve` is said to return with the machine already disconnected (internal/control/client.go:534-538). It
  does exactly when no claimed verdict is still to be carried out; otherwise the next attempt is an illegal
  edge and panics (`Supervisor.AttemptPanicsExactlyDuringAVerdict`, `Supervisor.UntimelyAttemptPanics`).
- A query is said to return the matching rows (internal/history/history.go:234-237). It fails as a whole when
  one of them carries a time outside years 0 to 9999, which a sender's sent_at may do, as it is stored as it
  came: `History.QueryReturnsWhatItPicks`, `History.MisdatedMessageFailsTheQuery`.

A consequence of acknowledging sealed frames only (cmd/walkie/app.go:151-157): a plain queued row that was
applied is sent again on every reconnect until a sealed one behind it is acknowledged or it expires.
`AckProtocol.CatchUpLeavesWhatFollowsTheLastSealed` says what exactly is left. And since an append reads the
clock before its INSERT runs, overlapping appends can store rows out of order although the clock never goes
back (`HistoryRaces.OvertakenAppendLeavesAHole`).

Two conversions in the queue are modelled as written: `int64(after)` of an unsigned position at or above 2^63
is negative, so such a `Resume` returns everything and such an `Ack` deletes nothing.

Parameters of the model: protobuf (a codec whose one law is that it reads back what it wrote), X25519, HKDF
and ChaCha20-Poly1305 (abstract functions with the agreement law of section 6.1 of RFC 7748, the determinism
of section 2 of RFC 5869 and the decryption law of section 2.8 of RFC 8439), clock readings, random draws,
and the outcome of every send.

## Model

Loops and theorems. The constructors and the methods of the classes that take one step of their model say so
in their contracts and are not listed.

| member | source | states |
|---|---|---|
| `Queue.ResumeRefinesLog` | internal/coordinator/queue/queue.go:358-397 | For every history of enqueues, acks, expiries and restarts, Resume returns, in strictly increasing position order, exactly the accepted, readable messages past `after` that no later ack covered and no sweep evicted |
| `Queue.OwedIsRetained` | internal/coordinator/queue/queue.go:237-330 | A message the log still owes is in the table under its key, with the row it was accepted with |
| `Queue.RetainedIsOwed` | internal/coordinator/queue/queue.go:237-330 | Each row in the table was accepted by some event and removed by none since |
| `Queue.OwedIsResumed` | internal/coordinator/queue/queue.go:358-397 | A readable message that is owed past `after` is resumed, and its frame is built from the very row it was accepted with |
| `Queue.PositionsGrow` | internal/coordinator/queue/queue.go:295-320 | Positions are never reissued: a later acceptance for a recipient has a larger position, across acks, expiries and restarts |
| `Queue.NextGrows` | internal/coordinator/queue/queue.go:295-320 | A recipient's next position never decreases along a history |
| `Queue.OvershootHidesNothing` | internal/coordinator/queue/queue.go:423-468 | Whatever was acknowledged before, a readable message accepted now is resumed from any point below its position |
| `Queue.AckThenResume` | internal/coordinator/queue/queue.go:358-468 | After an acknowledgement a resume is what a resume from the later of the two points was before it, for late, repeated and wrapped positions too; other recipients' resumes do not change |
| `Queue.HugePositionsWrap` | internal/coordinator/queue/queue.go:358-468 | In every history a position at or above 2^63 acknowledges nothing and resumes everything |
| `Queue.CapHolds` | internal/coordinator/queue/queue.go:276-293 | No history takes a recipient past maxSize retained rows |
| `Queue.AcceptedExactlyBelowTheCap` | internal/coordinator/queue/queue.go:276-320 | In every history a message is accepted if and only if its recipient is owed fewer than maxSize messages and a position is left, and then under one more than the number of acceptances so far |
| `Queue.NextCountsAcceptances` | internal/coordinator/queue/queue.go:295-320 | Positions are dense: in every history the next one is one more than the number of acceptances for that recipient |
| `Queue.AckedIsTheHighest` | internal/coordinator/queue/queue.go:423-468 | In every history the acknowledged position is the highest one any ack named, or zero |
| `Queue.PendingCountOnTables` | internal/coordinator/queue/queue.go:399-412 | On any sound tables PendingCount is at least the number resumed, and equal if and only if every pending row of the recipient is readable |
| `Queue.PendingCountAgainstResume` | internal/coordinator/queue/queue.go:399-412 | The same in every history |
| `Queue.PendingCountAgreesWithResume` | internal/coordinator/queue/queue.go:399-412 | In every history whose rows were framed by this build the two are equal |
| `Queue.PendingCountCanExceedResume` | internal/coordinator/queue/queue.go:399-412 | On sound stored tables holding a row with an unknown marker, that row is counted and not resumed |
| `Queue.ScanIsExact` | internal/coordinator/queue/queue.go:368-396 | A scan of a position range yields strictly increasing positions and exactly the readable rows, each with its own envelope and position |
| `Queue.OfflineQueue.constructor` | internal/coordinator/queue/queue.go:163-206 | A reopened queue keeps every cursor and drops exactly the rows past the TTL, said of the rows themselves |
| `Queue.OfflineQueue.Enqueue` | internal/coordinator/queue/queue.go:237-330 | An open queue gives a marshallable, unrefused message the next position if and only if its recipient has fewer than maxSize rows and a position is left, answers "at capacity" if and only if the rows reach maxSize, and a refusal changes nothing |
| `Queue.OfflineQueue.Deliver` | internal/coordinator/queue/queue.go:217-224 | A direct message is admitted by the same rule on the rows of its recipient, anything else is refused and changes nothing, and every new row is the framed message |
| `Queue.OfflineQueue.Ack` | internal/coordinator/queue/queue.go:423-468 | Raises the acknowledged position to the given one if that is higher, touches no other cursor, and deletes exactly the covered rows; a closed queue refuses |
| `Queue.OfflineQueue.ResumeFrom` | internal/coordinator/queue/queue.go:358-397 | The row loop returns the exact scan of the recipient's positions past `after` |
| `Queue.OfflineQueue.Sweep` | internal/coordinator/queue/queue.go:554-614 | Collect then delete one by one leaves exactly the rows enqueued after the cutoff |
| `Sweep.SweepRemovesOnlyCollectedRows` | internal/coordinator/queue/queue.go:554-614 | With any enqueues and acks in between, a sweep's delete removes a row only if that same row was in the table, already past the TTL, when the sweep's select ran |
| `Sweep.CompletedSweepIsExact` | internal/coordinator/queue/queue.go:554-614 | A sweep that deleted all it collected, whatever ran in between, removed of the rows that were there exactly those past the cutoff; any other is gone only if acknowledged meanwhile |
| `Sweep.TablesFollowAHistory` | internal/coordinator/queue/queue.go:237-614 | Under any interleaving of sweeps, enqueues and acks the tables are those of a history of whole transactions |
| `Sweep.DueWasCollected` | internal/coordinator/queue/queue.go:554-614 | Every key waiting for deletion comes from the latest collection, with the row it had then |
| `Sweep.EnqueueKeepsInv` | internal/coordinator/queue/queue.go:237-330 | An enqueue during a sweep never lands under an issued, collected or expired key |
| `AckProtocol.AckDeletesOnlyProcessedRows` | internal/coordinator/server.go:940-962 | In every run, an ack in flight (first, duplicated, reordered or late) deletes a readable row only if its frame was already handed to Hub.Apply |
| `AckProtocol.AcknowledgedIsAccountedFor` | internal/control/client.go:264-309 | Every position at or below an ack in flight or a client's last acked position was applied, had expired when collected, or is unreadable |
| `AckProtocol.ResumeIsInOrder` | internal/coordinator/server.go:830-936 | The frames written for a hello leave no unsettled position between one frame and the next |
| `AckProtocol.ReadingSettles` | internal/control/client.go:611-635 | Reading a frame settles its position and everything below it |
| `AckProtocol.DeliverAckKeepsInv` | internal/coordinator/server.go:940-962 | Delivering an ack, again or for the first time, keeps every ack and every client's position safe |
| `AckProtocol.RunKeepsInv` | cmd/walkie/app.go:130-170 | The safety of all acks, hellos and written frames holds in every run of crashes, restarts from zero, disconnects and lost acks |
| `AckProtocol.AckedIsTheHighestVouchedFor` | internal/control/client.go:264-309 | In every run a process that owes no acknowledgement stands at exactly the highest position among the sealed frames it applied and the positions it restored |
| `AckProtocol.ReconnectResumesAfterTheAcked` | internal/control/client.go:469-475 | In every run a process that reconnects is served only frames above its acknowledged position, and all retained readable rows above it |
| `AckProtocol.ReconnectIsOpen` | internal/control/client.go:264-325 | A process whose connection drops after it acknowledged what it applied may reconnect, and so may a new one that restored its position |
| `AckProtocol.QueueFollowsItsModel` | internal/coordinator/server.go:830-962 | The queue under the protocol runs as its own model does, on its own steps and the delivered acks |
| `AckProtocol.NothingIsLost` | internal/coordinator/queue/queue.go:237-330 | In every run each message accepted for the device is still in the table, was applied, had expired when collected, or is unreadable |
| `AckProtocol.FreshClientAppliesEverything` | internal/coordinator/server.go:830-936 | From any reachable state a fresh process that reads the frames its hello was answered with leaves every retained readable row applied |
| `AckProtocol.CatchUpLeavesWhatFollowsTheLastSealed` | cmd/walkie/app.go:151-157 | After any run, a fresh process's catch-up and the delivery of its acks, in any order and any number of times, leave exactly the device's rows above the last sealed frame |
| `AckProtocol.NothingIsLeftExactlyAfterASealedRow` | cmd/walkie/app.go:151-157 | These are none if and only if the device's last retained row is a sealed one |
| `AckProtocol.DeliveredIsQueueable` | internal/coordinator/queue/queue.go:208-224 | A framed direct message reads back as itself or as a sealed box, never as anything the hub is not handed |
| `Display.StoredMessageIsShown` | cmd/walkie/app.go:130-170 | After any run and a catch-up, every retained message that the device can open has been displayed by that process |
| `Display.ShownAgainOnlyAfterAFullWindow` | internal/message/log.go:85-102 | Whatever messages a process is handed, one is displayed again only after at least `capacity` others, pairwise distinct, were displayed in between |
| `Display.NothingTwiceWithinTheWindow` | internal/message/log.go:85-102 | A process that has displayed no more than the window holds has displayed nothing twice |
| `Display.StoredMessageIsShownOnce` | cmd/walkie/app.go:130-170 | Exactly once: after any run, a catch-up that displays no more than the window holds displays each retained message the device can open at one place and no other |
| `Display.ShownIsAccepted` | internal/message/log.go:85-102 | The displayed IDs are those the duplicate filter's specification accepts |
| `Display.ReadLoop` | internal/control/client.go:611-635 | A new device handed any sequence of frames has filed exactly the messages the specification displays |
| `ExpiryWatcher.NoLostWakeUp` | internal/coordinator/queue/queue.go:498-543 | In every reachable state a retained row is covered by an armed or fired timer no later than its deadline, a sweep, or an enqueue about to re-arm; a parked watcher with a stale timer snapshot has a wake token coming |
| `ExpiryWatcher.OverdueRowIsDeleted` | internal/coordinator/queue/queue.go:498-535 | From every reachable open state, in every run of the queue's own steps an overdue row is gone after a bounded number of them, and until then one is enabled |
| `ExpiryWatcher.EveryMoveIsCloser` | internal/coordinator/queue/queue.go:498-614 | Each step of watcher, timer or lock holder that does anything brings an overdue row closer to its deletion |
| `ExpiryWatcher.OwnStepsComeToRest` | internal/coordinator/queue/queue.go:498-543 | From every reachable open state the queue's own steps, in any order, come to rest within a bounded number: no timer armed too early keeps it spinning |
| `ExpiryWatcher.RestLeavesExactlyTheYoung` | internal/coordinator/queue/queue.go:498-614 | From every reachable open state, where the queue's own steps have come to rest exactly the overdue rows are gone |
| `ExpiryWatcher.TableIsExact` | internal/coordinator/queue/queue.go:237-330 | In every run the table holds exactly the initial and enqueued rows, each with its time of enqueue, less those acknowledged or swept |
| `ExpiryWatcher.CloseIsFinal` | internal/coordinator/queue/queue.go:470-483 | A close that gets the lock stops the timer, and nothing is enqueued from then on |
| `ExpiryWatcher.RowsLeaveByAckOrOverdue` | internal/coordinator/queue/queue.go:554-614 | In every run a row leaves the table by an acknowledgement or by a sweep once its TTL has passed, never otherwise |
| `ExpiryWatcher.SweepTimer.RearmLocked` | internal/coordinator/queue/queue.go:672-713 | With a retained row the timer is due at exactly max(now, earliest + TTL), unread fires kept or dropped as asked; with none it is stopped; and it nudges |
| `SealedStorage.FramingRoundTrips` | internal/coordinator/queue/sealed.go:176-244 | A sealed box crosses storage verbatim under its marker, a plain envelope whole under its own; only the position is new |
| `SealedStorage.FrameCarriesPosition` | internal/coordinator/queue/sealed.go:201-244 | Every frame built from storage carries its row's position; a body is readable if and only if it is a box or a plain body that unmarshals |
| `SealedBox.OpenInvertsSeal` | internal/crypto/sealedbox.go:138-181 | Whatever was sealed to an identity's public key, that identity opens to the same plaintext |
| `SealedBox.SealWithRand` | internal/crypto/sealedbox.go:88-129 | The box is version, ephemeral key, nonce and ciphertext under the key derived from the shared secret and both public keys in that order; it opens for the holder of the recipient key, and is missing exactly when the agreement rejects that key |
| `SealedBox.KeyBindsAllThree` | internal/crypto/sealedbox.go:184-199 | Under a collision-free derivation two boxes share a key if and only if shared secret, ephemeral key and recipient key are the same |
| `SealedBox.OpenVerdicts` | internal/crypto/sealedbox.go:138-165 | A box is refused as truncated exactly below 73 bytes, then for any version but 1, then exactly when the agreement rejects its ephemeral key |
| `SealedBox.LawsAreSatisfiable` | internal/crypto/sealedbox.go:88-199 | The assumed laws of the primitives have a model |
| `Hub.ReplayEqualsLive` | internal/messagehub/hub.go:227-308 | Stored plain or sealed, the resumed frame applies to the same message (ID, sender, recipient, body, both timestamps) as the live envelope |
| `Hub.QueueReplayEqualsLive` | internal/coordinator/routing.go:403-409 | While a stamped direct message is owed, the recipient's resume holds a frame that applies to exactly the live message |
| `Hub.TextsOfStamped` | internal/messagehub/hub.go:278-305 | Each field of a displayed direct or broadcast message is the stamped one, a broadcast has no recipient, and no other payload is a message |
| `Hub.Device.Apply` | internal/messagehub/hub.go:227-308 | A message is displayed exactly when it is readable and its ID is outside the duplicate window, and then it alone is filed |
| `MessageLog.Dedup.First` | internal/message/dedup.go:78-98 | The ring and set answer and evolve as the window of the last `capacity` accepted IDs |
| `MessageLog.AcceptedAreFarApart` | internal/message/dedup.go:78-98 | Two acceptances of one ID are more than `capacity` acceptances apart |
| `MessageLog.AcceptedExactlyOutsideTheWindow` | internal/message/dedup.go:78-98 | An ID is accepted if and only if none of the last `capacity` acceptances is of it |
| `MessageLog.EveryIdIsAccepted` | internal/message/dedup.go:78-98 | The accepted IDs are exactly the IDs seen: nothing is shut out for good |
| `MessageLog.DuplicateNeedsAFullWindow` | internal/message/dedup.go:78-98 | Between them lie at least `capacity` other, pairwise distinct accepted IDs |
| `MessageLog.RingDropsOldest` | internal/message/dedup.go:84-96 | Overwriting the head slot and moving on drops the oldest ID and appends the new one |
| `MessageLog.Log.Append` | internal/message/log.go:85-102 | Displays a message exactly when its ID is outside the window, and keeps each conversation the last `scrollback` accepted messages of its key in arrival order |
| `MessageLog.Log.File` | internal/message/log.go:90-100 | Appending and trimming one conversation keeps every conversation the window over its own messages |
| `MessageLog.ConversationIsWithThePeer` | internal/message/message.go:97-118 | Sent or received, a direct message files under its peer and no other, and only broadcasts file under the shared key |
| `MessageLog.Log.Conversations` | internal/message/log.go:119-132 | The known keys, each once, in order |
| `MessageLog.InsertionSort` | internal/message/log.go:126-130 | The in-place sort returns a sorted permutation |
| `Connection.NothingDroppedOrReordered` | internal/control/state.go:352-443 | At every step consumed, buffered, pump-local and pending changes are, in that order, the machine's changes since Subscribe; those form a connected legal path, and between fan-outs an active subscription is complete |
| `Connection.MachineCloseFlushesEverything` | internal/control/state.go:308-323 | A stream ended by the machine's close was pushed everything since Subscribe |
| `Connection.ConsumerSeesAPrefix` | internal/control/state.go:366-386 | Whoever closes, the consumer has received a prefix |
| `Connection.PumpIsWoken` | internal/control/state.go:401-443 | A pump parked on pending changes has its signal set or about to be set by the running fan-out |
| `Connection.PumpDeliversEverything` | internal/control/state.go:401-443 | From every reachable state a subscription's own steps end within a bounded number; where they end outside a fan-out, a subscription nobody closed has consumed exactly every change since it joined |
| `Connection.SubscriberGetsEveryChange` | internal/control/state.go:281-323 | Whatever happens around it, a subscriber that stays until the machine closes ends with its channel closed and exactly the changes made between subscribing and the close |
| `Connection.UnsubscribedGetsNothingMore` | internal/control/state.go:366-386 | After its own close a consumer holds a prefix of the changes up to then whatever follows, and its channel closes |
| `Connection.SubscribeAfterClose` | internal/control/state.go:281-306 | Subscribing to a closed machine gives a closed, empty channel |
| `Connection.PumpKeepsStory` | internal/control/state.go:401-443 | No pump step drops or reorders a change |
| `Connection.TransitionReachesEverySubscriber` | internal/control/state.go:255-270 | In whatever order the fan-out visits them, every active subscription gets the change once, last and signalled, and nobody else does |
| `Connection.Machine.Transition` | internal/control/state.go:237-271 | A legal change reaches every subscriber once and last; a same-state call, a closed machine and an illegal edge leave state and subscribers as they were |
| `Connection.Machine.Close` | internal/control/state.go:308-323 | The first close finishes every subscriber, a second none |
| `Watchdog.ExactlyOneVerdict` | internal/control/heartbeat.go:209-238 | For every interleaving the watchdog takes no edge, online to disconnected, or online to degraded to disconnected, never an illegal one; a diagnosis without its teardown means the teardown is still running or the machine closed |
| `Watchdog.VerdictTakesItsEdges` | internal/control/heartbeat.go:209-238 | In every run with no claim in flight on an open machine, a silence claim took exactly online to degraded to disconnected, a failure claim exactly online to disconnected, never both, and no claim no edge |
| `Watchdog.ClaimIsCarriedOut` | internal/control/heartbeat.go:353-367 | A claimed silence verdict diagnoses first and tears down next; a claimed failure tears down at once |
| `Watchdog.DeathIsDeclared` | internal/control/heartbeat.go:209-222 | In every run a fire claims if and only if it is of the current deadline and an interval has passed since the last frame; a send failure claims at once |
| `Watchdog.EveryTaskEnds` | internal/control/heartbeat.go:209-238 | Whatever a claimant or stopper still has to do, at most three of its moves finish it and leave the watchdog stopped |
| `Watchdog.StoppedForGood` | internal/control/heartbeat.go:378-391 | After Stop nothing is claimed or recorded, whatever follows |
| `Watchdog.ClosedStaysPut` | internal/control/state.go:237-271 | A closed machine is driven nowhere, whatever follows |
| `Watchdog.DegradedMeansSilence` | internal/control/heartbeat.go:317-367 | When a degraded verdict was claimed, no frame had been recorded for at least the dead-peer interval, and none has been since |
| `Watchdog.LastFrameIsLatest` | internal/control/heartbeat.go:187-197 | The recorded sign of life is the time of the latest frame that found the watchdog running |
| `Watchdog.Dog.ClaimFailure` | internal/control/heartbeat.go:209-222 | Takes the model's failure step: exactly one caller ever claims |
| `Watchdog.Dog.ClaimSilence` | internal/control/heartbeat.go:317-350 | Takes the model's deadline-fire step: only the current generation of a running watchdog on an online machine claims, and then an interval has passed since the last frame |
| `Watchdog.NextSlot` | internal/control/heartbeat.go:274-283 | The next beat is the first slot of the fixed grid after now |
| `Backoff.Schedule.EnvelopeFor` | internal/control/backoff.go:82-93 | For all int64 base and cap and every attempt, wrapping doubling yields min(cap, base times 2^attempt), in at most 63 doublings |
| `Backoff.DoublingsAreLogarithmic` | internal/control/backoff.go:82-93 | Doubling only below an int64 cap happens at most 63 times |
| `Backoff.EnvelopeDoublesToTheCap` | internal/control/backoff.go:72-93 | The envelope starts at the base, doubles with each attempt while that is below the cap, and is the cap from then on |
| `Backoff.Schedule.Delay` | internal/control/backoff.go:82-101 | The delay is in [0, envelope), however the product rounded |
| `Backoff.NewBackoff` | internal/control/backoff.go:57-68 | Refuses exactly the non-positive bounds and a cap below the base |
| `Backoff.Supervise` | internal/control/client.go:336-439 | Over any sequence of cycles, the k-th wait since the last served session uses index k-1, and all waits together stay below their envelopes' sum |
| `Supervisor.AttemptPanicsExactlyDuringAVerdict` | internal/control/client.go:336-409 | In every run of supervisor and session, an attempt on an open machine panics if and only if a verdict of the session before is claimed and not carried out; exactly then the machine is not disconnected |
| `Supervisor.WaitsCountSinceLastOnline` | internal/control/client.go:336-439 | In every run of supervisor and session each wait is drawn with the number of waits since the last session that came up |
| `Supervisor.LoopComesBack` | internal/control/client.go:336-439 | From every reachable state of an open loop some continuation ends in a session that is up, with the backoff at zero and one wait on the way exactly if a session had ended |
| `Supervisor.FailedAttemptWaits` | internal/control/client.go:336-409 | In every run a failed dial or handshake leaves a disconnected machine and one wait at the current index |
| `Supervisor.ClosedOrQuitIsFinal` | internal/control/client.go:336-439 | Once the machine is closed neither party moves it, and a loop told to quit does not attempt, wait or serve again |
| `Supervisor.NoIllegalMove` | internal/control/client.go:534-604 | If every attempt finds the verdicts before it carried out, neither party ever takes an illegal edge |
| `Supervisor.UntimelyAttemptPanics` | internal/control/client.go:549-604 | A reachable run in which a silence verdict is claimed, the read fails, serve returns, the wait ends, and the next attempt panics |
| `Supervisor.StepKeepsInv` | internal/control/client.go:336-409 | Every step keeps the division of the machine between the parties; no step but an attempt during a verdict panics |
| `Supervisor.SessionKeepsSettled` | internal/control/heartbeat.go:209-238 | Whatever a session's goroutines do, a retired watchdog without a claim has left an open machine disconnected |
| `Presence.OnlineExactlyWithLease` | internal/coordinator/presence/tracker.go:340-378 | While the tracker is open a device is online exactly when it holds one live lease, due at lastSeen plus the TTL |
| `Presence.OnlineExactlySinceObserved` | internal/coordinator/presence/tracker.go:232-286 | In every run a device is online if and only if it was observed at some event and since then neither lost its last connection nor had its due lease fire |
| `Presence.ObservationPutsOnline` | internal/coordinator/presence/tracker.go:340-356 | A heartbeat or connection puts its device online at once, last seen now, its lease due at now plus the TTL, and touches no other |
| `Presence.LastLossIsLastSeen` | internal/coordinator/presence/tracker.go:264-286 | A loss takes a device offline exactly if it was the last connection of an online one, and is then its last-seen time |
| `Presence.DueLeaseTakesOffline` | internal/coordinator/presence/tracker.go:435-450 | In every run the fire of a live lease that has come due takes its device offline and leaves last-seen |
| `Presence.CloseFreezes` | internal/coordinator/presence/tracker.go:292-303 | Once closed the tracker changes nothing it knows of a device, and a device loses its lease exactly when Close ends the leases |
| `Presence.StaleFireIsHarmless` | internal/coordinator/presence/tracker.go:435-450 | Once a newer observation was made, the fire of an older lease changes nothing in any later state |
| `Presence.ExpiryMeansSilence` | internal/coordinator/presence/tracker.go:435-450 | A fire that changes anything follows a full TTL without observation, leaves lastSeen at the last one, and touches only that device's online flag and lease |
| `Presence.OnlineSinceLatestObservation` | internal/coordinator/presence/tracker.go:340-378 | An online device's lastSeen is the time of its latest observation |
| `Presence.GenGrows` | internal/coordinator/presence/tracker.go:340-378 | A device's lease generation never decreases |
| `Server.DrainRegistryIsExact` | internal/coordinator/server.go:280-341 | In every run the WaitGroup counts exactly the handlers owing their Done, every registered connection is among them, the shutdown snapshot covers the registry, and a completed wait means it is empty |
| `Server.NothingEntersADrain` | internal/coordinator/server.go:386-404 | Once draining, the registry only shrinks, whatever follows |
| `Server.WaitReturnsExactlyWhenAllFinished` | internal/coordinator/server.go:280-341 | In every reachable state shutdown's snapshot is the registry, and its wait returns if and only if every handler has finished |
| `Server.DrainCompletes` | internal/coordinator/server.go:280-341 | From every state all handlers can finish by their own steps |
| `Server.HandlersKeepTheirCourse` | internal/coordinator/server.go:386-404 | A handler keeps its device and its course: tracked only if nobody drains, turned away only if somebody does, each deferred call in its turn |
| `Server.RoutesAndPresenceAgree` | internal/coordinator/server.go:545-596 | For every interleaving of overlapping handlers the live routes are exactly those of the handlers between route and unroute and never exceed refcounted connections, online implies a connection, and a device without connections is offline and has no route |
| `Server.TrackerRunsOnReports` | internal/coordinator/server.go:545-596 | Under every interleaving of handlers the tracker's state is the presence model's run over what the handlers reported |
| `Server.OfflineVerdictFindsNoRoute` | internal/coordinator/server.go:545-596 | The loss that takes a device offline finds no route of it left |
| `Server.RoutesAfter` | internal/coordinator/routing.go:87-127 | Adding or removing a route changes one device's targets and leaves no empty entry |
| `Server.Registry.BeginShutdown` | internal/coordinator/server.go:280-300 | The snapshot is the whole registry, every entry of it still owing its Done |
| `FakeClock.PendingMeansExactlyOneWaiter` | internal/clock/fake.go:58-144 | In every reachable state a timer is pending if and only if one waiter, and only one, is its own, and every waiter's deadline is strictly in the future |
| `FakeClock.StoppedArmingNeverFires` | internal/clock/fake.go:84-97 | The arming that a true Stop took off the list fires in no continuation |
| `FakeClock.FiresExactlyAtItsDeadline` | internal/clock/fake.go:58-250 | In every run an arming by NewTimer, Reset, After or Until that nobody stops or resets fires if and only if the clock reaches its deadline, its delay after the moment it began |
| `FakeClock.AdvanceSplitsTheList` | internal/clock/fake.go:220-250 | Due and kept waiters partition the list by deadline, with no loss or duplicate |
| `FakeClock.KeptIsExact` | internal/clock/fake.go:227-239 | What is kept is exactly what is not due, still in arming order |
| `FakeClock.RunKeepsInv` | internal/clock/fake.go:58-250 | Waiters, timer states and fates of armings stay consistent in every run |
| `FakeClock.Fake.RemoveWaiter` | internal/clock/fake.go:137-144 | The scan takes out the timer's first waiter, or nothing |
| `FakeClock.Fake.Stop` | internal/clock/fake.go:84-97 | True exactly for a pending timer, which it frees |
| `FakeClock.Fake.Reset` | internal/clock/fake.go:102-133 | Frees the old arming and makes the new one in one step |
| `FakeClock.Fake.Compact` | internal/clock/fake.go:225-246 | In-place compaction keeps the survivors in order and claims exactly the due |
| `FakeClock.Fake.Advance` | internal/clock/fake.go:220-250 | Refines the advance step and delivers the due waiters in order |
| `StoredTime.TextOrderIsTimeOrder` | internal/coordinator/queue/queue.go:738-748 | For years 0 to 9999 stored texts compare exactly as their instants do |
| `StoredTime.SortsExactlyThroughYear9999` | internal/history/history.go:346-354 | For lo at most 0 and hi above it, the layout sorts chronologically on the instants from lo to below hi if and only if lo is not before year -1 and hi not beyond the start of year 10000 |
| `StoredTime.FiveDigitYears` | internal/history/history.go:346-354 | A text of a five-digit year sorts before one of a four-digit year exactly when its first four digits are the smaller year |
| `StoredTime.LateBound` | internal/history/history.go:249-252 | A query bound in a five-digit year admits exactly the years up to its first four digits |
| `StoredTime.ZeroTimeReadsBack` | internal/messagehub/hub.go:339-344 | The stamp of an absent time is a stored time like any other |
| `StoredTime.ParseInvertsFormat` | internal/history/history.go:352-362 | A stored time reads back to the nanosecond for years 0 to 9999 and is refused for every other |
| `StoredTime.CutoffOrder` | internal/history/history.go:306-308 | Comparing with a cutoff text is comparing with the cutoff instant, even one before year 0 |
| `StoredTime.OrderedByFields` | internal/history/history.go:346-354 | Instants are ordered as their civil fields are, year first |
| `History.TableIsTheLatestInsertions` | internal/history/history.go:184-206 | With a clock that does not run backwards the table is, after every append and reopen, the longest run of latest insertions that is unexpired and within MaxMessages, in arrival order, each ID once |
| `History.TextRetentionIsTimeRetention` | internal/history/history.go:306-344 | Deleting by comparing texts and trimming deletes what comparing instants would |
| `History.StepRefines` | internal/history/history.go:184-206 | Stepping the table of texts is storing the stepped table of instants |
| `History.RunRefines` | internal/history/history.go:184-206 | So does every run |
| `History.StoredTableIsTheLatestInsertions` | internal/history/history.go:184-206 | The same for the layout the store writes |
| `History.AppendedIsKept` | internal/history/history.go:184-206 | An append under a new ID puts that message last in the table: neither bound refuses a write |
| `History.StoredLayoutIsFaithful` | internal/history/history.go:346-362 | The stored layout has the order and round-trip laws the store relies on |
| `History.QueryReturnsWhatItPicks` | internal/history/history.go:238-286 | On all inputs a query returns exactly the rows its WHERE clause picks, whole and in arrival order, and fails exactly when one of them has an unreadable time |
| `History.MisdatedMessageFailsTheQuery` | internal/history/history.go:270-277 | Under any faithful layout, as the stored one is, one message dated outside years 0 to 9999 fails every query that picks it |
| `History.QueryIsExact` | internal/history/history.go:238-286 | With bounds before year 10000 and receive times in years 0 to 9999, these are exactly the messages of the conversation and receive-time range |
| `History.ExpiryKeepsARunExactlyInOrder` | internal/history/history.go:306-312 | For distinct rows, expiry leaves a run of the latest insertions under every cutoff if and only if stored times never decrease |
| `HistoryRaces.UndershootsExactlyWhenOthersDeletedMore` | internal/history/history.go:319-335 | In every interleaving of the statements of any number of appends, a size delete leaves fewer rows than the cap if and only if other statements deleted more rows than they added between its count and it, and exactly the cap if and only if as many |
| `HistoryRaces.SerialAppendsKeepTheCap` | internal/history/history.go:184-206 | In every run of appends that do not overlap, each size delete leaves exactly the cap |
| `HistoryRaces.UninterruptedIsTheSerialStep` | internal/history/history.go:184-206 | An append or opening that nothing interrupts is the store's serial step, from any state the others left |
| `HistoryRaces.OverlappingAppendsUndershoot` | internal/history/history.go:306-344 | From any full table two overlapping appends end two rows short of the cap (or empty), with nothing expired |
| `HistoryRaces.TwoAppendsCanLeaveNothing` | internal/history/history.go:306-344 | From an empty table with room for one, two overlapping appends of fresh messages leave no row |
| `HistoryRaces.TableIsWithinTheInsertions` | internal/history/history.go:184-206 | In every interleaving the table is the insertions with some left out, in insertion order, each ID once |
| `HistoryRaces.AscendingInsertsKeepASuffix` | internal/history/history.go:306-344 | In every interleaving that stores rows in insertion order, the table is a run of the latest insertions |
| `HistoryRaces.ExpiryKeepsTheRunExactlyInOrder` | internal/history/history.go:306-312 | In every interleaving, a table that is a run of the latest insertions stays one under every expiry if and only if its stored times ascend |
| `HistoryRaces.SerialAppendsKeepARun` | internal/history/history.go:184-206 | Appends that do not overlap store in order and keep the table a run of the latest insertions |
| `HistoryRaces.OvertakenAppendLeavesAHole` | internal/history/history.go:193-199 | A reachable run, with a clock that never goes back, in which the append that read the clock first inserts last and expires first |
| `HistoryRaces.StatementsOnText` | internal/history/history.go:193-335 | Each statement does to the stored texts what the model does to the entries |
| `History.Store.EnforceRetention` | internal/history/history.go:306-344 | Both deletes in order amount to the retention function |
| `History.Store.Append` | internal/history/history.go:184-206 | Refuses an empty local name or ID; otherwise refines the append step, and afterwards no row has expired and the cap holds |
| `History.Store.Query` | internal/history/history.go:238-286 | The row loop computes the query's answer, failing on the first unreadable wanted row |
| `History.Open` | internal/history/history.go:120-161 | Refuses exactly the non-positive bounds |
| `CtlSocket.StreamIsAccountedFor` | internal/ctlsocket/server.go:477-530 | For any interleaving the published stream is, take by take, the batch followed by its dropped run, then the queue and the unreported drops; a batch with drops was a full queue, and the queue never exceeds its cap |
| `CtlSocket.PeerCanCount` | internal/ctlsocket/server.go:470-476 | Events received plus gaps reported plus what is queued or dropped make up everything published |
| `CtlSocket.PeerSeesAPrefix` | internal/ctlsocket/server.go:558-592 | The peer was sent a prefix of the rendered takes, all of them while the pump is parked |
| `CtlSocket.NothingIsStranded` | internal/ctlsocket/server.go:499-514 | Undelivered events or drops leave a wake token, a publisher about to set one, or a pump about to take |
| `CtlSocket.PumpDeliversEverything` | internal/ctlsocket/server.go:558-592 | From every reachable state the pump's own steps end within a bounded number; where they end with the subscription open, nothing is queued or unreported and the peer was sent everything, and where it is closed the pump has exited |
| `CtlSocket.EndsAreFinal` | internal/ctlsocket/server.go:534-592 | A close stays, and after a failed write nothing more reaches the peer |
| `CtlSocket.ReportComesEarly` | internal/ctlsocket/server.go:516-530 | A reachable take whose gap report precedes an event older than the dropped one |
| `CtlSocket.Subscriber.Enqueue` | internal/ctlsocket/server.go:499-514 | Refines filing and nudging on both paths |
| `CtlSocket.Subscriber.TakeBatch` | internal/ctlsocket/server.go:519-530 | Refines the take and returns the batch the pump is to write |
| `Outbox.NothingIsRemovedUnsent` | cmd/walkie/app.go:271-298 | In every run of drains, sends and deletes of unknown outcome and crashes, the table is what was composed and not removed, and everything removed was sent |
| `Outbox.DrainsKeepCompositionOrder` | cmd/walkie/app.go:271-298 | First occurrences of drained frames are in composition order without a hole, a repeat follows its original directly, and only the table's head can be sent again |
| `Outbox.UndisturbedDrainEmpties` | cmd/walkie/app.go:271-298 | From every reachable state, crashes in mid-drain included, a drain that meets no failure sends each held message once, oldest first, and empties the outbox: everything ever composed has been sent |
| `Outbox.HeldExactlyWhenNew` | internal/outbox/outbox.go:95-113 | In every run a message is taken in exactly when it has an ID that no message composed and not removed has |
| `Outbox.OneDrainAtATime` | cmd/walkie/app.go:271-298 | A drain under way is not begun again and ends only at the end of its snapshot, at a failure or with the process |
| `Outbox.RunKeepsInv` | internal/outbox/outbox.go:95-159 | Table, running snapshot and sent frames stay consistent in every run |
| `Outbox.Client.Hold` | internal/outbox/outbox.go:95-113 | Appends, or refuses a missing or already held ID and changes nothing |
| `Outbox.Client.SendAndRemove` | cmd/walkie/app.go:282-297 | One round either extends the drained prefix by one or ends the drain with the head still held or just deleted |
| `Outbox.Client.DrainOutbox` | cmd/walkie/app.go:271-298 | A drain sends and removes from the oldest on up to the first failure and leaves everything from there queued; a second drain does nothing |

## Left out

- Transport and I/O (WebSocket, HTTP, tsnet, Unix sockets, files, metrics, logging, rendering): foreign calls or display only.
- SQL errors: each statement or transaction is atomic and succeeds. A failed sweep only nudges and does not re-arm (internal/coordinator/queue/queue.go:527-531), so `ExpiryWatcher` assumes sweeps succeed.
- Live traffic during the handshake: frames routed before HelloAck are skipped by the client unless they are presence updates (internal/control/client.go:511-518), so delivery claims are about queued rows.
- A connection delivers a prefix of the frames written to it, in order: assumed by `AckProtocol`.
- "Durably stored before acknowledged": the ack precedes the history append (cmd/walkie/app.go:151-162), so "processed" means handed to `Hub.Apply`.
- `Backoff.Supervise`: how a cycle ends is an input of this method; `Supervisor` derives it from the events of the loop and the session, and leaves out that Client.Stop closes sessions under the loop.
- `Watchdog.ExactlyOneVerdict`: nobody else moves the machine while a verdict is in flight, except by closing it; `Supervisor` says when that assumption holds.
- `Server.RoutesAndPresenceAgree`: heartbeats arrive on live connections only, and the tracker outlives the handlers.
- `Server.DrainRegistryIsExact`: a handler's deferred release always runs; panics between ConnectionEstablished and its defer are not modelled.
- `Connection.Machine.Transition`: the fan-out of one call is a loop here; its interleaving with pumps and closes is in `Connection.Run`, where an illegal edge, which panics in the program, changes nothing.
- `Watchdog.Dog.ClaimFailure`: the methods of the watchdog object are its critical sections; what a claimant does after leaving one (the transitions, the closing Stop) is in `Watchdog.Run`.
- `History.TableIsTheLatestInsertions`: about appends one after the other; `HistoryRaces` interleaves their statements.
- `StoredTime.ParseInvertsFormat`: reads the texts that formatting writes; the offset forms and shortened fields that time.Parse also accepts are not modelled.
- `Hub.Device.Apply`: the order of concurrent filings between the duplicate filter and the conversation is not modelled.
- Client roster convergence, presence notification drops, and order between live sends and drains: the code promises none.
- RestoreAckPosition is modelled as a step of `AckProtocol`; only tests call it.
- The compare-and-swap loops on the acked position are single atomic steps.
- The fake clock's channel sends and the overflow of time.Time arithmetic.
- Sweep and watcher are separate models: one follows rows and keys, the other deadlines and wake-ups.
- Cryptographic strength, randomness and jitter uniformity, audio, voice notes, generated protobuf code, and the coordinator's command line.
