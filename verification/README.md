# OxideQ queue engine: a verified model

OxideQ is a message queue server. Its engine keeps named queues and a map of in-flight
tasks, logs every accepted change to a write-ahead log before or while making it, rebuilds
its memory from that log after a restart, dead-letters a message after five deliveries,
and in cluster mode is the state machine of a replicated log with snapshots. This project
models the engine, its log and recovery, and the storage behind the replicated log, and
proves what they promise over whole runs.

## How the model is laid out

- `QueueState.dfy`: queues and in-flight tasks as plain maps, the elementary changes
  (`Effect`) everything else is made of, and the well-formedness invariant. Payloads are
  opaque to the engine, so everything is generic in the payload type.
- `StorageCalls.dfy`: `Execute`, the specification of the nine calls: new state, what is
  logged, and the answer. Task ids drawn, clock readings and the fate of the log append
  are inputs.
- `CallMeanings.dfy`: what each call does and answers, field by field and without the
  specification functions, and the proof that `Execute` does exactly this.
- `MemoryStorage.dfy`: the class `InMemoryStorage`, whose methods change its maps in place
  in the order the code does and are proved against `Execute`; replay, snapshots, cleanup,
  statistics; recovery from the text of the log file.
- `WalFile.dfy`: the log file as text, one entry a line; appending and reading back.
- `Replay.dfy`, `ReplayMeanings.dfy`, `Recovery.dfy`: replay as a second implementation of
  the state machine, what replaying an entry does, runs with failing appends and restarts,
  and the theorem that the two agree.
- `StorageRuns.dfy`: the storage object and its log file driven through a whole run.
- `WellFormedness.dfy`, `Fifo.dfy`, `ArrivalOrder.dfy`, `OldestFirst.dfy`,
  `DeliveryBound.dfy`, `Conservation.dfy`, `Placement.dfy`, `Visibility.dfy`, `Sweep.dfy`,
  `Batches.dfy`, `Acknowledged.dfy`, `DeliveryCounts.dfy`, `Statistics.dfy`: one property of
  runs each. `Payloads.dfy` says that the engine never looks
  into a payload, which lets histories be repeated with payloads that carry an origin, an
  arrival number or a serial number; `Totals.dfy` holds sums over maps.
- `Interleaving.dfy`, `InterleavedConservation.dfy`, `SplitCalls.dfy`: calls split where
  they wait for the log, interleaved in any way; not interleaved, they are the calls above.
- `BigEndian.dfy`, `ByteTree.dfy`, `RaftTypes.dfy`, `RaftLog.dfy`, `CombinedStorage.dfy`,
  `LogRuns.dfy`: the replicated log in a byte-ordered tree, and whole histories of it.
- `ReplicatedCalls.dfy`: what applying an entry does and answers, whatever the entry.
- `Snapshots.dfy`, `SnapshotRace.dfy`: snapshots of a replica, installed on any node, and
  snapshots built while entries are being applied.
- `Counterexamples.dfy`: concrete inputs for what turned out not to hold.

A run (`Recovery.Run`) is any sequence of calls, each with an append that succeeds or fails,
and restarts. `FreshIds` says that no task id is drawn twice in it; `NoAckFails` says that
no ack has a failing append. A cleanup is a run of nacks (`Sweep.CleanupIsRun`), so every
theorem about runs covers cleanups, complete or with failing appends. States are compared
up to the consumption times of in-flight tasks, because replay stamps them anew.

## What turned out not to hold

Each item has a lemma at a concrete input and a theorem that says exactly when the
property holds.

- A dequeue returns the oldest task (docs/API.md:160). A nack puts its message in front of
  the queue, so two tasks nacked in the order of their delivery end up in the opposite
  order: `Counterexamples.SecondNackOvertakes`. Only another retry can be overtaken: the
  messages not delivered yet are always behind the retries and younger than all of them
  (`OldestFirst.RetriesWereDelivered`). `OldestFirst.OldestFirstIff`: in every run the front
  is the oldest message at every point if and only if no nack puts a retry in front of an
  older message.
- A heartbeat extends the visibility by a configured duration (docs/CONFIGURATION.md:20).
  The code ignores the duration and resets the consumption time to now. With the default
  settings a task is expired 31 seconds after a heartbeat meant to last 60:
  `Counterexamples.HeartbeatTooShort`. `Visibility.ProtectsForIff`: a heartbeat protects its
  task for the duration if and only if the duration is at most the timeout.
- Recovery after a failed ack append. The code removes the task before it logs the ack and
  does not put it back, so a restart brings the task back:
  `Counterexamples.LostAckComesBack`. `Recovery.LostAckSimulation` says exactly which tasks
  come back, and that recovery is exact if and only if there are none of them.
- Conservation when calls interleave. `create_queue` checks, waits for the log, then
  replaces whatever is there. `InterleavedConservation.OverlapLosesMessage` is a run that
  loses a message; `InterleavedConservation.ConservedIffNothingReplaced` says that messages
  are conserved exactly in the runs where no creation replaces a queue with messages in it,
  and `InterleavedConservation.ConservedWithoutOverlap` that not overlapping two creations
  of one name is enough.
- Reading a damaged log. Any line that is neither blank nor an entry makes the whole log
  unreadable (`WalFile.ReadableIffAllLinesDecode`), and the storage then starts empty
  (`MemoryStorage.UnreadableLineLosesAll`); `Counterexamples.BadLineLosesGoodOne` is such a
  file.
- Range reads of the replicated log with the greatest 64-bit index as an excluded start
  bound: adding 1 to it wraps around to the first index (a build that checks for overflow
  panics instead). `Counterexamples.WrapReadsFromStart` reads an entry that lies before the
  range; `RaftLog.WrapHarmlessIff` says exactly when what is read changes.
- A snapshot stands for the entries up to its last applied id. The code reads the state
  first and the id later, and applying an entry changes the state first and records the id
  later. So a snapshot can claim a message it does not hold
  (`Counterexamples.TornSnapshotLosesMessage`), and hold one it does not claim, which the
  receiving node then has twice (`Counterexamples.TornSnapshotDoublesMessage`).
  `Snapshots.TornSnapshotServesIff`: whatever state was read, the snapshot does for every
  suffix if and only if it is the state after the entries the id names. In a race of applying
  and building the state is that of i entries and the id that of j, with i <= j + 1, and
  every such pair arises (`SnapshotRace.RaceServesIff`, `SnapshotRace.PairArises`).

## Model

| member | source | states |
|---|---|---|
| MemoryStorage.InMemoryStorage.CreateQueue | src/storage/memory.rs:158-175 | Creating a queue fails if it exists; otherwise it is logged first and then added empty; a failed append adds nothing |
| MemoryStorage.InMemoryStorage.Queue | src/storage/memory.rs:177-205 | An enqueue needs its queue, is logged first, and puts the item with no attempts at the back |
| MemoryStorage.InMemoryStorage.Dequeue | src/storage/memory.rs:207-249 | The front item goes into flight under the drawn id with one more attempt; a failed append puts it back in front and the whole state is as before |
| MemoryStorage.InMemoryStorage.Ack | src/storage/memory.rs:251-276 | The task is gone whether or not the append succeeds, but the answer is Ok only if it does |
| MemoryStorage.InMemoryStorage.Nack | src/storage/memory.rs:278-321 | After a logged nack the message is at the front of its queue, or at the back of the dead-letter queue (created if need be) once it has 5 attempts; a failed append restores the task |
| MemoryStorage.InMemoryStorage.ExtendVisibility | src/storage/memory.rs:323-345 | A heartbeat is logged and resets the consumption time to now; it changes nothing else |
| MemoryStorage.InMemoryStorage.QueueBatch | src/storage/memory.rs:386-416 | The loop appends all items in order, under one log entry |
| MemoryStorage.InMemoryStorage.DequeueBatch | src/storage/memory.rs:418-487 | The loops move the first min(count, length) items into flight under the drawn ids, or on a failed append leave queue and in-flight map exactly as before |
| MemoryStorage.InMemoryStorage.PushBackFront | src/storage/memory.rs:464-467 | Pushing a popped batch to the front in reverse rebuilds the queue, for any batch |
| MemoryStorage.InMemoryStorage.AckBatch | src/storage/memory.rs:489-518 | Either some id is missing, the missing ones are reported and nothing changes, or all tasks are removed under one entry |
| MemoryStorage.InMemoryStorage.ScanExpiredTasks | src/storage/memory.rs:36-47 | The scan lists the expired tasks in the order of iteration |
| MemoryStorage.InMemoryStorage.CleanupExpiredTasks | src/storage/memory.rs:347-359 | A cleanup nacks the scanned tasks one by one and counts the nacks answered Ok, whatever their appends do |
| MemoryStorage.InMemoryStorage.GetStats | src/storage/memory.rs:361-384 | The statistics name every queue, and give the length of each, the tasks delivered from it, and the total in flight |
| MemoryStorage.InMemoryStorage.RestoreFromSnapshot | src/storage/memory.rs:49-63 | Clearing and re-inserting leaves exactly the maps of the snapshot |
| MemoryStorage.InMemoryStorage.NewPersistent | src/storage/memory.rs:82-154 | Opening a storage on a file replays the entries read from it, none if the file cannot be decoded, and goes on appending to that file |
| MemoryStorage.InMemoryStorage.ReplayOne | src/storage/memory.rs:87-145 | One turn of the replay loop does what the replay specification says for its entry |
| WalFile.WalManager.Append | src/storage/wal/manager.rs:24-33 | A successful append adds one line to the file, a failed one nothing |
| WalFile.WalManager.Replay | src/storage/wal/manager.rs:35-55 | The reading loop decodes the lines in order, skips blank ones, stops with an error at the first undecodable one and stops early where reading fails |
| WalFile.ReadBackRendered | src/storage/wal/manager.rs:24-55 | Reading back what was appended gives the appended entries, or their first n if only n lines can be read |
| WalFile.BlankLinesSkipped | src/storage/wal/manager.rs:44-51 | Blank lines anywhere among the entries, and either kind of line break, change nothing: all entries on the lines that can be read are read, in order |
| WalFile.LinesOfText | src/storage/wal/manager.rs:39-45 | The lines of any text are those ended by either kind of line break, and what is left |
| WalFile.FirstErrorReported | src/storage/wal/manager.rs:48-51 | The error given is that of the first line that is neither blank nor an entry |
| WalFile.ReadableIffAllLinesDecode | src/storage/wal/manager.rs:44-51 | A file can be read back if and only if every line that is read is blank or decodes |
| CallMeanings.DoesExactly | src/storage/memory.rs:158-518 | For each of the nine calls in every state: which error it gives and what it names, or which fields change, how, and what is answered; this, and nothing else |
| CallMeanings.FailedAppendDoes | src/storage/memory.rs:158-518 | With a failing append a call that gets as far as the log answers the log's error and changes nothing, but for an ack, which has let its task go; any other call is refused or answered as it would be |
| CallMeanings.LogsExactly | src/storage/memory.rs:158-518 | The entry logged tells the call: its kind, names, messages and duration, and the ids it handed out |
| StorageCalls.FailedAppendChangesNothing | src/storage/memory.rs:158-518 | What the specification says of a failed append: nothing is logged, and the state is as it was if and only if the call is not an ack of a task in flight. That the code undoes its first half is proved in the methods Dequeue, DequeueBatch, PushBackFront and Nack |
| StorageCalls.FailsExactlyWhen | src/storage/memory.rs:158-518 | A call fails if and only if what it names is missing or its append fails, and it leaves a log entry if and only if it succeeds and is not a dequeue with nothing to deliver; empty batches are logged |
| ReplayMeanings.EntryRepeated | src/storage/memory.rs:87-145 | Whoever wrote the log and whatever state it is replayed on, replaying an entry does what the call that the entry tells of does, under the logged ids and the clock of the replay |
| Recovery.CommitSimulates | src/storage/memory.rs:82-154 | Whatever the memory commits, replay accepts and repeats, on any recovered state that simulates the memory |
| Recovery.StepRecoverable | src/storage/memory.rs:82-321 | Every step of a run, with failing appends and restarts, keeps the simulation between memory and recovered state |
| Recovery.RecoveryExact | src/storage/memory.rs:82-154 | In every run in which no ack append fails, replaying the log gives the memory back: queues, order, attempts, dead-letter queues, in-flight tasks |
| Recovery.LostAckSimulation | src/storage/memory.rs:251-276 | With failing ack appends the queues still agree and the recovered in-flight tasks are those in memory plus exactly the tasks whose ack was lost since the last restart |
| Recovery.ReplayHidesNoFailure | src/storage/memory.rs:87-145 | On a log this code wrote, every result discarded by replay is Ok and every logged delivery finds an item for each of its ids |
| Recovery.PrefixRecovery | src/storage/memory.rs:82-145 | Replaying the first k entries gives the state the run had just after the event that wrote entry k |
| MemoryStorage.FileFollowsRun | src/storage/memory.rs:163-171 | The log file of a run grows by exactly what each call writes |
| MemoryStorage.RecoveryFromFile | src/storage/wal/manager.rs:35-55 | The same from the text of the log file: encoding, line framing, decoding and replay together |
| MemoryStorage.RecoveryFromPartOfFile | src/storage/wal/manager.rs:44-51 | A reader that stops after any number of lines recovers a state the run went through |
| MemoryStorage.UnreadableLineLosesAll | src/storage/memory.rs:84-85 | With one undecodable line in the file the storage starts empty |
| Counterexamples.BadLineLosesGoodOne | src/storage/wal/manager.rs:44-51 | A concrete file whose good line is lost to a bad one |
| Counterexamples.LostAckComesBack | src/storage/memory.rs:251-276 | A concrete run whose acknowledged task is back in flight after a restart |
| StorageRuns.Drive | src/storage/memory.rs:82-518 | A storage object that performs the calls of any run, reopened on its own file at every restart, ends with the memory of the run and a file that holds its log |
| WellFormedness.RunWellFormed | src/storage/memory.rs:308-315 | In every run each task in flight is keyed by its own id, names an existing queue and has at least one attempt |
| WellFormedness.AnyReplayWellFormed | src/storage/memory.rs:87-145 | So it does after replaying any log, whoever wrote it |
| WellFormedness.QueueLostIff | src/storage/memory.rs:308-315 | A call is answered "Original queue not found" if and only if it is a nack of a retry whose queue does not exist |
| WellFormedness.OriginalQueueIsFound | src/storage/memory.rs:313-315 | In every well-formed state that branch of a nack is unreachable |
| MemoryStorage.StatsAddUp | src/storage/memory.rs:361-384 | In every well-formed state the in-flight counts of the queues sum to the total |
| Statistics.StatsCountMessages | src/storage/memory.rs:361-384 | In every run the pending counts and the total in flight add up to the messages accepted, minus those acknowledged, minus those under lost acks |
| MemoryStorage.NothingDanglesInRuns | src/storage/memory.rs:82-384 | Both hold in every state of every run, and after replaying any log |
| Fifo.FifoUnderRetries | src/storage/memory.rs:196-213 | In every run a queue is retries followed by exactly the arrivals not yet delivered, and first deliveries follow the order of arrival; arrivals and deliveries are those the calls' answers tell |
| Fifo.AnswersTellHistory | src/storage/memory.rs:177-321 | What the answers of a run say arrived and was delivered is what its log says |
| OldestFirst.RetriesWereDelivered | src/storage/memory.rs:278-312 | In every run each retry in a queue is one of its first deliveries, so it arrived before everything not delivered yet, and no arrival is in a queue or in flight twice |
| OldestFirst.OldestFirstIff | docs/API.md:160 | In every run the front of a queue is its oldest message at every point if and only if no nack puts a retry in front of an older message; then the queue is in the order of arrival. The numbered queues and tasks are those of the memory if no task id is drawn twice or no ack fails to append |
| Counterexamples.SecondNackOvertakes | src/storage/memory.rs:308-312 | A concrete run after which a queue is in the opposite of arrival order |
| Fifo.StepInOrder | src/storage/memory.rs:299-312 | Every elementary change keeps that shape: retries enter at the front, arrivals and dead letters at the back |
| DeliveryBound.DeliveriesBounded | src/storage/memory.rs:207-321 | Over any run the deliveries from a queue number at most 5 times the messages enqueued to it plus the messages dead-lettered into it |
| DeliveryBound.PotentialPaysForDeliveries | src/storage/memory.rs:278-321 | The potential of a queue in the recovered state never exceeds what enqueues and dead letters added and deliveries used up |
| Conservation.MessagesConserved | src/storage/memory.rs:177-321 | Over any run every copy of every message accepted is pending or in flight in the recovered state, or acknowledged |
| Conservation.MemoryConserves | src/storage/memory.rs:251-276 | In the memory only the messages under lost acks are missing from that account |
| Acknowledged.NoMessageTwice | src/storage/memory.rs:158-518 | In every run each message held is one that arrived, and none is in two places, whatever queues it was dead-lettered through |
| Acknowledged.AcknowledgedIsGone | src/storage/mod.rs:67 | In every run, restarts included, a message whose ack or batch ack was answered Ok is never in any queue or in flight again |
| Acknowledged.AcknowledgedIdIsGone | src/storage/mod.rs:67 | Nor is its task id, when no id is drawn twice |
| DeliveryCounts.AttemptsAreDeliveries | src/storage/memory.rs:232-312 | In every run, restarts included, the attempts of a message are the number of its deliveries, through all the queues it was in |
| DeliveryCounts.NackByDeliveries | docs/CONFIGURATION.md:114-116 | In every run a nack puts its message at the back of the queue named with the suffix `_dlq` if it was delivered five times or more, and else at the front of its queue; no other queue changes |
| Placement.DeadLettersPlaced | src/storage/memory.rs:299-315 | In every run a pending message with n attempts is max(0, n-4) dead-letter queues away from where it was enqueued, and one in flight with n attempts came from max(0, n-5) away |
| Payloads.MapApply | src/storage/memory.rs:158-345 | Every elementary change commutes with replacing payloads: the engine never looks into one |
| Sweep.ScanInOrder | src/storage/memory.rs:36-47 | The scan gives the tasks older than the timeout, these only, in the order of iteration |
| Sweep.CleanupIsExact | src/storage/memory.rs:347-359 | A cleanup takes back exactly the expired tasks whose nack is logged, all of them if no append fails; it counts these, and adds to each queue exactly the messages bound for it |
| Sweep.CleanupOrderIndependent | src/storage/memory.rs:347-359 | Two cleanups that iterate in different orders give the same in-flight map, count, queues and multiset of items per queue |
| Sweep.CleanupIsRun | src/storage/memory.rs:351-356 | A cleanup, with any append outcomes, is a run of single nacks |
| Visibility.HeartbeatProtects | src/storage/memory.rs:36-47 | A task heartbeated at t is not expired up to t plus the timeout, whatever else happens, restarts included |
| Visibility.CleanupSparesHeartbeat | src/storage/memory.rs:323-359 | So a cleanup in that time leaves the task untouched, whatever its appends do |
| Visibility.HeartbeatIgnoresDuration | src/storage/memory.rs:323-345 | After a heartbeat the task is expired if and only if the timeout has passed since, whatever duration was asked for |
| Visibility.ProtectsForIff | docs/CONFIGURATION.md:19-20 | A heartbeat protects its task for the configured duration if and only if the duration is at most the timeout |
| Counterexamples.HeartbeatTooShort | src/main.rs:33-41 | With the default settings a task is expired 31 seconds after a heartbeat meant to last 60 |
| Visibility.RecoveryExpiresNothing | src/storage/memory.rs:99-106 | What is expired after a restart was expired before it, lost acks aside |
| Batches.QueueBatchIsSingles | src/storage/memory.rs:386-416 | A batch enqueue leaves the state of the single enqueues |
| Batches.DequeueBatchIsSingles | src/storage/memory.rs:418-487 | A batch dequeue leaves the state, and hands out the tasks, of that many single dequeues with the same ids |
| Batches.HandedTasksAreInFlight | src/storage/memory.rs:434-486 | What a batch dequeue hands out is what it put in flight: the front messages in order, under the ids drawn, with one more attempt |
| Batches.AckBatchIsAtomic | src/storage/memory.rs:489-518 | A batch ack is Ok if and only if all its tasks are in flight and the append succeeds; then it equals the single acks; otherwise nothing changes, and if tasks are missing the answer names these and no others, in the order of the batch |
| Batches.EnqueuedBatchReplaysAsSingles | src/storage/memory.rs:125-127 | The one entry of a batch enqueue replays like single entries |
| Batches.DequeuedBatchReplaysAsSingles | src/storage/memory.rs:128-143 | The one entry of a batch dequeue replays like single entries, on any log |
| Interleaving.SettledAtMostOnce | src/storage/memory.rs:251-321 | However acks, nacks and cleanups interleave, at most one per task id answers Ok, and a delivered task is in flight, in the hand of one unfinished call, or closed |
| Interleaving.StepKeeps | src/storage/memory.rs:251-321 | Every half of every call keeps that invariant |
| SplitCalls.SplitCallIsExecute | src/storage/memory.rs:158-518 | A call whose two halves are not interrupted leaves the state, and gives the Ok answers and deliveries, of the atomic call, and waits if and only if it logs |
| SplitCalls.HeartbeatIsExecute | src/storage/memory.rs:323-345 | A heartbeat, the one call that is not split, is its atomic call |
| InterleavedConservation.InterleavedBalance | src/storage/memory.rs:158-321 | In every interleaving every copy pushed is pending, in flight, in a hand, acknowledged, or was wiped out by a creation |
| InterleavedConservation.ConservedIffNothingReplaced | src/storage/memory.rs:158-175 | Messages are conserved if and only if no creation replaces a queue with messages in it |
| InterleavedConservation.ConservedWithoutOverlap | src/storage/memory.rs:158-175 | No message is lost when no creation overlaps another of the same name, dead-letter creation included |
| InterleavedConservation.OverlapLosesMessage | src/storage/memory.rs:158-175 | A concrete run of two overlapping creations that loses a message |
| BigEndian.KeysOrdered | src/replication/combined_storage.rs:124 | Big-endian keys of 64-bit indices are equal only for equal indices and compare, byte by byte, as the indices do |
| BigEndian.LessIsNumeric | src/replication/combined_storage.rs:51-53 | Byte order of equally long keys is numeric order |
| ByteTree.InOrder | src/replication/combined_storage.rs:51 | The ordered scan of the tree gives every key once, ascending |
| CombinedStorage.CombinedStorage.AppendToLog | src/replication/combined_storage.rs:118-130 | The log becomes the old one with each entry at its index, later ones replacing earlier ones |
| CombinedStorage.CombinedStorage.DeleteConflictLogsSince | src/replication/combined_storage.rs:132-147 | Exactly the entries from the index on are removed |
| CombinedStorage.CombinedStorage.PurgeLogsUpto | src/replication/combined_storage.rs:149-157 | Exactly the entries up to the index are removed |
| CombinedStorage.CombinedStorage.TryGetLogEntries | src/replication/combined_storage.rs:37-67 | For any bounds the loop reads the whole range, in index order, from the first index it computes up to the end, though it stops at the first index beyond it |
| CombinedStorage.CombinedStorage.GetLogState | src/replication/combined_storage.rs:74-92 | The last log id is that of the entry with the greatest index, none for an empty log; no purged id is reported |
| RaftLog.WrapHarmlessIff | src/replication/combined_storage.rs:42-46 | The wrapped start index gives the range asked for if and only if the start is not the excluded greatest index or no entry lies before the end |
| RaftLog.ReadRangeExact | src/replication/combined_storage.rs:37-67 | A range read contains exactly the entries whose index is in range, strictly ascending |
| RaftLog.StoppedScan | src/replication/combined_storage.rs:55-59 | Stopping the scan at the first index out of range misses nothing |
| Counterexamples.WrapReadsFromStart | src/replication/combined_storage.rs:42-46 | A concrete read from beyond the greatest index that returns the entry at index 0 |
| RaftLog.LastTouchDecides | src/replication/combined_storage.rs:118-157 | After any history of appends, truncations and purges, the log holds an entry if and only if the last operation that touched its index wrote it |
| LogRuns.Drive | src/replication/combined_storage.rs:37-157 | A node that performs any history of appends, truncations and purges reads, for any bounds, exactly the entries within them that were the last to touch their index, ascending, and reports the greatest |
| RaftLog.HistoryIsSequence | src/replication/combined_storage.rs:118-157 | A history that fits (`FitsAll`: appends continue the log, truncations start inside it, purges do not step back) leaves the log the indexed sequence it leaves |
| RaftLog.ReadIsSlice | src/replication/combined_storage.rs:37-67 | On such a log a range read is a slice of the sequence |
| CombinedStorage.CombinedStorage.ApplyToStateMachine | src/replication/combined_storage.rs:189-271 | The loop takes the entries one after the other, carries out each command as its name says, leaves the engine alone at the others, records each id as last applied, and gives each entry its answer in its place |
| ReplicatedCalls.EntriesServed | src/replication/combined_storage.rs:189-271 | So do the entries as a specification applies them, whatever their number and kind and whatever the node |
| ReplicatedCalls.ReplicaFollowsServer | src/replication/combined_storage.rs:189-271 | A replica that applies the commands of any calls has the state of the single server that executes the calls, and gives its answers |
| CombinedStorage.CombinedStorage.BuildSnapshot | src/replication/combined_storage.rs:317-342 | A snapshot holds the engine's state and the last applied id, and is named by its index, 0 if there is none |
| CombinedStorage.CombinedStorage.InstallSnapshot | src/replication/combined_storage.rs:283-303 | A readable snapshot replaces state and last applied id, an unreadable one changes nothing |
| Snapshots.UnreadableSnapshotIgnored | src/replication/combined_storage.rs:283-303 | A node offered a snapshot it cannot read, anywhere between its entries, ends up with the state, last applied id and answers of one that was offered none |
| Snapshots.SnapshotPlusSuffix | src/replication/combined_storage.rs:189-342 | A snapshot after k entries, installed on any node, plus the remaining entries gives the state, last applied id and answers of the whole log |
| Snapshots.ChunksDoNotMatter | src/replication/combined_storage.rs:189-271 | However the entries are cut into calls, state and answers are the same |
| Snapshots.NothingDanglesOnReplicas | src/replication/combined_storage.rs:189-342 | On a replica, on any node that installs its snapshot, and after any further entries, no nack misses its queue and the counts add up |
| Snapshots.TornSnapshotServesIff | src/replication/combined_storage.rs:317-342 | A snapshot of any state, under the id that names some entries, serves for every suffix if and only if it is the state after these entries |
| SnapshotRace.RaceServesIff | src/replication/combined_storage.rs:189-342 | However applying entries and building a snapshot interleave, the snapshot is the state after i entries under the id of the j-th with i <= j + 1, and serves for these j if and only if the two states are equal |
| SnapshotRace.PairArises | src/replication/combined_storage.rs:265-268 | Every such pair i, j comes out of some interleaving |
| Counterexamples.TornSnapshotDoublesMessage | src/replication/combined_storage.rs:265-328 | A concrete snapshot that holds a message its id does not claim, and doubles it on the node that installs it |
| Counterexamples.TornSnapshotLosesMessage | src/replication/combined_storage.rs:317-342 | A concrete snapshot that claims to cover a message it does not hold |

## Left out

- HTTP handlers, authentication, content negotiation, body limits, TLS, telemetry, shutdown: plumbing around the calls modelled here.
- Raft consensus and the transport between nodes (src/replication/network.rs): the openraft library and HTTP.
- Votes (`save_vote`, `read_vote`), stored membership and the purged id written by `purge_logs_upto`: written or defaulted, and not read back by the operations modelled.
- Agreement of task ids between replicas: each node draws ids and reads the clock while applying; the model takes both per log position as given.
- Serialization: entries are encoded by a function with an inverse whose output is one non-blank line, tree values are entries, snapshots read back; serde_json and sled are not part of this model.
- The `timestamp` of a log entry: it is written and never read.
- Torn writes: an append writes the whole line or nothing.
- The guard a dequeue holds on its queue while it waits for the log: Interleaving lets other calls in, so its runs include all those the code admits.
- Recovery when calls interleave: an enqueue and a nack log first and change the queue later, so log order and memory order can differ; recovery is proved for atomic calls.
- Interleaving.SettledAtMostOnce: does not count the answers of `ack_batch`, which checks, waits and then removes, so it can answer Ok for a task another call has settled meanwhile.
- CombinedStorage.CombinedStorage.BuildSnapshot: the method reads the state and the last applied id at one point and leaves the stored membership out; the code reads the two in separate steps (`SnapshotData` and `LabelSnapshot` here), and SnapshotRace interleaves these with the steps of applying entries. An engine caught inside a call, or while a snapshot is being installed, is left to Snapshots.TornSnapshotServesIff, which holds for whatever state was read.
- Overflow of the 32-bit attempt counter and of the timeout in seconds: naturals and integers are unbounded here.
- Error texts: errors are values that carry the names and ids the texts would show.
- `validate_queue_name`: checked by the handlers, easy on its own.
