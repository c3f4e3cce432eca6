# A verified model of the publishing platform's stateful core

This Dafny project models the parts of the repository whose behaviour depends on state, time and
interleaving, and proves what they promise. `dafny verify dfyconfig.toml` checks all of it.

| file | what it models |
|---|---|
| `DocumentTables.dfy` | the document tables of the collaboration service: batches, snapshot, `load` |
| `FlushMachine.dfy` | the buffer, timer, flushes and retries of one document in one instance |
| `DocumentSystem.dfy` | any number of instances over one database: tiling, completeness of loads, conservation |
| `FlushOrder.dfy`, `DocumentOrder.dfy` | the order in which appended updates are written, and the last editor |
| `DocumentRetention.dfy` | which batches are pruned |
| `DocumentPersistence.dfy` | `PostgresDocumentPersistence` with its maps, method by method |
| `RemoteHashMemory.dfy` | the bounded, expiring memory of remote update hashes |
| `CollabSync.dfy` | `onChange` and the Redis channel across instances: echoes and convergence |
| `StickyCookie.dfy`, `ReadRouting.dfy` | the signed sticky-writer cookie, the router and the lag monitor: read-your-writes |
| `ExecutionQueue.dfy`, `ExecutionReports.dfy` | the extension's execution queue, events, expiry, reports and publishing loops |
| `Calendar.dfy`, `GregorianDays.dfy`, `MonthlyPartitions.dfy`, `PartitionedTable.dfy` | month arithmetic, partition upkeep, draining and migration |
| `SessionPool.dfy` | the browser worker's session manager and its handlers as threads |
| `RateLimit.dfy` | the fixed-window rate limiter |
| `CookieFilter.dfy` | cookie filtering and cookie validation |
| `OpenApiBundle.dfy` | the OpenAPI reference inliner and its file cache |

Code that updates state in place is a class or a method with loops, proved against a function on values;
the results about whole runs are lemmas about those functions. A run is a sequence of states and steps
that start in an initial state; a lemma about a run holds for every such sequence.

## Assumptions

Collaborative documents:
- An update is a finite set of operations; merging and applying are set union. Hashes of distinct updates
  differ and are not empty.
- A database transaction is one atomic step on one connection. The production factory passes a pool
  (`document-persistence.ts`, line 538), where the statements of one transaction may reach different
  connections.
- BEGIN (line 414) lies before the `try` and ROLLBACK (line 460) before the restore. A failure of either
  loses the batch; the results say exactly that.
- `store` encodes the document (line 262), after a flush of its own, before it reads the sequence under the
  lock (line 267). The proviso on stores in `LoadsCompletely` is the exact condition this leaves, and
  `SingleInstanceLoads` puts it in terms of the order of appends, encodings and locks.
- The two reads of `load` are one step. The insert of an initial state may happen at any time. Documents
  stay open during a run.
- A document emits a change event exactly when an applied update changed it, with the applied bytes; so an
  append of a single instance carries something new to its document. In `CollabSync`, appending and
  publishing in `onChange` are one step.
- `CollabSync` follows one document. All documents of an instance share its hash memory; updates of the
  others are remembered, asked about and evict, and differ from this document's. Applying an update does
  not throw during a run.

Read routing: one clock; the lag probe never reports less than the true lag; the replica's applied horizon
does not go back; a client acts in sequence, receives its cookies in the order they were stamped, and sends
a cookie as section 5.1.4 of RFC 6265 says; the sticky path starts with a slash; the time to live is a whole
number of seconds, at least one. A maximum lag of zero or less switches the monitor off.

Extension: each background handler, and each stretch of a publishing loop between two awaits, is one step;
storage calls do not fail; a handoff's platforms are distinct and its execution id is fresh; adapters report
only `user_review`, `succeeded` or `failed`; the monitor is not cleared during a run.

Session pool: session ids are fresh, started runtimes are distinct and have a non-zero reference.

Partitions: each statement is atomic and the drain transaction holds its lock; a primary key identifies a
row; years are those a timestamp literal can write.

Rate limiter: the Redis clock does not go back, and a key outlives its expiry time until the clock is past
it. The bounds count the requests that were answered; a request whose evaluation failed is not among them.

Cookies: lower-casing works rune by rune and maps NUL, and nothing else, to NUL.

## Results that differ from what one might expect

- A store can hide a committed update from later loads, even with a single instance
  (`DocumentSystem.StaleStoreHidesUpdate`), and loses initial content inserted while the document is open
  (`DocumentSystem.LateInitialisationIsLost`).
- A read can miss the client's own write made outside the sticky path (`ReadRouting.OutsideWriteMissed`).
- Two non-empty flushes of one document can overlap, and then a later update may be committed first
  (`FlushOrder.OverlapReorders`).
- A sticky path with a slash at its end makes writes refresh a cookie on a path the browser does not send it to
  (`ReadRouting.RefreshedWhereSent`).
- After a recorded expiry the publishing loop may mark a platform as opening again, and a refused report leaves it
  so (`ExecutionReports.RefusedReportLeavesTaskOpen`).
- A failed flush that `store` or `close` called leaves updates buffered without a timer
  (`FlushMachine.CalledFlushStrands`).
- A migration that stops after the rename is not resumed; the next start-up succeeds without the old rows,
  which stay in the renamed table (`MonthlyPartitions.RetryDoesNotResume`).
- Filtering and validation of cookies disagree for required names that differ only in case on a common
  domain, and for an empty required name (`CookieFilter.AgreeExactlyWhenUnambiguous`).
- A JSON pointer whose last key is empty is not decoded to that key (`OpenApiBundle.DecodeOfEncode`), and an
  inlined `$ref` value can read as a new reference (`OpenApiBundle.ForgedReferenceRemains`).
- The rate limiter's worst interval admits one request less than twice the limit
  (`RateLimit.StretchBoundIsReached`).

## Model

| member | source | states |
|---|---|---|
| `DocumentTables.LastActorUserId` | collab-service/src/persistence/document-persistence.ts:523-531 | the backwards scan finds the newest non-empty actor of the batch, if there is one |
| `DocumentTables.CommitLoads` | collab-service/src/persistence/document-persistence.ts:416-456 | a committed batch adds exactly the merge of its updates to what `load` rebuilds |
| `DocumentTables.StoreLoads` | collab-service/src/persistence/document-persistence.ts:267-290 | after a snapshot, `load` rebuilds exactly the state that was encoded for it, whatever batches exist |
| `DocumentTables.PruneLoads` | collab-service/src/persistence/document-persistence.ts:507-520 | pruning at or below the compaction mark changes nothing that `load` rebuilds |
| `DocumentTables.InitialLoads` | collab-service/src/persistence/document-persistence.ts:128-198 | the initial insert adds its content when no snapshot exists and is ignored when one does |
| `DocumentTables.LastActorIsNewest` | collab-service/src/persistence/document-persistence.ts:523-531 | no later update of the batch has an actor that is not empty |
| `FlushMachine.EventConserves` | collab-service/src/persistence/document-persistence.ts:380-470 | every event keeps the multiset of updates: buffered and in flight, plus written, plus dropped after, equals buffered and in flight plus appended before |
| `FlushMachine.LinkedStep` | collab-service/src/persistence/document-persistence.ts:380-393 | `flushes` and every waiter always name a flush that is still in flight, however many flushes overlap |
| `FlushMachine.DrivenStep` | collab-service/src/persistence/document-persistence.ts:237-257 | a non-empty buffer has a timer or a flush or failure handler that will take it, after an event, exactly unless the event is a failure nobody handles with no other driver left |
| `FlushMachine.HandledStep` | collab-service/src/persistence/document-persistence.ts:247-256 | without calls from outside, every flush has a failure handler |
| `FlushMachine.AppendRearms` | collab-service/src/persistence/document-persistence.ts:237-257 | an append re-establishes a driver, whatever happened before |
| `FlushMachine.DrivenAlways` | collab-service/src/persistence/document-persistence.ts:322-393 | in every run of appends and timers a non-empty buffer is driven in every state |
| `FlushMachine.CalledFlushStrands` | collab-service/src/persistence/document-persistence.ts:259-260 | the restriction is needed: a failed flush that `store` called leaves a non-empty buffer with no timer and no handler |
| `FlushMachine.RetryDelayGrows` | collab-service/src/persistence/document-persistence.ts:369-377 | the retry delay does not shrink with the attempt number and never exceeds the configured maximum |
| `FlushMachine.RetryDelayDoubles` | collab-service/src/persistence/document-persistence.ts:369-377 | the delay is the flush interval, doubled with each attempt up to the attempt threshold, and capped at the maximum |
| `FlushMachine.RetriesCountFailures` | collab-service/src/persistence/document-persistence.ts:339-351 | in every run the attempt counter is the number of failures handled since the last append, commit or empty buffer |
| `FlushMachine.RetriesEscalate` | collab-service/src/persistence/document-persistence.ts:339-378 | over consecutive failures in any run, neither the attempt counter nor the delay it selects falls |
| `FlushOrder.OrderStep` | collab-service/src/persistence/document-persistence.ts:395-470 | one event writes from the front of what is held, oldest first, and appends at its end; a failed batch returns to the front |
| `FlushOrder.WrittenInOrder` | collab-service/src/persistence/document-persistence.ts:459-466 | in every run with at most one non-empty flush in flight and every failed batch restored, written, in flight and buffered updates, one after the other, are the appended ones in order |
| `FlushOrder.UnregisteredFlush` | collab-service/src/persistence/document-persistence.ts:380-393 | two calls that waited for one flush both start after it; when the second finds nothing and ends, the first is in flight without being registered |
| `FlushOrder.OverlapReorders` | collab-service/src/persistence/document-persistence.ts:380-393 | then two non-empty flushes overlap, and a run without failures commits a later update before an earlier one |
| `DocumentPersistence.Persistence.ScheduleFlush` | collab-service/src/persistence/document-persistence.ts:322-337 | arms the timer of one document unless it has one, whose delay then stays; all other documents are untouched |
| `DocumentPersistence.Persistence.FlushDocumentOnce` | collab-service/src/persistence/document-persistence.ts:395-412 | clears the timer and takes the whole buffer of one document |
| `DocumentPersistence.Persistence.FlushDocument` | collab-service/src/persistence/document-persistence.ts:380-393 | waits for the current flush of the document or starts at once |
| `DocumentPersistence.Persistence.AppendUpdate` | collab-service/src/persistence/document-persistence.ts:237-257 | buffers the update, resets the retry counter, and flushes at the batch size or arms the timer |
| `DocumentPersistence.Persistence.TimerFires` | collab-service/src/persistence/document-persistence.ts:330-336 | drops the timer and enters a handled flush |
| `DocumentPersistence.Persistence.Settle` | collab-service/src/persistence/document-persistence.ts:386-392 | forgets the flush only if it is still the current one, and wakes or rejects its waiters |
| `DocumentPersistence.Persistence.RunFlush` | collab-service/src/persistence/document-persistence.ts:403-470 | for every fault: commits one numbered batch, or restores the updates in front of newer ones, or loses them when BEGIN or ROLLBACK fails |
| `DocumentPersistence.Persistence.HandleFlushFailure` | collab-service/src/persistence/document-persistence.ts:339-378 | counts the attempt and schedules the capped retry, or clears the counter of an empty buffer |
| `DocumentPersistence.Persistence.StoreTransaction` | collab-service/src/persistence/document-persistence.ts:265-291 | writes the encoded state with the sequence read under the lock, or changes nothing |
| `DocumentPersistence.Persistence.PruneCompactedBatches` | collab-service/src/persistence/document-persistence.ts:507-520 | removes exactly the batches at or below the mark and older than the cutoff |
| `DocumentPersistence.Persistence.LoadInto` | collab-service/src/persistence/document-persistence.ts:94-126 | the document ends with what it had, the snapshot and every batch beyond the mark |
| `DocumentPersistence.Persistence.ReadProject` | collab-service/src/persistence/document-persistence.ts:128-160 | what initialisation decides from one read of the tables |
| `DocumentPersistence.Persistence.InsertState` | collab-service/src/persistence/document-persistence.ts:160-198 | the insert does nothing when a snapshot appeared meanwhile |
| `DocumentSystem.TileContents` | collab-service/src/persistence/document-persistence.ts:416-456 | each batch ever committed carries the merge of exactly the updates it numbers, and its width is its update count |
| `DocumentSystem.NumberedOnce` | collab-service/src/persistence/document-persistence.ts:418-419 | every sequence number up to the counter lies in exactly one batch: no gap, no overlap |
| `DocumentSystem.TablesStep` | collab-service/src/persistence/document-persistence.ts:259-302 | every step of any number of instances keeps the tiling, keeps the compaction mark on a batch boundary and never moves it back, and has only batches at or below it missing |
| `DocumentSystem.TablesAlways` | collab-service/src/persistence/document-persistence.ts:395-520 | the same in every state of every run |
| `DocumentSystem.CompactionGrows` | collab-service/src/persistence/document-persistence.ts:285-289 | the compaction mark never decreases between any two states of a run |
| `DocumentSystem.NeverIncomplete` | collab-service/src/persistence/document-persistence.ts:128-198 | initialisation never meets a counter above zero without a snapshot and without batches |
| `DocumentSystem.LoadStep` | collab-service/src/persistence/document-persistence.ts:94-126 | only a store changes the loaded document by anything but the newly owed operations |
| `DocumentSystem.LoadsCompletely` | collab-service/src/persistence/document-persistence.ts:94-126 | in every interleaving, all loads contain the initial content and every committed update if and only if every committed store had encoded at least that |
| `DocumentSystem.LoadsExactly` | collab-service/src/persistence/document-persistence.ts:259-302 | the same with equality |
| `DocumentSystem.NothingLostOrDuplicated` | collab-service/src/persistence/document-persistence.ts:459-466 | appended updates equal committed plus in flight plus buffered plus lost, with multiplicity, in every state; none is lost if and only if every failing flush completed its ROLLBACK |
| `DocumentOrder.LogInOrder` | collab-service/src/persistence/document-persistence.ts:416-466 | a single instance commits updates in the order of their appends, if at most one of its non-empty flushes is in flight and every failed batch is restored |
| `DocumentOrder.LastEditorIsNewest` | collab-service/src/persistence/document-persistence.ts:444-455 | then `last_edited_by` is the newest actor, neither absent nor empty, of the committed part of the appended sequence, and is unset if there is none |
| `DocumentRetention.BatchHasItsTime` | collab-service/src/persistence/document-persistence.ts:420-442 | every batch carries the time of the flush that committed it |
| `DocumentRetention.KeptUnlessDropped` | collab-service/src/persistence/document-persistence.ts:507-520 | in every run a committed batch is in the table if and only if no prune compacted past it with a cutoff after its time |
| `DocumentSystem.SingleInstanceLoads` | collab-service/src/persistence/document-persistence.ts:259-267 | with one instance, all loads contain the initial content and every committed update if and only if at each store's lock every committed update had been appended before the document was encoded, and the initial content was in it |
| `DocumentSystem.OpenedInstanceLoads` | collab-service/src/persistence/document-persistence.ts:259-267 | with a document opened after its initialisation, if and only if every committed update had been appended before the encoding |
| `DocumentSystem.StaleStoreHidesUpdate` | collab-service/src/persistence/document-persistence.ts:260-267 | the proviso fails in a run of one instance: after the flush that `store` awaits, an update is appended and committed between the encoding and the lock, and is no longer loaded |
| `DocumentSystem.LateInitialisationIsLost` | collab-service/src/app.ts:116-118 | initial content inserted while the document is already open is gone with its next store |
| `RemoteHashMemory.Memory.Prune` | collab-service/src/collab/redis-pubsub.ts:187-193 | deletes exactly the expired hashes and keeps the order of the others |
| `RemoteHashMemory.Memory.RememberHash` | collab-service/src/collab/redis-pubsub.ts:174-185 | prunes, sets and evicts from the front down to the bound |
| `RemoteHashMemory.SetKeepsPlaces` | collab-service/src/collab/redis-pubsub.ts:177-177 | a hash that is set again keeps its place in the eviction order, a new one is the newest |
| `RemoteHashMemory.Memory.IsRemoteUpdate` | collab-service/src/collab/redis-pubsub.ts:112-121 | answers whether the hash is live and consumes it |
| `RemoteHashMemory.RememberKeeps` | collab-service/src/collab/redis-pubsub.ts:174-185 | on return the memory holds at most 4096 hashes, and the one just remembered for 60 seconds |
| `RemoteHashMemory.MemoryIsSound` | collab-service/src/collab/redis-pubsub.ts:112-193 | after every call sequence each entry is one that an unbounded memory would hold, with the same expiry |
| `RemoteHashMemory.MemoryIsComplete` | collab-service/src/collab/redis-pubsub.ts:112-193 | without overflow and with a forward clock, every live hash of the unbounded memory is held |
| `RemoteHashMemory.AnswersRefineIdeal` | collab-service/src/collab/redis-pubsub.ts:112-121 | a true answer is one the unbounded memory gives too; without overflow the answers agree |
| `RemoteHashMemory.AnswersNeedRememberings` | collab-service/src/collab/redis-pubsub.ts:112-121 | a hash is recognised no more often than it was remembered |
| `RemoteHashMemory.AnswersAreRecent` | collab-service/src/collab/redis-pubsub.ts:112-121 | a true answer follows a remembering that is not expired, with no consuming answer, discard or newer remembering between |
| `RemoteHashMemory.TrueAnswerIsFresh` | collab-service/src/collab/redis-pubsub.ts:174-178 | that remembering is less than 60 seconds old |
| `CollabSync.InvAlways` | collab-service/src/collab/hocuspocus.ts:69-83 | in every run a client's update is in its own document and waits there for `onChange` or was sent once, remote changes stem from sent updates, and each update is in, or on its way to, every open document |
| `CollabSync.LocalUnrecognised` | collab-service/src/collab/redis-pubsub.ts:112-121 | a client's own update is never taken for a remote one |
| `CollabSync.EchoFreeExactlyWhenTimely` | collab-service/src/collab/hocuspocus.ts:69-83 | everything appended and published came from a client of the instance that did so if and only if every remote change was handled less than 60 seconds after the latest accepted delivery of its update, with no eviction of its hash since |
| `CollabSync.RecognisedExactlyInTime` | collab-service/src/collab/redis-pubsub.ts:112-121 | a remote change is recognised if and only if it is handled within that time, although all documents of the instance share one memory |
| `CollabSync.DeadlineMeans` | collab-service/src/collab/redis-pubsub.ts:174-185 | the time ends 60 seconds after the latest accepted delivery, and there is none if remembering another hash evicted this one since |
| `CollabSync.SentExactlyOnce` | collab-service/src/collab/hocuspocus.ts:69-83 | in a run at rest with every remote change handled in time exactly the client updates were appended and published, each once |
| `CollabSync.Converges` | collab-service/src/collab/redis-pubsub.ts:139-168 | echoes or not: with everything delivered and handled, each open document holds its initial content and all client updates and nothing else |
| `CollabSync.PubSub.HandleMessage` | collab-service/src/collab/redis-pubsub.ts:139-168 | one message on one instance is the delivery step of the run model, for this document and for every other one; messages of its own, for closed documents or with a wrong hash change nothing, and a failing apply forgets the hash again |
| `StickyCookie.CookieRoundTrip` | backend/internal/middleware/sticky_writer.go:103-132 | the server reads back, to the millisecond, every deadline it signed |
| `StickyCookie.TrimsSpaces` | backend/internal/middleware/sticky_writer.go:104-104 | trimming removes white space, all of it, at both ends, and nothing else |
| `StickyCookie.DigitsAreNumbers` | backend/internal/middleware/sticky_writer.go:111-111 | exactly the non-empty strings of digits are numbers, in decimal |
| `StickyCookie.AcceptedExactlyWhenSigned` | backend/internal/middleware/sticky_writer.go:103-126 | a value is accepted if and only if, between spaces, it is a positive number and the signature of its own digits |
| `ReadRouting.ReplicaLagMonitor.Healthy` | backend/internal/db/replica_lag.go:88-119 | returns the cached verdict, good or bad, inside the check interval and otherwise the fresh one, which it stores |
| `ReadRouting.Router.Reader` | backend/internal/db/router.go:58-69 | strong and read-your-write reads go to the writer and leave the monitor alone; eventual and analytics reads go to the replica exactly with a reader, no active sticky deadline and a healthy or absent monitor |
| `ReadRouting.StrongReadsSeeEverything` | backend/internal/db/router.go:58-69 | in every run a strong or read-your-write read shows every commit before it and the client's own writes, whatever the time to live, lag, paths and cookie |
| `ReadRouting.DeadlineIsNear` | backend/internal/middleware/sticky_writer.go:88-101 | no cookie keeps reads at the writer for more than 30 seconds |
| `ReadRouting.RefreshesExactly` | backend/internal/middleware/sticky_writer.go:77-81 | a response gives a new cookie exactly for a status in 200 to 299, a POST, PUT, PATCH or DELETE, and a path in scope |
| `ReadRouting.TrimsSlashes` | backend/internal/middleware/sticky_writer.go:154-154 | trimming removes slashes, all of them, at both ends, and nothing else |
| `ReadRouting.RefreshedWhereSent` | backend/internal/middleware/sticky_writer.go:149-157 | a write refreshes the cookie on exactly the paths the browser sends it to, if and only if the sticky path has no slash to trim but its first |
| `ReadRouting.ReadsOwnWrites` | backend/internal/middleware/sticky_writer.go:69-116 | in every run of requests in scope of the sticky path every read of a client sees that client's earlier successful writes, if a monitor is active and the time to live covers maximum lag, verdict age and rounding |
| `ReadRouting.ReadYourWritesExactly` | backend/internal/db/router.go:58-69 | that condition is exact: `ttl >= maxLag + (checkInterval - 1 ns, or 0) + 1 ms - 1 ns` with an active monitor if and only if no run of requests in scope shows a read that misses an own write |
| `ReadRouting.ReadYourWritesAnywhere` | backend/internal/middleware/sticky_writer.go:134-170 | for requests on any paths: that condition, and the root as the sticky path, if and only if no run shows a read that misses an own write |
| `ReadRouting.OutsideWriteMissed` | backend/internal/middleware/sticky_writer.go:134-157 | with any other sticky path a write outside it sets no cookie, and a run shows the miss whatever the time to live |
| `ReadRouting.SettingIsWhole` | backend/internal/middleware/sticky_writer.go:44-50 | every setting in whole seconds, defaulted and capped, is a time to live the results are about |
| `ReadRouting.ReplicaReadIsLate` | backend/internal/middleware/sticky_writer.go:88-116 | a replica read comes no earlier than the deadline of the last cookie, up to a millisecond of rounding |
| `ReadRouting.ReplicaIsRecent` | backend/internal/db/replica_lag.go:88-119 | when a read is sent to the replica, the replica has applied everything up to the maximum lag and the verdict's age ago |
| `ExecutionQueue.ActiveIsFirstOpen` | extension/src/background/handoff.ts:163-173 | `active_platform` names the first open task, and nothing when none is open |
| `ExecutionQueue.InvStep` | extension/entrypoints/background.ts:142-334 | every handler and every stretch of a publishing loop keeps the invariant that ties tasks, events and loop positions together |
| `ExecutionQueue.OneTaskAtATime` | extension/src/background/tabs.ts:111-189 | in every state of every run the tasks list the accepted platforms in order, at most one is opening or injecting, and it is the active one |
| `ExecutionQueue.TasksFollowLoop` | extension/src/background/tabs.ts:111-189 | in every state of every run the task of the loop's platform has the status of the loop's stage or has ended, those before it have ended, those after it are queued or have ended |
| `ExecutionQueue.LoopEndsInactive` | extension/src/background/tabs.ts:166-189 | when the publishing loop of the current execution has ended, expired or not, the queue is inactive |
| `ExecutionQueue.ReplacedLoopIsHarmless` | extension/src/background/handoff.ts:490-520 | a loop of another execution changes neither the queue nor the current handoff |
| `ExecutionQueue.ForeignReportIsIgnored` | extension/entrypoints/background.ts:284-333 | an adapter message for another execution leaves what recording the expiry alone leaves |
| `ExecutionQueue.ExpirationIsRecordedOnce` | extension/entrypoints/background.ts:142-184 | after a recording every platform's latest event suppresses another, and a second recording changes nothing |
| `ExecutionQueue.ExpireTasks` | extension/entrypoints/background.ts:142-184 | recording expiry turns exactly the tasks of the unsuppressed platforms into expired ones |
| `ExecutionQueue.UpdateMirrors` | extension/src/background/handoff.ts:490-520 | an update of one task leaves the other tasks, the events and the handoff alone |
| `ExecutionReports.LatestIsNewest` | extension/entrypoints/background.ts:186-196 | the event found from the back is the platform's newest one |
| `ExecutionReports.ExpiryIsRecorded` | extension/entrypoints/background.ts:142-184 | in every state of every run recording the expiry ends exactly the platforms whose newest event is not one of the six settled statuses, and appends nothing but expiries |
| `ExecutionReports.StoredExactly` | extension/entrypoints/background.ts:284-333 | a report is stored if and only if it names the current execution and one of its platforms, before expiry or after a settled status |
| `ExecutionReports.LateReportIsRefused` | extension/entrypoints/background.ts:198-215 | in every run a report after expiry for a platform without a settled status is refused; the platform's newest event is then an expiry, and so is its task's status, if and only if no expiry had been recorded before or the task was still expired |
| `ExecutionReports.RefusedReportLeavesTaskOpen` | extension/src/background/tabs.ts:111-117 | the exception is real: after a recorded expiry the loop marks the task as opening, and a refused report leaves it so |
| `ExecutionReports.ReportIsStored` | extension/entrypoints/background.ts:319-332 | a stored report is the newest event, its task has its status and error, and before expiry nothing else changes |
| `ExecutionReports.RoundInjects` | extension/src/background/tabs.ts:111-165 | a round without a throw records opening and injecting, in this order, and leaves the task injecting with its tab |
| `ExecutionReports.ThrowFails` | extension/src/background/tabs.ts:166-189 | a throw leaves the task failed with the error, records the failure and goes on with the next platform |
| `ExecutionQueue.Background.UpdateExecutionQueueTask` | extension/src/background/handoff.ts:490-520 | rewrites one task and recomputes the active platform, only for the stored execution |
| `ExecutionQueue.Background.RecordCurrentHandoffExpiration` | extension/entrypoints/background.ts:142-184 | the loop over platforms; the answer is true exactly when something was recorded |
| `ExecutionQueue.Background.HandleAdapterEvent` | extension/entrypoints/background.ts:284-333 | expiry is decided before it is recorded; the answer says exactly which reports are stored |
| `ExecutionQueue.Background.AcceptValidatedHandoff` | extension/entrypoints/background.ts:233-276 | refused exactly while a task has not ended; otherwise the handoff, a queued task and an accepted event per platform |
| `ExecutionQueue.Background.RunPublishing` | extension/src/background/tabs.ts:111-189 | one stretch of the publishing loop between two awaits |
| `Calendar.AddMonthsCounts` | backend/internal/db/monthly_partitions.go:271-279 | Go's `AddDate(0, k, 0)` on a month start is addition on month numbers across any year boundaries |
| `Calendar.MonthsPartitionTime` | backend/internal/db/monthly_partitions.go:303-305 | the half-open month ranges are disjoint and cover all instants |
| `GregorianDays.MonthStartsOnItsDay` | backend/internal/db/monthly_partitions.go:446-457 | every month starts, at midnight UTC, on the day given by the Gregorian leap-year rule and the table of month lengths |
| `Calendar.WholeSecondKeepsMonth` | backend/internal/db/monthly_partitions.go:455-457 | dropping the fraction of a second, as the literal does, keeps the month |
| `MonthlyPartitions.RollingIsSixteenMonths` | backend/internal/db/monthly_partitions.go:271-279 | upkeep at `now` leaves exactly the months `now - 12` to `now + 3` beside those there were |
| `MonthlyPartitions.DrainIsUpkeep` | backend/internal/db/monthly_partitions.go:338-384 | the drain transaction is never refused and ends with the month made and its default rows in it |
| `MonthlyPartitions.CreateIsUpkeep` | backend/internal/db/monthly_partitions.go:303-314 | without default rows of the month, plain creation has that same effect |
| `MonthlyPartitions.MonthsKeepRows` | backend/internal/db/monthly_partitions.go:271-301 | upkeep of any consecutive months keeps all rows |
| `MonthlyPartitions.MonthsKeepRouting` | backend/internal/db/monthly_partitions.go:271-301 | and keeps each row in its month's partition if there is one and in the default partition otherwise |
| `MonthlyPartitions.EveryInterleavingKeepsRows` | backend/internal/db/monthly_partitions.go:338-384 | in every interleaving of inserts, creations and drains, with stale emptiness checks, the rows are the old ones and the accepted inserts, none lost or replaced |
| `MonthlyPartitions.EveryInterleavingKeepsRouting` | backend/internal/db/monthly_partitions.go:338-384 | and every row stays where its date says |
| `MonthlyPartitions.EveryInterleavingKeepsPartitions` | backend/internal/db/monthly_partitions.go:398-415 | and no partition disappears |
| `MonthlyPartitions.MigrationIsComplete` | backend/internal/db/monthly_partitions.go:386-444 | the copy is accepted; the new table has exactly the legacy rows, NULL dates replaced by `now` in whole seconds, all in monthly partitions and none in the default one |
| `MonthlyPartitions.MigratedHoldsLegacy` | backend/internal/db/monthly_partitions.go:424-444 | row by row: each legacy row is in the new table once, with its data, under its own date, or under `now` in whole seconds if it had none, and nothing else is |
| `MonthlyPartitions.MigratedMonthsAre` | backend/internal/db/monthly_partitions.go:281-301 | the months made are the sixteen of upkeep and those from the earliest legacy date to the latest |
| `MonthlyPartitions.InsertPlaces` | backend/internal/db/monthly_partitions.go:386-396 | an insert is accepted exactly if no key is taken and every row has a partition, and puts each row where its date says |
| `MonthlyPartitions.StartUpStaysSound` | backend/internal/db/monthly_partitions.go:210-228 | a start-up at any time with any error keeps the routing, and keeps the visible rows unless it stopped between rename and copy |
| `MonthlyPartitions.RowsStayVisibleUnlessStranded` | backend/internal/db/monthly_partitions.go:243-269 | exactly such a stop of a migration of a non-empty table changes the visible rows: none is visible and all are in the renamed table |
| `MonthlyPartitions.RetryDoesNotResume` | backend/internal/db/monthly_partitions.go:210-223 | after such a stop the next start-up succeeds with an empty table |
| `MonthlyPartitions.LaterStartUpsKeepRows` | backend/internal/db/monthly_partitions.go:210-228 | over any later start-ups and writes the rows and the routing are kept and the renamed table is never touched again |
| `PartitionedTable.RangeIsMonth` | backend/internal/db/monthly_partitions.go:320-336 | the range between two month starts selects exactly one calendar month of the default partition |
| `PartitionedTable.EventTable.HasDefaultRows` | backend/internal/db/monthly_partitions.go:320-336 | finds whether the default partition, if it exists, holds a row in the range |
| `PartitionedTable.EventTable.Drain` | backend/internal/db/monthly_partitions.go:338-384 | moves the rows or, on any error, leaves everything as it was |
| `PartitionedTable.EventTable.EnsureMonthlyPartition` | backend/internal/db/monthly_partitions.go:303-314 | both branches make the month and move its default rows; an error changes nothing |
| `PartitionedTable.EventTable.EnsureRollingPartitions` | backend/internal/db/monthly_partitions.go:271-279 | the loop over sixteen months; an error leaves the months done so far |
| `PartitionedTable.EventTable.EnsureLegacyPartitions` | backend/internal/db/monthly_partitions.go:281-301 | the loop from the month of the earliest to that of the latest dated row; an error leaves the months done so far |
| `PartitionedTable.EventTable.CopyLegacyRows` | backend/internal/db/monthly_partitions.go:386-396 | inserts every legacy row, under its own date or `now` in whole seconds, or nothing |
| `PartitionedTable.EventTable.CopyAndDrop` | backend/internal/db/monthly_partitions.go:265-268 | without an error the copy is never refused; the table then has the migrated rows, and the renamed one goes only after them |
| `PartitionedTable.EventTable.Migrate` | backend/internal/db/monthly_partitions.go:243-269 | on success the migrated table, with every legacy row under its own date, and no legacy table; on error the state of the failing stage |
| `PartitionedTable.EventTable.EnsureMonthlyPartitionedTable` | backend/internal/db/monthly_partitions.go:210-228 | one start-up, for every combination of table state and failing statement |
| `SessionPool.Manager.TryReserve` | browser-worker/internal/session/session_manager.go:49-58 | reserves exactly unless sessions and reservations fill a positive limit |
| `SessionPool.Manager.ReleaseReservation` | browser-worker/internal/session/session_manager.go:60-67 | takes one reservation back, not below zero |
| `SessionPool.Manager.Remove` | browser-worker/internal/session/session_manager.go:82-90 | hands the session to the caller that removes it |
| `SessionPool.Manager.List` | browser-worker/internal/session/session_manager.go:92-101 | lists every session once |
| `SessionPool.NeverOverCapacity` | browser-worker/internal/session/session_manager.go:49-67 | in every interleaving live sessions plus creations without a session stay within a positive limit |
| `SessionPool.RefusedExactlyWhenFull` | browser-worker/internal/session/session_manager.go:49-58 | in every run a creation is refused if and only if the limit is positive and sessions, with the creations that still hold a reservation, fill it |
| `SessionPool.ClampNeverActs` | browser-worker/internal/session/session_manager.go:60-67 | `ReleaseReservation` always has a reservation to release |
| `SessionPool.RuntimeHasOneOwner` | browser-worker/internal/server/server.go:81-192 | in every interleaving a started runtime is owned by one handler, or held by one session, or was stopped once; no other runtime is stopped |
| `SessionPool.EveryRuntimeStoppedOnce` | browser-worker/internal/server/server.go:303-327 | once every handler and timer has run, no session is left and each started runtime was stopped exactly once |
| `SessionPool.Server.CreateSession` | browser-worker/internal/server/server.go:89-192 | gives the reservation back on every path; a started runtime is stopped or in the map with a timer |
| `SessionPool.Server.DeleteSession` | browser-worker/internal/server/server.go:303-310 | stops the runtime exactly when it removed the session |
| `SessionPool.Server.ShutdownSessions` | browser-worker/internal/server/server.go:81-87 | stops every session's runtime once and empties the map |
| `RateLimit.WindowAdmits` | backend/internal/middleware/rate_limit.go:105-112 | a Redis window admits exactly the smaller of its request count and the limit |
| `RateLimit.StretchAdmits` | backend/internal/middleware/rate_limit.go:105-112 | any half-open interval of one window's length admits at most `2 * limit - 1`, for every request timing |
| `RateLimit.StretchBoundIsReached` | backend/internal/middleware/rate_limit.go:105-112 | that bound is reached, for every limit and every window of at least two milliseconds |
| `RateLimit.KeysAreIndependent` | backend/internal/middleware/rate_limit.go:373-399 | a key's counter depends on the evaluations for that key alone |
| `RateLimit.CountsOneWindow` | backend/internal/middleware/rate_limit.go:105-112 | the counter counts the requests since the first one after the previous window, all of them before the window's end |
| `RateLimit.JudgedByItsWindow` | backend/internal/middleware/rate_limit.go:345-371 | a request is exceeded exactly from the first beyond the limit in its window on, with what is left of the limit and the time to the window's end |
| `RateLimit.BucketIsLimited` | backend/internal/middleware/rate_limit.go:345-399 | the same bound for one bucket among any requests for any buckets, with any of the replies lost |
| `RateLimit.Limiter.Evaluate` | backend/internal/middleware/rate_limit.go:373-399 | one script call; after an error the counter may have moved |
| `RateLimit.Limiter.Check` | backend/internal/middleware/rate_limit.go:345-371 | the first exceeded bucket decides and later ones are not counted; otherwise the verdict is the first with the least remaining |
| `RateLimit.EnabledOfExactly` | backend/internal/middleware/rate_limit.go:321-329 | the filter keeps a bucket as often as it occurs if its limit and window are positive, and not at all otherwise |
| `RateLimit.EnabledBuckets` | backend/internal/middleware/rate_limit.go:321-329 | the filter into the slice's own array yields the enabled buckets in order and leaves the rest of the array alone |
| `CookieFilter.FilterPreserved` | browser-worker/internal/cookies/cookie_helpers.go:10-30 | the loop with its index map refines the recursive filter |
| `CookieFilter.FilterKeepsLast` | browser-worker/internal/cookies/cookie_helpers.go:10-30 | the result holds, once per key, exactly the last kept cookie of that key |
| `CookieFilter.FilterKeepsOrder` | browser-worker/internal/cookies/cookie_helpers.go:10-30 | each key keeps the place of its first kept cookie |
| `CookieFilter.KeptExactly` | browser-worker/internal/cookies/cookie_helpers.go:43-58 | a cookie is kept exactly with a name, a value, time left and a required or preserved requirement of its name and domain; an empty path becomes `/` |
| `CookieFilter.ValidateRequired` | browser-worker/internal/cookies/cookie_helpers.go:60-92 | ok if and only if something is required and every required requirement has a cookie with its name, a value, time left and a domain under one of its suffixes; `missing` names, in order, exactly those that have none |
| `CookieFilter.LeadingDotIsIgnored` | browser-worker/internal/cookies/cookie_helpers.go:94-98 | case and one leading dot of either side do not matter for a match |
| `CookieFilter.MatchIsSuffix` | browser-worker/internal/cookies/cookie_helpers.go:94-98 | domain matching is the suffix relation on the dotted lower-case forms |
| `CookieFilter.KeyParts` | browser-worker/internal/cookies/cookie_helpers.go:21-21 | cookies without NUL share a key only if name, domain and path differ at most in case |
| `CookieFilter.FilterAddsNothing` | browser-worker/internal/cookies/cookie_helpers.go:43-58 | whatever satisfies a requirement after filtering did so before |
| `CookieFilter.FilterLosesNothing` | browser-worker/internal/cookies/cookie_helpers.go:76-88 | with unambiguous requirements, what satisfied a required one still does |
| `CookieFilter.AgreeExactlyWhenUnambiguous` | browser-worker/internal/cookies/cookie_helpers.go:10-98 | validation gives the same verdict and missing list before and after filtering, on all NUL-free cookie lists, if and only if no required requirement is nameless and no two that share a domain differ only in case |
| `OpenApiBundle.UnescapeInvertsEscape` | contracts/bundle_openapi.rb:21-21 | `~1` before `~0` undoes the escaping of RFC 6901, section 4, on every string |
| `OpenApiBundle.DecodeOfEncode` | contracts/bundle_openapi.rb:15-22 | decoding an encoded key path gives the path without the empty keys at its end, so it is the inverse if and only if the path is empty or ends in a non-empty key |
| `OpenApiBundle.ExternalExactly` | contracts/bundle_openapi.rb:32-33 | followed are exactly the objects whose only field is `$ref` with a text not starting with a hash |
| `OpenApiBundle.ReferenceNames` | contracts/bundle_openapi.rb:34-38 | a reference names the node its keys lead to in the file it names from its own file, whose references are then taken from that file; without a pointer, the whole document |
| `OpenApiBundle.DeeperIsSame` | contracts/bundle_openapi.rb:27-45 | the result does not depend on how deep references may nest once the depth is enough |
| `OpenApiBundle.AcyclicTerminates` | contracts/bundle_openapi.rb:27-45 | inlining ends on every document over an acyclic reference graph |
| `OpenApiBundle.SettlesExactlyWhenAcyclic` | contracts/bundle_openapi.rb:27-45 | where no reference dangles, inlining ends for every reference if and only if the graph is acyclic |
| `OpenApiBundle.SelfReferenceNeverEnds` | contracts/bundle_openapi.rb:33-38 | a reference that names itself is followed for ever |
| `OpenApiBundle.ClosedIsFixed` | contracts/bundle_openapi.rb:27-45 | a document without references to other files is left as it is |
| `OpenApiBundle.ItemsStay` | contracts/bundle_openapi.rb:29-30 | an array keeps its items, each inlined, in their places |
| `OpenApiBundle.KeysStay` | contracts/bundle_openapi.rb:41-41 | an object keeps its keys and their order |
| `OpenApiBundle.ResultIsClosed` | contracts/bundle_openapi.rb:27-45 | no external reference is left if and only if no object held, as the value of a sole `$ref`, a reference that leads to a text |
| `OpenApiBundle.ForgedReferenceRemains` | contracts/bundle_openapi.rb:32-41 | such an object: its result is a new external reference |
| `OpenApiBundle.InliningIsIdempotent` | contracts/bundle_openapi.rb:27-45 | otherwise inlining the result again, from any file, changes nothing |
| `OpenApiBundle.LookupsAgree` | contracts/bundle_openapi.rb:27-45 | a plain look-up in the result finds exactly what a reference-following look-up finds in the original files, inlined |
| `OpenApiBundle.Bundler.Load` | contracts/bundle_openapi.rb:36-36 | a document is read once and then taken from the cache |
| `OpenApiBundle.Bundler.Resolve` | contracts/bundle_openapi.rb:34-37 | the target of a reference, read through the cache, is the one in the files |
| `OpenApiBundle.Bundler.BundleNode` | contracts/bundle_openapi.rb:27-45 | with any cache that agrees with the files the result is that of the files, and the cache still agrees |

## Left out

- Yjs encoding, document conversion and the HMAC and SHA-256 algorithms: updates are sets of operations, signatures and hashes are parameters.
- `syncProjectSourceContent`, `ping`, `close` and the pool options of the persistence: no protocol of their own beyond a load and a write of project content.
- Unloading and reopening a document during a run, and the debounce of the collaboration server.
- Reconnection and loss on the Redis channel: every published message stays in an inbox until it is delivered.
- SQL text, catalog queries and column lists: tables are maps of rows, and a failing statement is a Boolean.
- The loop over the five event tables in `ensureMonthlyEventPartitions`, and the check that the database is PostgreSQL: five independent uses of one table's start-up.
- Duplicate primary keys between a legacy table and rows written during its migration: the copy statement would be refused, which is the failing copy stage.
- Handler input, authentication, heartbeat deletion and CDP calls of the browser worker: only reserve, start, configure, put, remove and stop matter to the pool.
- Rate-limit categories, key sanitising, response headers and error bodies: a bucket comes with its Redis key; two buckets that sanitise to one key share a counter, which the bound for one bucket excludes.
- The middleware's fail-open path after a Redis error: it admits without counting.
- Windows below one millisecond, for which the expiry would delete the key at once.
- Validation of handoff fields and downloading of assets in the extension.
- YAML parsing, non-string keys, and path joining in the OpenAPI bundler; arrays are not reachable by pointer, as in the source, where fetching by text raises.
- SessionPool.Server.CreateSession: states the handler called alone; its interleavings with others are those of the thread steps.
- SessionPool.Server.ShutdownSessions: states the handler called alone; a session put during a shutdown is left to its timer, as in the thread steps.
