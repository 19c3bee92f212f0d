# TertiusEye: a verified model of the telemetry pipeline

TertiusEye agents collect telemetry on endpoints, send it to an ingestion service, and keep it in
a local SQLite queue while the service cannot be reached. The service hands payloads to a worker
pool that stores them in a multi-tenant PostgreSQL database under row-level security. This project
models that path from end to end, and four smaller components of the agent and the services, and
proves what they promise over every input, every schedule and every fault.

Concurrent parts are transition systems. An action names everything that is not determined by the
state (which call moves, what the network answers, which fault occurs), an action that is not
possible changes nothing, and a run is any sequence of actions, so a theorem about `Run` is a
theorem about every interleaving. Sequential code is a class or a method with the same loops and
early exits, proved against the same definitions.

| file | what it models |
|---|---|
| `OfflineQueue.dfy` | the table `offline_payloads` and the class `SQLiteQueue` |
| `FlushSystem.dfy` | any number of `Transmit` and `FlushOfflineCache` calls interleaving over one queue |
| `FlushSteps.dfy` | its steps, by status code and by what the store does |
| `FlushTheorems.dfy`, `FlushRepeats.dfy` | safety, order and repeated delivery over every run |
| `OfflineClient.dfy`, `SoloFlush.dfy` | the client as sequential code, and one flush alone in the concurrent system |
| `TenantDb.dfy` | statements under row-level security; transactions interleaving on pooled connections |
| `TenantTheorems.dfy`, `TenantRecords.dfy` | isolation, serializability, atomicity and provenance over every run |
| `TenantProgress.dfy` | waiting, absence of deadlock, and one transaction alone |
| `Noninterference.dfy`, `Interference.dfy` | noninterference for disjoint ids, and that exactly a shared id breaks it |
| `Repository.dfy` | the repository as a class, one operation at a time |
| `Ingestion.dfy`, `IngestionTheorems.dfy` | handlers, bounded channel, workers and shutdown |
| `RowFinality.dfy` | when a device row can still change |
| `WorkerSaves.dfy` | interleaved saves of the workers as atomic ones |
| `IngestionService.dfy` | the handler, task processing and one worker's loop as a class |
| `Pipeline.dfy`, `PipelineTheorems.dfy`, `StaleReplay.dfy` | agent, network and service together |
| `Deliveries.dfy`, `DeliveryTheorems.dfy`, `LostAnswer.dfy` | how often the service gets each payload |
| `ProcessPool.dfy` | the process collector's worker pool |
| `TagInventory.dfy`, `Plist.dfy` | tag deduplication and the plist scanner |
| `Envelope.dfy` | envelope encryption with its key buffers |
| `Backoff.dfy` | exponential backoff in 64-bit nanoseconds |

## Assumptions

- SQLite gives ids that increase by one and are never reused, and a committed or rolled-back
  delete is atomic. The error of a finished row iteration is not looked at
  (`pkg/storage/sqlite.go:74-82`), so a snapshot may be any prefix of the queue.
- A post ends with a status or with no reply, and a 2xx status acknowledges it (section 15.3 of
  RFC 9110). A reply can be lost after the service accepted the task.
- PostgreSQL 16: the database role is subject to the policies; a policy without WITH CHECK reuses
  its USING expression; an upsert that conflicts with a row its session cannot see is an error; an
  upsert waits for an open transaction that wrote the same key; after SET LOCAL a setting falls back
  to the empty string at the end of the transaction. PostgreSQL's SET takes no bind parameter, so
  the statement at `pkg/database/db.go:57` may fail; every theorem holds whether it fails or sets
  the tenant.
- The service is shut down as `cmd/ingestion/main.go:33-50` does it: handlers finish first, then the
  workers are cancelled, then the channel is closed. `main` returns after that without waiting for the
  workers, so the process may end in any state from the close on.
- Decoding JSON, casting a text to a UUID, case folding and trimming are arbitrary functions. The
  cast fails on the empty text.
- The cipher opens what it sealed, the key service unwraps what it wrapped, and the key service
  returns memory of its own.

## Where the code does less than its documentation says

- `ARCHITECTURE.md:386` promises no data loss, but the result of caching a payload is ignored
  (`pkg/network/mtls_client.go:94`). With a queue, the agent drops a payload exactly when the post
  fails and the store then refuses the row (`TransmitOutcomeHasReason`); `PayloadCanBeLost` is such a
  run. A client without a queue (`cmd/agent/main.go:57-60` goes on with none) drops every payload
  that gets no 2xx, and a payload answered 202 is gone when its save fails
  (`pkg/ingestion/service.go:142-147`).
- `Close` is described as graceful (`pkg/ingestion/service.go:151`), but a worker may see the
  cancellation before queued tasks, which are then never processed although they were answered
  202 (`ShutdownCanLoseAcceptedTask`), and the process ends while workers still hold tasks. From the
  close on every accepted task is processed exactly when, at the call of `Close`, the channel is empty
  and no worker holds a task (`CloseLosesNothingExactlyWhenIdle`). Were the process to outlive its
  workers, an empty channel would do (`WaitingLosesNothingExactlyWhenChannelEmpty`). Processed is
  not stored: a worker hands the cancelled context to the database
  (`pkg/ingestion/service.go:143`), so a task it takes after the cancellation is parsed and its save
  fails, and a save under way at the cancellation may fail.
- Delivery is at least once, not exactly once, for two reasons. A row may be acknowledged twice: that
  takes an overlap of two flushes, a cancelled flush or a failed delete, and each of the three alone
  suffices. A row can be acknowledged again exactly when it is in the queue or a running flush has
  still to post it (`RowCanBeAcknowledgedExactlyWhenLive`), and a continuation can repeat some
  acknowledgement unless no row is left to post and none can be stored
  (`NoContinuationRepeatsExactly`). And an answer may be lost after the service accepted the task,
  which alone suffices too (`LostAnswerAloneRepeats`). The exact count: the tasks of a payload are as
  many as the 2xx received for it and the accepted requests for it whose answer the agent gave up on
  or waits for (`TasksAreCounted`); without the first three causes, a payload that got its 2xx is in
  the service exactly once if and only if the agent gave up on no accepted request for it
  (`ExactlyOnceWhenNoAnswerWasLost`).
- One payload that the service always refuses keeps everything behind it in the queue.
- The database need not hold the newest payload: the last one processed wins, and old ones are
  replayed after new ones (`OlderPayloadCanWin`). Once the handlers have finished, a row can still
  change exactly when a task for it, of the tenant that owns it, is with a worker, or in the channel
  with a worker left (`RowIsFinalExactly`).
- Record ids are global, so a tenant that uses an id first makes another tenant's save of it fail
  (`SharedIdsInterfere`). Over all runs of given operations a tenant is isolated if and only if no
  save of another tenant uses an id that one of its own saves uses (`IsolatedExactlyWhenNoIdIsShared`).
- The plist scanner gives a key whose value is not a string the text of the next string value.
- With 35 or more attempts the 35th sleep of the backoff overflows and is negative.

## Model

| member | source | states |
|---|---|---|
| OfflineQueue.SQLiteQueue.Enqueue | pkg/storage/sqlite.go:47-59 | Success appends exactly one row with the next id; failure (a fault, or ids used up) leaves the table alone. |
| OfflineQueue.SQLiteQueue.DequeueAll | pkg/storage/sqlite.go:61-83 | A successful answer is a prefix of the queue in id order, the whole of it unless the iteration stopped early; which errors fail it. |
| OfflineQueue.SQLiteQueue.Delete | pkg/storage/sqlite.go:85-113 | All or nothing on every fault: exactly the rows with these ids are gone, or the table is untouched; an error with the rows gone only when the reply to COMMIT was lost. |
| OfflineQueue.WithoutTwice | pkg/storage/sqlite.go:106-110 | Deleting ids one after the other removes their union. |
| OfflineQueue.WithoutPrefix | pkg/storage/sqlite.go:106-110 | Deleting the ids of a prefix leaves exactly the rest, in order. |
| OfflineQueue.WithoutKeepsOrder | pkg/storage/sqlite.go:106-110 | Deleting removes no other row and keeps ids ascending. |
| FlushSystem.DeleteLeavesSuffix | pkg/network/mtls_client.go:142-146 | A delete based on an old snapshot still leaves a suffix of the history, however far the queue has moved on. |
| FlushSystem.NewAckKeepsAckInv | pkg/network/mtls_client.go:134-135 | An acknowledgement by any of several flushes keeps first deliveries in order. |
| FlushSystem.StepKeepsInv | pkg/network/mtls_client.go:62-149 | Every atomic step of every call keeps: queue is a suffix of the history, released rows are acknowledged, every running flush holds a window of the history whose first part is acknowledged. |
| FlushSystem.RunKeepsInv | pkg/network/mtls_client.go:62-149 | The same over every run; history and acknowledgements only grow. |
| FlushSteps.TransmitReplyByStatus | pkg/network/mtls_client.go:74-88 | A call is delivered exactly by a status from 200 to 299; any other status or no reply leads to caching. |
| FlushSteps.CacheIsEnqueue | pkg/storage/sqlite.go:47-59 | Caching in the concurrent system adds one row with the next id at the end, unless the store fails or the 64-bit ids are used up. |
| FlushSteps.StartIsDequeueAll | pkg/network/mtls_client.go:104-107 | A flush goes on exactly if it read a row; what it read is a prefix of the queue, and it overlaps the flushes then running. |
| FlushSteps.FlushReplyByStatus | pkg/network/mtls_client.go:123-140 | A status from 200 to 299 counts the row and goes on to the next; anything else ends the posting and leads to the delete of what was counted. |
| FlushSteps.DeleteIsAllOrNothing | pkg/network/mtls_client.go:142-148 | The delete removes exactly the counted rows or nothing, and ends as failed exactly when an error is reported. |
| FlushSteps.CancellationDeletesNothing | pkg/network/mtls_client.go:112-116 | A cancelled flush leaves the queue as it is. |
| FlushTheorems.QueueIsUnacknowledgedSuffix | pkg/network/mtls_client.go:99-149 | In every run the queue is a suffix of all rows ever stored and every row before it was acknowledged. |
| FlushTheorems.FirstDeliveryInOrder | pkg/network/mtls_client.go:109-140 | When a row is acknowledged, every row stored before it had been acknowledged earlier, even with concurrent flushes. |
| FlushTheorems.NothingIsLost | pkg/network/mtls_client.go:104-146 | A row queued at any moment, such as between a snapshot and its delete, is later still queued or acknowledged. |
| FlushTheorems.TransmitIsConserved | pkg/network/mtls_client.go:60-96 | A payload given to Transmit ends delivered, refused by the store, or as a row that is queued or acknowledged. |
| FlushTheorems.AckHasReply | pkg/network/mtls_client.go:127-135 | Every recorded acknowledgement is a 2xx reply to the post of that very row by that flush, and each has a reply of its own. |
| FlushTheorems.TransmitOutcomeHasReason | pkg/network/mtls_client.go:74-96 | Over every run a call ends delivered if and only if a 2xx answers it, and its payload is dropped if and only if the store refuses the row after the post failed. |
| FlushTheorems.PayloadCanBeLost | pkg/network/mtls_client.go:91-96 | A run that loses a payload: no reply, and the store refuses the row. |
| FlushRepeats.RunKeepsRepeatInv | pkg/network/mtls_client.go:104-148 | Running flushes overlap pairwise, what they are about to post was acknowledged before only by an excused flush, and acknowledged rows still queued have a known acknowledger. |
| FlushRepeats.EveryRepeatHasACause | pkg/network/mtls_client.go:104-146 | Two acknowledgements of one row come from different flushes that overlapped, or the first was cancelled or its delete failed. |
| FlushRepeats.AcknowledgedOnceWhenOrderly | pkg/network/mtls_client.go:165-169 | Without overlap, cancellation or failed delete no row is acknowledged twice. |
| FlushRepeats.RowCanBeAcknowledgedExactlyWhenLive | pkg/network/mtls_client.go:104-148 | In any reachable state a stored row can be acknowledged (again) by some continuation if and only if it is in the queue or a running flush holds it unposted. |
| FlushRepeats.AcknowledgedRowsAreSettledExactly | pkg/network/mtls_client.go:104-148 | No continuation acknowledges again a row acknowledged so far if and only if none of these rows is in the queue or unposted in a running flush. |
| FlushRepeats.NoContinuationRepeatsExactly | pkg/network/mtls_client.go:60-149 | No continuation repeats any acknowledgement if and only if no row is in the queue or unposted in a running flush, and the row ids are used up. |
| FlushRepeats.OverlapAloneRepeats | pkg/network/mtls_client.go:104-146 | A run with a repeat caused by overlap alone. |
| FlushRepeats.FailedDeleteAloneRepeats | pkg/network/mtls_client.go:142-146 | A run with a repeat caused by a rolled-back delete alone. |
| FlushRepeats.CancellationAloneRepeats | pkg/network/mtls_client.go:112-116 | A run with a repeat caused by a cancellation alone. |
| OfflineClient.Client.Transmit | pkg/network/mtls_client.go:60-96 | Success is exactly a status from 200 to 299; otherwise the payload joins the end of the queue, and the queue is unchanged exactly on success, a failing store or used up row ids. |
| OfflineClient.Client.FlushOfflineCache | pkg/network/mtls_client.go:98-149 | The count is the longest prefix of the snapshot answered with a 2xx; without an error exactly that prefix leaves the queue, on cancellation nothing does, a failed delete is reported. |
| OfflineClient.Client.BackgroundFlusher | pkg/network/mtls_client.go:151-173 | Only prefixes ever leave the queue, and as many good ticks as queued rows empty it. |
| OfflineClient.FlushAgainst | pkg/network/mtls_client.go:98-149 | With a complete snapshot and no faults a flush meets the fixed-server specification. |
| OfflineClient.SecondFlushDeliversNothing | pkg/network/mtls_client.go:136-139 | Against the same server a second flush delivers nothing. |
| OfflineClient.DrainsExactlyWhenAllAccepted | pkg/network/mtls_client.go:109-140 | A clean flush empties the queue if and only if every queued payload is accepted; a refused one keeps everything from itself on. |
| SoloFlush.FlushAloneTakesLongestPrefix | pkg/network/mtls_client.go:99-149 | A flush that meets no other call in the concurrent system refines the sequential specification, with exactly the acknowledgements of that prefix. |
| TenantDb.WriteIsLocal | pkg/database/db.go:83-91 | An upsert depends only on its own key and on its tenant being registered. |
| TenantDb.StepKeepsInv | pkg/database/db.go:49-67 | Every step of every open transaction keeps: idle connections are blank, connections and written keys are held once, and what a transaction has written is what its statement would still write. |
| TenantDb.RunKeepsInv | pkg/database/db.go:49-67 | The same over every run. |
| TenantTheorems.PolicyMeaning | migrations/001_initial_schema.sql:43-53 | A row satisfies the policy exactly if the connection's setting is its tenant; a setting that is unset or empty satisfies none, one that is no UUID is an error. |
| TenantTheorems.ReadObeysPolicy | pkg/database/db.go:109-132 | Whatever the setting, a read answers exactly the rows of the tenant asked for that satisfy the policy. |
| TenantTheorems.WriteObeysPolicy | pkg/database/db.go:80-98 | Whatever the setting, a write goes through exactly if the setting is its tenant and the id is that tenant's own, or new and the tenant registered. |
| TenantProgress.SaveWaitsExactlyForSameRecord | pkg/database/db.go:83-91 | A save can run exactly unless another open save of the same record has run. |
| TenantProgress.SomeTransactionCanProceed | pkg/database/db.go:48-67 | No deadlock: as long as a transaction is open, one can proceed. |
| TenantProgress.TransactionAloneIsWithTenantTx | pkg/database/db.go:48-67 | A transaction that meets no other one in the interleaved system ends as the sequential one does, for every fault. |
| TenantTheorems.IdleConnectionCarriesNoTenant | pkg/database/db.go:56-60 | In every run a free connection's setting makes every policy comparison NULL. |
| TenantTheorems.EveryRunIsSerializable | pkg/database/db.go:49-98 | The database after any interleaving is that of the committed saves one after the other in commit order. |
| TenantTheorems.EveryTransactionIsAllOrNothing | pkg/database/db.go:49-67 | Open transactions have no trace, done ones have exactly one, failed ones none unless the commit's reply was lost. |
| TenantTheorems.RowsKeepTheirTenant | migrations/001_initial_schema.sql:43-53 | No run removes a row or hands it to another tenant. |
| TenantTheorems.OthersCannotTouchTenant | migrations/001_initial_schema.sql:43-53 | A tenant's rows change only by its own commits, with no assumption on ids. |
| TenantTheorems.WriteStaysInTenant | pkg/database/db.go:84-89 | What a save writes, and the row it replaces, belong to the tenant that runs it. |
| TenantTheorems.ForeignConflictFails | pkg/database/db.go:91-94 | A save that hits another tenant's row never commits on any continuation. |
| TenantTheorems.PolicyFilteredReadIsPlainFilter | pkg/database/db.go:110-132 | The policy-filtered answer is the plain filter of the whole table by tenant. |
| TenantRecords.EveryRowHasOneSource | pkg/database/db.go:80-162 | In every run the columns of a row that belong together come, field by field, from one committed save of that record for its tenant. |
| TenantRecords.ProviderNeverChanges | pkg/database/db.go:137-142 | A token's provider stays as first saved, over every run. |
| TenantRecords.NoTenantReadsAnother | pkg/database/db.go:109-171 | In every run no answer contains another tenant's row. |
| Noninterference.SameWrite | pkg/database/db.go:83-91 | A tenant's upsert of its own ids has the same result whatever rows the others have. |
| Noninterference.SameWait | pkg/database/db.go:83-91 | An upsert that need not wait in the full run need not wait in the purged one. |
| Noninterference.RunsStayAlike | pkg/database/db.go:49-171 | A run and its purged copy stay indistinguishable to the tenant, and the purged copy can be executed. |
| Noninterference.TenantsDoNotInterfere | pkg/database/db.go:49-171 | With disjoint ids, a tenant's rows and the outcomes of all its transactions equal those of the run without the other tenants. |
| Noninterference.ForeignRowsMatterExactlyOnConflict | pkg/database/db.go:83-91 | For one save the other tenants' rows make a difference if and only if one of them has its id. |
| Interference.SharedIdsInterfere | migrations/001_initial_schema.sql:9-11 | For any two tenants and any two saves under one id: a run in which the save of one fails on every continuation that alone is done, so that its outcomes and views differ and the purged run cannot be executed. |
| Interference.IsolatedExactlyWhenNoIdIsShared | pkg/database/db.go:49-171 | For any set of operations: every interleaved run of them looks to a tenant as if it were alone if and only if no save of another tenant uses an id of one of its own saves. |
| Repository.Repository.WithTenantTx | pkg/database/db.go:48-67 | On every exit: all or nothing, the connection returns to the pool and carries no tenant. |
| Repository.Repository.UpsertTenant | pkg/database/db.go:69-78 | Registers or renames exactly this tenant, outside any tenant's transaction; a failure changes nothing. |
| Repository.Repository.SaveDevice | pkg/database/db.go:80-98 | It succeeds exactly if nothing fails, the texts are UUIDs and the id is the tenant's own, or new for a registered tenant; then exactly this row is set; no row changes owner; failure changes nothing unless the commit went unanswered. |
| Repository.Repository.SaveOAuthToken | pkg/database/db.go:134-147 | The same condition; success sets this token's wrapped key and ciphertext together and keeps a stored provider; failure changes nothing unless the commit went unanswered. |
| Repository.Repository.SaveCloudCredential | pkg/database/db.go:149-162 | The same condition; success sets exactly this row, role and external id in their columns; failure changes nothing unless the commit went unanswered. |
| Repository.SaveThenGetCredential | pkg/database/db.go:149-171 | A tenant's only credential is read back field by field as it was saved. |
| Repository.SaveThenGetDevices | pkg/database/db.go:80-132 | A saved device is among the tenant's devices exactly as saved, in one record. |
| Repository.Repository.GetCloudCredential | pkg/database/db.go:164-171 | One of the tenant's own credentials; none only if it has none or a step failed. |
| Repository.Repository.GetDevicesForTenant | pkg/database/db.go:109-132 | The answer is the tenant's devices of the whole table, each once. |
| Ingestion.StepKeepsInv | pkg/ingestion/service.go:78-156 | Every step of handlers, workers and shutdown keeps the channel, ticket, reply and shutdown invariants. |
| Ingestion.RunKeepsInv | pkg/ingestion/service.go:78-156 | The same over every run; accepted and processed tasks only grow. |
| IngestionTheorems.TicketIsInOnePlace | pkg/ingestion/service.go:96-123 | An accepted task is in the channel, with one worker, or processed once: exactly one of the three. |
| IngestionTheorems.PoolIsSafe | pkg/ingestion/service.go:33-156 | The buffer and the number of workers are those asked for or the defaults; the channel never exceeds its buffer, nothing is sent on the closed channel, 202 is answered exactly to enqueued tasks, no accepted task vanishes. |
| IngestionTheorems.OfferIsAnswered | pkg/ingestion/service.go:78-104 | In any reachable state: 400 exactly for a missing tenant, a failed read or an empty body; else 202 exactly while the channel has room, and then the task joins its end; else 503. |
| IngestionTheorems.ReplyHasReason | pkg/ingestion/service.go:78-104 | In every run each reply is the one its offer deserved at that moment. |
| IngestionTheorems.OfferOnClosedChannelPanics | pkg/ingestion/service.go:96-103 | On a closed channel a well-formed request would panic. |
| IngestionTheorems.ProcessMeaning | pkg/ingestion/service.go:126-149 | Verdict and effect of a task in the fields of its metadata: the device UUID is the id, or the hostname without one; it is saved exactly if the save can go through. |
| IngestionTheorems.EveryVerdictIsRight | pkg/ingestion/service.go:126-149 | In every run each task is noted as what it was: bad JSON, no id, dry run, failed or persisted. |
| IngestionTheorems.DeviceKeyMeaning | pkg/ingestion/service.go:132-143 | A task is for the record with its device UUID, or with its hostname if it has none. |
| IngestionTheorems.SavedRowIsMadeFromTask | pkg/ingestion/service.go:126-149 | A processed task saves nothing or one row made from it alone, its id the device UUID or else the hostname. |
| IngestionTheorems.DeviceRowIsLastSavedTask | pkg/ingestion/service.go:126-149 | In every run each device row's tenant, id, hostname and payload come from one accepted task, the one whose save of this device was committed last. |
| RowFinality.RowIsFinalExactly | pkg/ingestion/service.go:106-149 | Once the handlers have finished, some continuation changes a device row if and only if a task for it, of the tenant that owns it, is with a worker, or queued while a worker is left. |
| WorkerSaves.InterleavedSavesAreAServiceRun | pkg/ingestion/service.go:142-148 | Saves of tasks interleaved statement by statement on pooled connections leave the database of a run of the service that accepts the same tasks in commit order. |
| IngestionTheorems.WorkersRunDown | pkg/ingestion/service.go:106-123 | After the channel is closed the workers can act only boundedly often in any schedule. |
| IngestionTheorems.ClosedPoolIsNeverStuck | pkg/ingestion/service.go:110-119 | After the close some worker can act if and only if one has not exited. |
| IngestionTheorems.LeftInChannelIsNeverProcessed | pkg/ingestion/service.go:151-156 | Once all workers exited, no continuation processes the accepted tasks left in the channel, and all others were processed. |
| IngestionTheorems.CloseLosesNothingExactlyWhenIdle | pkg/ingestion/service.go:151-156 | Where Close is called: in every state from its close on, when the process may end, every task answered 202 has been processed, if and only if at the call the channel is empty and no worker holds a task. |
| IngestionTheorems.WaitingLosesNothingExactlyWhenChannelEmpty | pkg/ingestion/service.go:106-156 | If the process outlives its workers: every way in which they all exit processes every accepted task if and only if the channel is empty at the call. |
| IngestionTheorems.ShutdownCanLoseAcceptedTask | pkg/ingestion/service.go:151-156 | A run in which a task answered 202 is lost at shutdown. |
| IngestionService.IngestionService.HandleTelemetry | pkg/ingestion/service.go:77-104 | 400, 503 and 202 exactly under their conditions; the channel grows by the task exactly on 202. |
| IngestionService.IngestionService.ProcessTask | pkg/ingestion/service.go:125-149 | Each verdict exactly under its condition on the metadata, and a persisted task's row is exactly the one made from it. |
| IngestionService.IngestionService.Work | pkg/ingestion/service.go:107-121 | A worker alone processes tasks in order of acceptance and leaves a rest only on cancellation. |
| Pipeline.RequestedStable | pkg/ingestion/service.go:78-104 | A request in flight keeps its meaning under every step of the service. |
| Pipeline.AnsweredTicket | pkg/network/mtls_client.go:74-88 | A 202 received stands for an accepted task with the body that was sent. |
| Pipeline.StepKeepsInv | pkg/network/mtls_client.go:62-149 | Every step of agent, network and service keeps the joint invariant. |
| Pipeline.AgentSeesARun | pkg/network/mtls_client.go:62-149 | The agent's part of a joint run is a run of the agent alone, so every theorem about it holds here. |
| Pipeline.ServiceSeesARun | pkg/ingestion/service.go:78-156 | The service's part of a joint run is a run of the service alone. |
| PipelineTheorems.EveryPayloadIsSomewhere | pkg/network/mtls_client.go:60-96 | In every run, whatever body was given to a call of Transmit: the call is under way with it, the store refused it, it is queued, or a task with this body is in the service: channel, worker or processed. |
| PipelineTheorems.OutcomesAreExact | pkg/network/mtls_client.go:60-96 | In the joint system a call ends delivered if and only if it got a 2xx, and dropped if and only if the store refused the row. |
| PipelineTheorems.CachedIsConserved | pkg/network/mtls_client.go:98-149 | A stored payload is in the queue or its acknowledgement is backed by a task with this payload in the service. |
| PipelineTheorems.EveryReceiptHasItsOwnTask | pkg/ingestion/service.go:96-104 | Every 2xx received, by a call or a flush, stands for a task of its own in the service, with the payload it was for. |
| PipelineTheorems.DeviceRowIsLastSavedTask | pkg/ingestion/service.go:126-149 | In every joint run a device row comes from the one accepted task whose save of it committed last. |
| Deliveries.RunKeepsLedger | pkg/network/mtls_client.go:60-149 | In every joint run each request the agent made is waited for, given up, refused, or answered by a recorded 2xx, and every recorded 2xx is the answer to one request. |
| DeliveryTheorems.TasksAreCounted | pkg/network/mtls_client.go:60-149 | In every joint run the tasks a payload became in the service are as many as the 2xx received for it and the accepted requests for it given up on or still waited for. |
| DeliveryTheorems.TasksHoldThePayload | pkg/ingestion/service.go:96-104 | Each of these tasks has exactly that payload and the agent's tenant. |
| DeliveryTheorems.DeliveredExactlyOnce | pkg/network/mtls_client.go:74-88 | A payload delivered at once is in the service exactly once, on every continuation. |
| DeliveryTheorems.AtMostOnceUpToLostAnswers | pkg/network/mtls_client.go:98-149 | Without overlap, cancelled flush or failed delete a payload becomes at most one task more than the accepted requests for it that were given up, and no fewer than those. |
| DeliveryTheorems.ExactlyOnceWhenNoAnswerWasLost | pkg/network/mtls_client.go:98-149 | In such a run a payload that got its 2xx is in the service exactly once if and only if no accepted request for it was given up. |
| LostAnswer.LostAnswerAloneRepeats | pkg/network/mtls_client.go:74-96 | A run with one acknowledgement, no overlap, cancellation or failed delete, in which a lost answer makes the payload two tasks. |
| StaleReplay.OlderPayloadCanWin | pkg/network/mtls_client.go:109-140 | A run after which the device row holds the older of two persisted payloads. |
| ProcessPool.PoolSize | pkg/collector/process.go:21-33 | Twice the number of processors within 4 to 32, 4 below that range and 32 above it. |
| ProcessPool.StepKeepsInv | pkg/collector/process.go:47-129 | Every step keeps: each listed process is waiting, held, collected or dropped, as often as it is listed. |
| ProcessPool.SendNeverBlocks | pkg/collector/process.go:53-126 | A worker that has probed a process always finds room in the results channel. |
| ProcessPool.SchedulesAreBounded | pkg/collector/process.go:56-129 | A measure bounds how often workers can act in any schedule. |
| ProcessPool.PoolIsNeverStuck | pkg/collector/process.go:56-131 | Some worker can act if and only if one has not exited. |
| ProcessPool.WorkersStopOnCancellation | pkg/collector/process.go:56-65 | After a cancellation each worker takes at most one more process, and only processes being probed are still collected, in any schedule. |
| ProcessPool.CollectedProcesses | pkg/collector/process.go:47-139 | The result is a sub-multiset of the listed processes, and without cancellation all of them if and only if there was a worker or nothing to do. |
| ProcessPool.DrainResults | pkg/collector/process.go:131-139 | The final loop returns the channel's contents in order; in every schedule they are among the listed processes, and without cancellation all of them if and only if there was a worker or nothing to do. |
| Plist.IndexMeaning | pkg/collector/swidtag.go:347-353 | The search returns the first occurrence, and -1 exactly when there is none. |
| Plist.ExtractMeaning | pkg/collector/swidtag.go:345-358 | On any text: behind the first key tag, the trimmed text between the first opening and the first closing tag, and nothing if the closing one comes first. |
| Plist.PrintedText | pkg/collector/swidtag.go:345-357 | The printed form used below, in the tags the scanner looks for. |
| Plist.TagsDoNotOverlap | pkg/collector/swidtag.go:352-356 | In every text an opening tag before a closing tag leaves a valid slice. |
| Plist.ValueIsFirstText | pkg/collector/swidtag.go:351-357 | Behind a key the scanner finds the first string value from that entry on. |
| Plist.FindsItsEntry | pkg/collector/swidtag.go:346-351 | The search for a key of a printed dictionary ends at that key's entry. |
| Plist.ExtractFindsFirstText | pkg/collector/swidtag.go:345-358 | On every printed dictionary with distinct keys the result is the trimmed first string value from the key's entry on, or empty. |
| Plist.RoundTrip | pkg/collector/swidtag.go:345-358 | A key printed with a string value is read back, trimmed. |
| Plist.ExtractAbsentKey | pkg/collector/swidtag.go:346-350 | A key that is not in the dictionary yields the empty string. |
| Plist.BooleanReadsNextValue | pkg/collector/swidtag.go:351-357 | A dictionary on which a boolean key is given the next key's text. |
| TagInventory.AddTag | pkg/collector/swidtag.go:67-76 | The seen set and the list keep standing for the first tag of each key among all tags so far. |
| TagInventory.CollectWithProcesses | pkg/collector/swidtag.go:62-149 | The first tag per key, scanned before applications, with exactly the tags in use refreshed and the total their number; on cancellation the tags so far and no total. |
| TagInventory.MarkUsed | pkg/collector/swidtag.go:127-145 | Only the last-used time changes, and exactly on tags with a matching process. |
| TagInventory.InUseMeaning | pkg/collector/swidtag.go:131-145 | A tag is in use exactly if the folded path of a process contains its own, or a process has its name. |
| TagInventory.ScannedMeaning | pkg/collector/swidtag.go:78-117 | A tag is scanned exactly if a directory delivers it before the context is done; missing directories are passed over. |
| TagInventory.FirstsIsSubsequence | pkg/collector/swidtag.go:67-76 | The result is the subsequence of the input at exactly the positions whose key is present and new. |
| TagInventory.FirstInFields | pkg/collector/swidtag.go:67-76 | A tag is kept exactly if its folded tag id, or its folded name where there is no tag id, is not empty and is the key of no earlier tag. |
| TagInventory.DifferentIdsStay | pkg/collector/swidtag.go:67-76 | Tags with different tag ids all stay, whatever their names. |
| TagInventory.SameIdStaysOnce | pkg/collector/swidtag.go:67-76 | Of two tags with one tag id the later one is dropped, whatever their names. |
| TagInventory.DedupIsIdempotent | pkg/collector/swidtag.go:67-76 | Deduplicating twice is deduplicating once. |
| TagInventory.ScannedTagsTakePriority | pkg/collector/swidtag.go:78-125 | Applications never displace scanned tags. |
| TagInventory.EveryKeyIsKept | pkg/collector/swidtag.go:67-76 | The result has exactly the keys of the input. |
| Envelope.ZeroBytes | pkg/crypto/envelope.go:40-45 | Every byte is zero. |
| Envelope.EncryptToken | pkg/crypto/envelope.go:47-95 | On every exit after the key exists its 32-byte buffer is zero; a returned envelope is nonce and sealed token with the wrapped key (or the marked one without a key service), and shares no memory with the key. |
| Envelope.DecryptToken | pkg/crypto/envelope.go:97-146 | Reads the envelope only, returns exactly what it opens to with the unwrapped key and the 12-byte nonce, and leaves both key copies zero on every exit. |
| Envelope.SealedOpens | pkg/crypto/envelope.go:49-146 | Whatever key, nonce and wrapping were drawn, an envelope of a token opens to the token (section 7 of NIST SP 800-38D). |
| Envelope.EncryptThenDecryptTwice | pkg/crypto/envelope.go:49-146 | The round trip holds repeatedly although keys were zeroed in between. |
| Backoff.ExecuteWithBackoff | pkg/saas/graph.go:51-91 | At most the allowed attempts and none once the context is done; one wrapped sleep per reply with status 429 (section 4 of RFC 6585); the first other reply is returned unchanged. |
| Backoff.SleepsDouble | pkg/saas/graph.go:52-83 | Sleeps start at one second and double, with the jitter in milliseconds on top. |
| Backoff.WrappedValue | pkg/saas/graph.go:74-83 | A wrapped value differs by a multiple of 2^64 and fits 64 bits. |
| Backoff.WrapDoubles | pkg/saas/graph.go:83-83 | Doubling a wrapped value is wrapping the doubled value. |
| Backoff.TotalSleepBounds | pkg/saas/graph.go:72-83 | After k rate-limited replies the total sleep is between 2^k - 1 seconds and that plus k times 0.999 seconds. |
| Backoff.NoOverflowExactlyUpTo34 | pkg/saas/graph.go:52-85 | No sleep overflows if and only if at most 34 attempts are allowed. |
| Backoff.ThirtyFifthSleepIsNegative | pkg/saas/graph.go:72-83 | The 35th sleep requested is negative. |

## Left out

- HTTP, TLS, certificates and headers: a post is its body and its outcome; the tenant header is the
  task's tenant.
- The internals of SQLite and PostgreSQL beyond the assumptions above, columns filled by defaults
  (`created_at`), the index definitions, and ON DELETE CASCADE, which no code path triggers.
- A save's transaction inside the ingestion service is one atomic step, which
  `WorkerSaves.InterleavedSavesAreAServiceRun` justifies for the database it leaves.
- The save of a task taken after the cancellation always fails in the code; in the model it may also
  succeed, so the theorems cover more runs than there are.
- What `GetDevicesForTenant` returns beside an error, and the order of its rows, which the query
  leaves open.
- Probing one process: the pool carries its pid and an arbitrary text.
- Parsing of tag files, the walk over the file system, listing installed applications, and publisher
  names: only the tags they deliver matter here.
- Timing: tickers, jitter of the agent's schedule, and how long a sleep or a post takes.
- Liveness beyond the bounds and progress theorems: no fairness of the scheduler is modelled.
- Cryptographic strength: only that opening inverts sealing.
- AWS discovery, configuration, command entry points and the web pages.
