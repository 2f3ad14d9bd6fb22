# The durable chat stream and its protocols

This project models, in Dafny, the parts of the conferencing backend whose guarantees hold only over whole runs:

- the per-meeting ordered chat log: `accept` transactions interleaved statement by statement, with rollbacks and retention (`ChatLog`), and forward paging over it (`History`);
- live delivery: the socket-scoped reorder cursor (`LiveCursor`, `CursorConfluence`), the fan-out service with its watermark poll, and the gateway's subscribe, buffer, read, activate handover (`LiveDelivery`), over a Redis Pub/Sub that drops, repeats and reorders;
- the leased outbox with many workers, a post-commit fast path and crashes (`Outbox`, `OutboxClaims`, `RelayCycles`);
- SFU admission: prepare, sign, finalize, racing with revocation, maintenance and changes of authorization (`SfuAdmission`);
- bounded resources: the chat token bucket and its local fallback (`RateLimiter`), the presence scripts (`Presence`), the signer executor (`SignerExecutor`) and the request fingerprint (`Fingerprint`).

`JointStream` puts the transactions, the outbox, the fan-out, the polls and the pages of all meetings into one machine, and `EndToEnd` and `ServedPages` prove what a socket gets over every run of it; `JointRuns` builds runs of it, and `LeasedDelivery` adds the lease machine of the outbox. `ChatTypes`, `Ordering` and `Runs` hold shared values, bounded ordered selections and the induction over runs.

Protocols are state machines: a `Step` datatype, an `Enabled` guard and an `Apply` function; theorems speak about every run of such steps. Code that changes objects in place is a class whose methods are proved equal to the functions the theorems are about. Digests, UUIDs and ciphertexts are opaque numbers with equality; times are milliseconds, passed in as parameters.

## What turned out false

Some claims one would expect are false of the code. The model keeps the code, shows the failure and proves when the claim holds.

- A full reorder buffer overflows even on the message that would fill the hole, because the size is checked before flushing; this happens for every buffer bound (`CursorConfluence.HoleFillerOverflows`; exactly when: `LiveCursor.OverflowExactly`).
- A page's `nextAfterPosition` falls below the requested cursor exactly when that cursor lies beyond the head (`History.NewStreamFallsBack`, `History.CursorFallsBackExactly`).
- `chat.sync.request` moves the socket's cursor over everything up to the page's next cursor. A client that asks ahead of its socket can lose an event for good: if Redis also lost it, there is a run with no delivery, no gap report and no page that holds it (`JointRuns.AskingAheadSkipsSilently`). What an advance skips is in its page exactly when the client did not ask ahead (`EndToEnd.AskingAheadExactly`).
- Idempotency ends with retention: deleting a row frees its key, and the same command is stored again (`ChatLog.RetentionFreesTheKey`). A key is committed twice only if its earlier row was deleted (`ChatLog.KeyReusedOnlyAfterDeletion`).
- `markFailed` recognises the owner by worker name only. If an attempt outlives its lease and its worker claims the row again, the late failure report of the first attempt frees the lease of the second, and two workers end up inside unexpired leases (`Outbox.StaleReportBreaksExclusivity`). A step keeps leases exclusive if and only if it is not such a report (`Outbox.ExclusiveExactly`). `runOnce` can produce this overlap: a lost acknowledgement rejects it while other deliveries of the same window are still in flight.
- For the same reason an acknowledgement may complete a row under a claim other than the one that began its attempt, even while the attempt's own lease runs on (`OutboxClaims.StaleAckWins`). It belongs to the claim whose lease it completes if and only if the attempt count delivered with the claim is still the row's; otherwise its worker has claimed the row again since (`OutboxClaims.AckedByHolderExactly`).
- The token bucket's window bound fails when the clock steps back, because `updated` is written back regardless (`RateLimiter.RegressingClockBreaksTheBound`). A call is paid for by the elapsed time if and only if the clock has not stepped back (`RateLimiter.PaidForExactly`); on any clock the bound holds with the forward moves of the clock in place of the interval (`RateLimiter.AnyClockBound`).
- An operation that throws before returning a promise keeps its signer slot for ever; slots are lost exactly to started operations that throw (`SignerExecutor.LeaksExactly`).

## Model

| member | source | states |
|---|---|---|
| `LiveCursor.Flush` | src/modules/chat/chat-live-cursor.ts:78-87 | flushing makes only delivery callbacks and never overflows; it terminates |
| `LiveCursor.FlushDelivers` | src/modules/chat/chat-live-cursor.ts:78-87 | the flush delivers exactly the consecutive buffered positions after the cursor, each with its buffered message, stops before the first hole and keeps everything above it |
| `LiveCursor.OverflowExactly` | src/modules/chat/chat-live-cursor.ts:41-53 | overflow happens if and only if a buffered position gets a different event, or a new position arrives at a full buffer |
| `LiveCursor.GapsAreExact` | src/modules/chat/chat-live-cursor.ts:32-60 | a watermark beyond the cursor is reported as it is; after a message the highest waiting position is reported, once, if and only if one waits |
| `LiveCursor.NextIsDelivered` | src/modules/chat/chat-live-cursor.ts:41-60 | the message a cursor waits for is delivered first, unless the buffer is full |
| `LiveCursor.AcceptMessageSafe` | src/modules/chat/chat-live-cursor.ts:41-60 | accepting a message keeps the cursor valid and calls back consecutive deliveries, then at most one gap beyond the new position, or an overflow alone |
| `LiveCursor.CallSafe` | src/modules/chat/chat-live-cursor.ts:32-93 | every call keeps pending keys above position plus one and within the bound, never moves back, does nothing after overflow, and reports overflow exactly when it happens |
| `LiveCursor.CallTrace` | src/modules/chat/chat-live-cursor.ts:32-71 | the deliveries of one call lie above the old cursor, at or below the new one, in strictly ascending order |
| `LiveCursor.CursorSafety` | src/modules/chat/chat-live-cursor.ts:32-93 | over every run of accept and advance: valid cursor, strictly increasing deliveries inside the covered range, no callback after overflow, overflow flag equals overflow callback |
| `CursorConfluence.SettledIsUnique` | src/modules/chat/chat-live-cursor.ts:32-71 | the positions seen and the positions skipped determine the whole cursor |
| `CursorConfluence.SkipsExactly` | src/modules/chat/chat-live-cursor.ts:63-71 | a position was skipped if and only if some advance went from below it to it or beyond |
| `CursorConfluence.PickedIsExact` | src/modules/chat/chat-live-cursor.ts:32-87 | a selection of the log holds each unskipped event of a range once, ascending, and nothing else |
| `CursorConfluence.AdvanceExtends` | src/modules/chat/chat-live-cursor.ts:63-71 | an advance keeps exactly the buffered events beyond it, skips the positions in between and releases what became contiguous |
| `CursorConfluence.CallExtends` | src/modules/chat/chat-live-cursor.ts:32-71 | any call that does not overflow settles the cursor again and delivers exactly the newly covered, unskipped events |
| `CursorConfluence.Confluence` | src/modules/chat/chat-live-cursor.ts:32-87 | after any mix of notifications, in any order with any repetition, and page advances, without overflow: the buffer is exactly the events seen beyond the cursor, the next position was not seen, every position up to the cursor was seen or skipped, and the deliveries are the unskipped events up to it, once each and in order |
| `CursorConfluence.NoOverflow` | src/modules/chat/chat-live-cursor.ts:48-53 | messages for at most as many positions beyond the start as the buffer holds never overflow, whatever advances come in between |
| `CursorConfluence.ExactlyOnceInOrder` | src/modules/chat/chat-live-cursor.ts:32-60 | if every position of such a range is notified at least once, each is delivered exactly once in ascending order and the buffer ends empty |
| `CursorConfluence.HoleFillerOverflows` | src/modules/chat/chat-live-cursor.ts:48-53 | for every buffer bound: after as many later messages as the buffer holds, the missing one overflows with nothing delivered |
| `LiveCursor.ChatLiveCursor.constructor` | src/modules/chat/chat-live-cursor.ts:20-29 | a new cursor stands at the given position with an empty buffer |
| `LiveCursor.ChatLiveCursor.Accept` | src/modules/chat/chat-live-cursor.ts:32-60 | the object's fields and callbacks change as the specification of one accepting call says |
| `LiveCursor.ChatLiveCursor.Advance` | src/modules/chat/chat-live-cursor.ts:63-71 | likewise for an advancing call, including the removal loop |
| `LiveCursor.ChatLiveCursor.DrainPending` | src/modules/chat/chat-live-cursor.ts:78-87 | the unbounded loop stops and equals the recursive flush |
| `LiveCursor.ChatLiveCursor.HighestPending` | src/modules/chat/chat-live-cursor.ts:55-57 | the reported gap is the maximum of the buffered positions |
| `LiveCursor.ChatLiveCursor.FailOverflow` | src/modules/chat/chat-live-cursor.ts:89-93 | clears the buffer, sets the flag and calls back once |
| `ChatLog.FindExisting` | src/modules/chat/postgres-chat.repository.ts:406-419 | a hit is a committed row with the key, a miss means that no row has it |
| `ChatLog.CommitKeepsTables` | src/modules/chat/postgres-chat.repository.ts:131-158 | a writer's commit extends head, messages, outbox and answers by exactly one matching entry each and keeps keys unique |
| `ChatLog.StepKeepsInv` | src/modules/chat/postgres-chat.repository.ts:103-160 | every statement, commit, rollback and retention delete keeps: positions dense, one lock holder, what a writer knows still true, one message and one outbox row per stored answer |
| `ChatLog.LogStaysDense` | src/modules/chat/postgres-chat.repository.ts:125-131 | over every interleaving committed positions are exactly 1..head and commit order is position order |
| `ChatLog.SnapshotIsComplete` | src/modules/chat/postgres-chat.repository.ts:168-221 | a snapshot that reads head N holds every committed and undeleted position up to N with the event committed there |
| `ChatLog.InsertNeverViolates` | src/modules/chat/postgres-chat.repository.ts:131-142 | whoever reaches the insert is the only lock holder and meets neither unique constraint |
| `ChatLog.StepCommits` | src/platform/database/postgres-unit-of-work.ts:45-61 | one step leaves the committed events alone or adds one event at the next position |
| `ChatLog.OutboxIsCommitted` | src/modules/chat/postgres-chat.repository.ts:459-494 | every outbox row carries a committed event |
| `ChatLog.HistoryOnlyGrows` | src/modules/chat/postgres-chat.repository.ts:239-260 | the head never goes back, committed events, outbox rows and answers are never rewritten, and old positions never reappear |
| `ChatLog.IdempotentWhileRetained` | src/modules/chat/postgres-chat.repository.ts:121-129 | while a row is retained, every answered command with its key is a replay of the row's position if its content is the row's, and a conflict if it is not, whatever runs alongside |
| `ChatLog.TakenKeyIsAnswered` | src/modules/chat/postgres-chat.repository.ts:121-129 | a command whose key is taken, running alone, is answered so before it waits for the lock, and writes nothing |
| `ChatLog.KeyReusedOnlyAfterDeletion` | src/modules/chat/postgres-chat.repository.ts:239-260 | in every run, of two committed messages with one key the earlier was deleted |
| `ChatLog.FreeKeyIsStored` | src/modules/chat/postgres-chat.repository.ts:121-158 | a command whose key no retained row has is stored at the next position when it runs alone |
| `ChatLog.RetentionFreesTheKey` | src/modules/chat/postgres-chat.repository.ts:239-260 | a run that stores the same command twice, with a retention delete in between |
| `History.ClampLimit` | src/modules/chat/manage-chat.use-case.ts:95-99 | the limit is at least one, at most the maximum, and unchanged in between |
| `History.MatchingIsExact` | src/modules/chat/postgres-chat.repository.ts:184-211 | the selected rows are exactly the visible ones in the position range, ascending |
| `History.PageIsExact` | src/modules/chat/postgres-chat.repository.ts:168-221 | a page is every visible row between the effective cursor and its next cursor; `hasMore` is exact and such a page is full and strictly advances |
| `History.PageIsWhatTheReaderMaySee` | src/modules/chat/postgres-chat.repository.ts:168-221 | without naming its helpers: a page holds exactly the rows above the requested position and above the history floor, up to the next cursor, sent at an epoch at which the device belonged to the group, and reports the head |
| `History.CursorFallsBackExactly` | src/modules/chat/postgres-chat.repository.ts:214-216 | the next cursor lies below the requested one if and only if the request is beyond the head |
| `History.NewStreamFallsBack` | src/modules/chat/postgres-chat.repository.ts:214-216 | a new stream answers a request after position 5 with cursor 0 |
| `History.PagingIsComplete` | src/modules/chat/postgres-chat.repository.ts:168-221 | following the cursor on a growing log with expiry yields, once each and in order, everything still readable at the end and only what was readable when read |
| `History.PagingEqualsOneQuery` | src/modules/chat/postgres-chat.repository.ts:168-221 | without expiry the pages concatenate to one query over the last snapshot |
| `History.LogSnapshotsAreOrdered` | src/modules/chat/postgres-chat.repository.ts:239-260 | snapshots of every run of the log satisfy what paging relies on |
| `LiveDelivery.ChatSubscription.constructor` | src/modules/realtime/realtime.gateway.ts:411-414 | a new subscription is empty and inactive |
| `LiveDelivery.ChatSubscription.Notify` | src/modules/realtime/realtime.gateway.ts:415-426 | buffers up to the bound before activation, flags overflow beyond it, and feeds the cursor afterwards |
| `LiveDelivery.ChatSubscription.CreateCursor` | src/modules/realtime/realtime.gateway.ts:429-435 | the cursor starts at the page's high watermark and the buffer is kept |
| `LiveDelivery.ChatSubscription.ActivateLive` | src/modules/realtime/realtime.gateway.ts:441-446 | activation equals one run of the cursor over the whole buffer, and does nothing when active or overflowed |
| `LiveDelivery.ChatFanoutService.AddListener` | src/modules/chat/chat-fanout.service.ts:51-79 | registers the listener in its room's set and nothing else |
| `LiveDelivery.ChatFanoutService.RemoveListener` | src/modules/chat/chat-fanout.service.ts:113-118 | removes it, and with the last one the room and its observed head |
| `LiveDelivery.ChatFanoutService.ObservePosition` | src/modules/chat/chat-fanout.service.ts:149-155 | the observed head only rises, and the result says whether it did |
| `LiveDelivery.ChatFanoutService.NotifyListeners` | src/modules/chat/chat-fanout.service.ts:157-167 | every listener of the room hears the notification exactly once, no other listener hears it |
| `LiveDelivery.ChatFanoutService.ReceivePayload` | src/modules/chat/chat-fanout.service.ts:95-111 | a payload that is too long, unparsable or for another meeting changes nothing; a valid one raises the observed head, and every listener of the room, and no other, hears the message itself |
| `LiveDelivery.ReceiveTells` | src/modules/chat/chat-fanout.service.ts:95-111 | a received event is handed on as a message, whether or not the head rises |
| `LiveDelivery.PollTells` | src/modules/chat/chat-fanout.service.ts:136-140 | a polled head is handed on as that watermark exactly when it rises |
| `LiveDelivery.UnwatchExactly` | src/modules/chat/chat-fanout.service.ts:113-118 | leaving takes away one listener and nothing else, and with the last one the room and its observed head |
| `LiveDelivery.ChatFanoutService.StartPoll` | src/modules/chat/chat-fanout.service.ts:128-134 | a poll starts unless one is running or there is no room, and its batches of at most 1000 name every subscribed room exactly once |
| `LiveDelivery.ChatFanoutService.ApplyBatch` | src/modules/chat/chat-fanout.service.ts:135-141 | the heads one batch was answered with, whatever happened since the poll began: exactly the rooms whose head advanced are notified, in order |
| `LiveDelivery.ChatFanoutService.FinishPoll` | src/modules/chat/chat-fanout.service.ts:142-146 | after the last batch or a failed read the next poll may start, and nothing else changes |
| `LiveDelivery.AcceptReaches` | src/modules/chat/chat-live-cursor.ts:32-60 | after any notification the cursor is at or past its position, has reported a gap reaching it, or has overflowed |
| `LiveDelivery.FeedReaches` | src/modules/chat/chat-live-cursor.ts:32-60 | the same for every notification of a whole feed, at its end |
| `LiveDelivery.StepKeepsInv` | src/modules/realtime/realtime.gateway.ts:395-452 | commits, publications, lossy receptions, polls, watches, page reads, cursor creation, activation, page advances and unwatches keep every listener sound and every observed head covered |
| `LiveDelivery.RunsKeepInv` | src/modules/realtime/realtime.gateway.ts:395-452 | so does every run |
| `LiveDelivery.NoSilentGap` | src/modules/chat/chat-fanout.service.ts:128-147 | once a poll that read head h is applied, every active cursor of the room is at or past h, has reported a gap reaching h, or has overflowed, whatever Redis lost |
| `LiveDelivery.HandoverIsSeamless` | src/modules/realtime/realtime.gateway.ts:411-447 | an activated listener has the state and trace of a cursor started at the page watermark and fed everything since `watch`; whatever was published earlier is at or below that watermark |
| `LiveDelivery.DeliveryIsExact` | src/modules/realtime/realtime.gateway.ts:187-203 | in every run, whatever was lost, reordered or repaired by pages, an active listener without overflow stands inside the log, has delivered the events up to there once each and in order except those a page advance skipped, and buffers exactly the events heard beyond |
| `LiveDelivery.ReceptionDelivers` | src/modules/chat/chat-live-cursor.ts:41-60 | in every run a listener that receives the message it waits for delivers it at once, unless its buffer is full |
| `LiveDelivery.HeardIsAccountedFor` | src/modules/chat/chat-live-cursor.ts:32-71 | a message a delivering listener heard is delivered, was history, was skipped by a page, or waits behind a hole |
| `LiveDelivery.HeardIsDelivered` | src/modules/realtime/realtime.gateway.ts:395-452 | a listener that heard, or had a page sent past, every event since its page stands at the head with nothing buffered and has delivered every event no page skipped |
| `JointStream.StepMoves` | src/modules/chat/postgres-chat.repository.ts:103-160 | every step of the joint machine of stores, outbox, fan-out and pages is for the live path no step or one of its own: a commit, a publication, a read of the head, a page advance |
| `JointStream.OutboxMayPublish` | src/modules/chat/postgres-chat.repository.ts:459-494 | every outbox row of a room's store may be published to the live path |
| `JointStream.StepKeepsInv` | src/modules/chat/postgres-chat.repository.ts:103-221 | every joint step keeps the log of each room equal to what its transactions committed and every page within the head |
| `JointStream.StreamsAreAligned` | src/modules/chat/postgres-chat.repository.ts:125-131 | so in every joint state |
| `JointStream.LiveProjection` | src/modules/realtime/realtime.gateway.ts:395-452 | the live part of every joint state is reached by a run of the live path |
| `JointStream.LogProjection` | src/modules/chat/postgres-chat.repository.ts:103-160 | each room's store is reached by a run of interleaved transactions |
| `JointStream.StoresGrow` | src/modules/chat/postgres-chat.repository.ts:239-260 | the committed history of each room only grows along a joint run |
| `EndToEnd.NoSilentGap` | src/modules/chat/chat-fanout.service.ts:128-147 | the heads a poll applies were committed heads of an earlier state, and then every active socket of the room is at or past the head, was told of a gap reaching it, or has overflowed |
| `EndToEnd.HandoverIsSeamless` | src/modules/realtime/realtime.gateway.ts:411-447 | an active socket is a cursor started at a committed head and fed everything since `watch`; every committed event is at or below that head or was not published before `watch` |
| `EndToEnd.DeliveryIsExact` | src/modules/realtime/realtime.gateway.ts:187-203 | what a socket delivered and buffers, in terms of the log its meeting's transactions committed |
| `EndToEnd.SkipIsSentExactly` | src/modules/realtime/realtime.gateway.ts:195-202 | what an advance skips is in the page that caused it if and only if nothing readable lies between the socket's cursor and where the page begins |
| `EndToEnd.AskingAheadExactly` | src/modules/realtime/realtime.gateway.ts:195-202 | where everything is readable, if and only if the client did not ask ahead of its socket |
| `JointRuns.LiftLog` | src/modules/chat/postgres-chat.repository.ts:103-160 | every run of a room's transactions continues a joint run, touching nothing but that room's log |
| `JointRuns.AskingAheadSkipsSilently` | src/modules/realtime/realtime.gateway.ts:195-202 | for every command whose event the reader could read there is a joint run that loses it: committed, lost by Redis, and skipped by a request ahead of the socket, with no callback and in no page that was sent |
| `EndToEnd.NothingIsMissed` | src/modules/realtime/realtime.gateway.ts:187-203 | if no page was asked for ahead of the socket, every event between its start and its cursor was delivered or lies in a page that was sent |
| `EndToEnd.CatchUpPlusLive` | src/modules/realtime/realtime.gateway.ts:395-452 | pages followed to the end, while the log grows and rows expire or are deleted, hold everything still readable once and in order, and the deliveries above the last watermark are exactly the committed log up to the cursor |
| `EndToEnd.CatchUpPlusLiveIsTheLog` | src/modules/realtime/realtime.gateway.ts:395-452 | for a reader who may see everything, without expiry, the pages followed by those deliveries are the committed log itself |
| `ServedPages.FollowedPagesArrive` | src/modules/realtime/realtime.gateway.ts:187-203 | answers to one socket that follow the next cursor, from a request not ahead of it until there is no more, bring it to the last page's watermark or past it, hold every readable event in between, and are never ahead of it |
| `ServedPages.CaughtUpSocket` | src/modules/realtime/realtime.gateway.ts:187-203 | then every event from the socket's start to that watermark was delivered live or lies in a page that was sent |
| `ServedPages.InBothExactly` | src/modules/realtime/realtime.gateway.ts:187-203 | an event was both delivered and in a page if and only if it lies between start and cursor, was not skipped, and is a readable event of the page's range |
| `LeasedDelivery.StepKeepsInv` | src/modules/chat/postgres-chat.repository.ts:459-494 | with commits that write message and leased row together and publications only by leased attempts, every step keeps: each row carries a committed event, each committed event has a row, and what a handler delivered was published |
| `LeasedDelivery.EveryEventHasARow` | src/modules/chat/postgres-chat.repository.ts:459-494 | in every run each committed event has a delivery row |
| `LeasedDelivery.ReachesEverybodyExactly` | src/modules/outbox/outbox-relay.ts:39-82 | whatever crashed or was lost, a run continues to one in which a row is acknowledged, its event published and heard as a message by every listener of the room, each active one delivering it unless it was history, skipped, waiting behind a hole or the listener overflowed, if and only if the row is not dead |
| `Outbox.RetryDelay` | src/modules/outbox/outbox-relay.ts:85-89 | the delay is at least the base and the plain backoff and at most the maximum |
| `Outbox.BackoffGrows` | src/modules/outbox/outbox-relay.ts:85-89 | the backoff doubles from attempt to attempt until it reaches the maximum |
| `Outbox.FirstBackoff` | src/modules/outbox/outbox-relay.ts:85-89 | the first attempt waits for the base delay |
| `Outbox.JitterIsExact` | src/modules/outbox/outbox-relay.ts:85-89 | the jitter is the whole part of the random share of a fifth of the backoff, nothing for a backoff below five |
| `Outbox.RetryDelayIsTight` | src/modules/outbox/outbox-relay.ts:85-89 | the delay exceeds the plain backoff by at most a fifth |
| `Outbox.OutboxRepository.ClaimBatch` | src/modules/outbox/postgres-outbox.repository.ts:30-70 | claims exactly the first candidates in delivery order, all of them if they fit, leases them and counts the attempt; arguments out of range change nothing |
| `Outbox.BatchIsEarliest` | src/modules/outbox/postgres-outbox.repository.ts:45-56 | in the table's terms: a batch holds only free rows, the earliest available first, then the oldest, then the lowest identifier, and what it leaves out comes after a full batch |
| `Ordering.First` | src/modules/outbox/postgres-outbox.repository.ts:53-54 | the first candidates in the order of two columns and the identifier, none skipped, as many as the limit allows |
| `Outbox.OutboxRepository.LeaseAll` | src/modules/outbox/postgres-outbox.repository.ts:57-62 | leases every selected row and counts its attempt, each once, and no other row |
| `Outbox.OutboxRepository.MarkPublished` | src/modules/outbox/postgres-outbox.repository.ts:73-88 | completes the row if and only if the caller owns an unexpired lease on an unfinished row |
| `Outbox.OutboxRepository.MarkFailed` | src/modules/outbox/postgres-outbox.repository.ts:91-125 | reschedules or kills the row if and only if the caller is named in it, dead exactly when attempts reached the maximum |
| `Outbox.OutboxRelay.PublishOne` | src/modules/outbox/outbox-relay.ts:39-82 | a success is acknowledged, a failure reported with backoff; the promise resolves exactly when the report took effect and its answer arrived |
| `Outbox.DeliveryOutcome` | src/modules/outbox/outbox-relay.ts:39-82 | only a successful publication makes a row published, and it does if the statement is sent under the worker's unexpired lease; a failed one of an owner leaves it dead or pending until a delay in the configured range; anything else leaves it alone |
| `Outbox.DeliveryIsSteps` | src/modules/outbox/outbox-relay.ts:39-82 | what one delivery does to the rows is what its steps in the lease machine do: publication, time, and acknowledgement or failure report |
| `Outbox.OutboxRelay.RunOnce` | src/modules/outbox/outbox-relay.ts:21-37 | one ordered claim; the deliveries reached are settled once each, all others stay untouched or leased, and the run stops early exactly when a report lost its lease or failed |
| `Outbox.OutboxRelay.PublishWindows` | src/modules/outbox/outbox-relay.ts:32-35 | the windows run in order until one has a promise that rejects |
| `Outbox.OutboxRelay.PublishWindow` | src/modules/outbox/outbox-relay.ts:33-34 | the deliveries of a window settle in any order, each once, with the same result |
| `RelayCycles.RelayCycle.ClaimDeliveries` | src/modules/outbox/outbox-relay.ts:23-30 | one ordered claim whose deliveries carry the attempt counts it returned |
| `RelayCycles.RelayCycle.OpenWindow` | src/modules/outbox/outbox-relay.ts:32-33 | whatever other workers did meanwhile, the next window opens only when the one before is through and nothing was rejected, and takes the next deliveries up to the concurrency |
| `RelayCycles.RelayCycle.EndDelivery` | src/modules/outbox/outbox-relay.ts:39-82 | a pending delivery ends on the row as it is then, gone, taken over or still owned; it is settled once, and the cycle is rejected exactly when a report lost its lease or failed |
| `Outbox.PublishFastPath` | src/modules/chat/manage-chat.use-case.ts:66-92 | publishes and acknowledges, or reports a failure when the publication, the lease or the acknowledging statement failed, even if that statement took effect; a replay without delivery touches nothing |
| `Outbox.FastPathOutcome` | src/modules/chat/manage-chat.use-case.ts:66-92 | the fast path publishes the row exactly on an acknowledgement under its unexpired lease after a successful publication, and otherwise its owner's report reschedules or kills it |
| `Outbox.StepKeepsInv` | src/modules/outbox/postgres-outbox.repository.ts:45-125 | every step of every worker keeps: published and dead exclusive and unleased, attempts equal initial value plus claims, dead only at the limit, published only after a delivery, next attempt within the longest retry |
| `Outbox.ExclusiveExactly` | src/modules/outbox/postgres-outbox.repository.ts:106-120 | a step keeps leases exclusive if and only if it is not a rescheduling report on a row held by another unexpired attempt of the same worker |
| `Outbox.LeaseIsExclusive` | src/modules/outbox/postgres-outbox.repository.ts:45-65 | in runs without such reports no row has two attempts with unexpired leases, and an unfinished row names the one that has |
| `Outbox.ReclaimNeedsExpiry` | src/modules/outbox/postgres-outbox.repository.ts:48-52 | where leases are exclusive, a claim finds every earlier attempt on the row expired |
| `Outbox.StaleReportBreaksExclusivity` | src/modules/outbox/postgres-outbox.repository.ts:106-120 | a concrete run in which exclusivity fails |
| `Outbox.AcksAreExclusive` | src/modules/outbox/postgres-outbox.repository.ts:73-88 | in every run a row is published only by the acknowledgement of an attempt whose publication succeeded, at the moment `published_at` names, while the row's unexpired lease named that attempt's worker |
| `Outbox.AckIsUnique` | src/modules/outbox/postgres-outbox.repository.ts:73-88 | no row is acknowledged twice |
| `OutboxClaims.NumbersStaySound` | src/modules/outbox/postgres-outbox.repository.ts:57-65 | in every run no attempt is numbered beyond its row's count, and the latest attempt's lease is the row's, if it has one |
| `OutboxClaims.LeaseWasClaimed` | src/modules/outbox/postgres-outbox.repository.ts:57-65 | every lease was set by the claim that the row's attempt count names |
| `OutboxClaims.AttemptWasClaimed` | src/modules/outbox/postgres-outbox.repository.ts:57-65 | every attempt began with the claim whose number and lease it carries |
| `OutboxClaims.ClaimIsUnique` | src/modules/outbox/postgres-outbox.repository.ts:57-65 | the claims of a row are told apart by their numbers |
| `OutboxClaims.AckedByHolderExactly` | src/modules/outbox/postgres-outbox.repository.ts:73-88 | in every run a winning acknowledgement completes the row under the claim its count names, made by its worker; that claim is the one that began the attempt if and only if the attempt carries that number, and otherwise the same worker claimed the row again since |
| `OutboxClaims.StaleAckWins` | src/modules/outbox/postgres-outbox.repository.ts:73-88 | a run in which an acknowledgement wins with another claim's lease, although its attempt's own lease has not run out |
| `Outbox.NothingIsLost` | src/modules/outbox/postgres-outbox.repository.ts:45-58 | after any crashes an unfinished row is claimable exactly when the clock has passed its availability and its lease, which happens within the longest retry |
| `Outbox.DeliveryStaysPossible` | src/modules/outbox/postgres-outbox.repository.ts:45-88 | every run that left a row unfinished, whatever crashed, continues to a run that publishes it |
| `Outbox.OutcomesAreEarned` | src/modules/outbox/outbox-relay.ts:44-82 | published only after the handler published, dead only with the budget used up, attempts equal the initial value plus claims |
| `Outbox.FinishedIsFinal` | src/modules/outbox/postgres-outbox.repository.ts:73-125 | published and dead rows never change again and attempts never go down |
| `SfuAdmission.JoinIsInjective` | src/modules/sfu-admission/postgres-sfu-admission.repository.ts:408 | lists of NUL-free texts with the same joined text are the same list |
| `SfuAdmission.ValidExactly` | src/modules/sfu-admission/postgres-sfu-admission.repository.ts:374-413 | revalidation succeeds if and only if the row is requested and matches identity, key and version, nothing it stands on ended, and the policy derives the same list |
| `SfuAdmission.FinalizesExactly` | src/modules/sfu-admission/postgres-sfu-admission.repository.ts:192-271 | finalization answers valid if and only if the row is requested for exactly this grant, the session, participant and meeting are usable, nothing changed and the policy derives the same list; it rolls back if and only if the row is missing, unjoined or no longer requested |
| `SfuAdmission.GrantsExactly` | src/modules/sfu-admission/postgres-sfu-admission.repository.ts:135-189 | a command is admitted if and only if its session, participant and meeting belong together and are usable, the policy derives permissions and a second is left; the grant carries what the tables say |
| `SfuAdmission.RolesFitTogether` | src/modules/sfu-admission/sfu-admission.policy.ts:52-69 | each product role goes with one SFU role, live roles with live meetings only |
| `SfuAdmission.UndisturbedAdmission` | src/modules/sfu-admission/manage-sfu-admission.use-case.ts:31-58 | prepare, sign and finalize with unchanged tables and before anything runs out end in a token with the derived permissions |
| `SfuAdmission.GrantIsBounded` | src/modules/sfu-admission/postgres-sfu-admission.repository.ts:145-150 | in whole seconds a token expires after its issue, at most the configured time later, not after its session nor its audit row |
| `SfuAdmission.SfuAdmissionRepository.Prepare` | src/modules/sfu-admission/postgres-sfu-admission.repository.ts:135-189 | reserves one requested row for an authorized and unused command, and otherwise changes nothing |
| `SfuAdmission.SfuAdmissionRepository.FinalizeGrant` | src/modules/sfu-admission/postgres-sfu-admission.repository.ts:192-271 | a requested row becomes issued or invalidated by the revalidation, an open meeting becomes active on success, anything else rolls back |
| `SfuAdmission.SfuAdmissionRepository.MarkSigningFailed` | src/modules/sfu-admission/postgres-sfu-admission.repository.ts:274-284 | only a requested row becomes sign_failed |
| `SfuAdmission.SfuAdmissionRepository.InvalidateSession` | src/modules/sfu-admission/postgres-sfu-admission.repository.ts:287-300 | invalidates exactly the session's unexpired requested and issued rows and counts them |
| `SfuAdmission.SfuAdmissionRepository.Maintain` | src/modules/sfu-admission/postgres-sfu-admission.repository.ts:303-339 | invalidates the unlocked expired requests, oldest expiry first, then deletes unlocked old finished rows, oldest first, each at most one batch and none skipped |
| `SfuAdmission.MaintenanceSweeps` | src/modules/sfu-admission/postgres-sfu-admission.repository.ts:303-339 | such a round is a sweep of the racing model and leaves locked rows alone |
| `SfuAdmission.StepKeepsInv` | src/modules/sfu-admission/manage-sfu-admission.use-case.ts:31-58 | every step keeps: tokens valid when finalized, one per drawn reservation, none while its row is requested, commands unique per session |
| `SfuAdmission.TokensAreMinted` | src/modules/sfu-admission/manage-sfu-admission.use-case.ts:31-58 | every token was returned by one step of the run, from the state whose tables and clock it was validated against |
| `SfuAdmission.TokenIsCurrent` | src/modules/sfu-admission/manage-sfu-admission.use-case.ts:31-58 | in every run a token was returned by a step from a state in which its own row was requested with the prepared identity, key and version, session, participant and meeting were usable, and the policy derived exactly the signed permissions |
| `SfuAdmission.OneTokenPerReservation` | src/modules/sfu-admission/postgres-sfu-admission.repository.ts:153-172 | no two tokens share a reservation and no two retained reservations share session and command |
| `SfuAdmission.StatesMoveForward` | src/modules/sfu-admission/postgres-sfu-admission.repository.ts:192-339 | rows go from requested to any outcome and from issued to invalidated only, keep their identity and never return after deletion |
| `SfuAdmission.BarredForever` | src/modules/sfu-admission/postgres-sfu-admission.repository.ts:374-413 | once a reservation is gone, settled or run out, no later step returns a token for it |
| `SfuAdmission.RevocationWins` | src/modules/sfu-admission/postgres-sfu-admission.repository.ts:287-300 | after a revocation no request with a reservation of that session gets a token, wherever it was between prepare and finalize, and no grant of it stays issued unless it had run out |
| `RateLimiter.RedisBucket.Evaluate` | src/modules/chat/chat-rate-limiter.ts:24-43 | the script's decision, stored bucket and expiry, as the bucket functions define them |
| `RateLimiter.WindowBound` | src/modules/chat/chat-rate-limiter.ts:24-43 | on a nondecreasing clock any interval of d milliseconds allows at most burst plus rate times d commands, in thousandths |
| `RateLimiter.BurstIsGranted` | src/modules/chat/chat-rate-limiter.ts:27-37 | of the calls of a new subject at one instant exactly the first `burst` are allowed |
| `RateLimiter.SustainedRateIsGranted` | src/modules/chat/chat-rate-limiter.ts:27-37 | a client that keeps to the sustained rate is never refused |
| `RateLimiter.RetentionIsLeast` | src/modules/chat/chat-rate-limiter.ts:41 | an idle key is kept for the least number of milliseconds that would refill it twice |
| `RateLimiter.PaidForExactly` | src/modules/chat/chat-rate-limiter.ts:31-40 | what one call grants and leaves is covered by the refill since the last call if and only if the clock has not stepped back |
| `RateLimiter.AnyClockBound` | src/modules/chat/chat-rate-limiter.ts:31-40 | on any clock every stretch of calls allows at most burst plus rate times the clock's forward moves |
| `RateLimiter.RegressingClockBreaksTheBound` | src/modules/chat/chat-rate-limiter.ts:31-40 | a concrete trace in which a clock stepping back exceeds the window bound |
| `RateLimiter.ExpiryIsUnobservable` | src/modules/chat/chat-rate-limiter.ts:27-41 | a run whose due keys vanish answers exactly like one that keeps them |
| `RateLimiter.RetryHintIsExact` | src/modules/chat/chat-rate-limiter.ts:34-39 | after a denial, and whatever denied calls follow, a call succeeds if and only if it comes at or after the hinted time |
| `RateLimiter.ChatRateLimiter.ConsumeFallback` | src/modules/chat/chat-rate-limiter.ts:77-97 | decision and new map as the local bucket functions define them; the map stays well formed |
| `RateLimiter.ChatRateLimiter.RefillBucket` | src/modules/chat/chat-rate-limiter.ts:80-85 | the refilled bucket of a known or new subject |
| `RateLimiter.ChatRateLimiter.RememberFallback` | src/modules/chat/chat-rate-limiter.ts:99-106 | evicts the oldest entry for a new subject at the bound and moves the subject to the end |
| `RateLimiter.KeepsMostRecent` | src/modules/chat/chat-rate-limiter.ts:99-106 | in every run the map holds exactly the most recently consumed subjects, at most 10,000 |
| `RateLimiter.FallbackRefinesScript` | src/modules/chat/chat-rate-limiter.ts:77-97 | in exact arithmetic with at most 10,000 subjects the fallback answers every command like the script, delays included |
| `Presence.ExpireKeeps` | src/modules/presence/presence-scripts.ts:13-16 | key expiry keeps the invariant and never takes a fresh connection or its revision |
| `Presence.ScriptKeeps` | src/modules/presence/presence-scripts.ts:2-78 | every script keeps sorted set and hash equal, expiring together, outlived by the revision |
| `Presence.PresenceAgrees` | src/modules/presence/presence-scripts.ts:2-78 | so in every reachable state |
| `Presence.ChangesRaiseRevision` | src/modules/presence/presence-scripts.ts:2-78 | a script that changes the stored connections raises the revision, and none lowers it |
| `Presence.HeartbeatFlagIsExact` | src/modules/presence/presence-scripts.ts:21-46 | `changed` is set exactly when the stored set changed, `present` exactly when the connection was known and not stale |
| `Presence.OpenedIsPresent` | src/modules/presence/presence-scripts.ts:2-18 | an opened connection is present with its detail until one TTL later and no longer, every other unpurged one is kept, one revision is counted, and all keys are kept for two TTLs |
| `Presence.BeatIsPresent` | src/modules/presence/presence-scripts.ts:21-46 | a heartbeat renews a known, unpurged connection for one TTL and nothing else |
| `Presence.ClosedIsGone` | src/modules/presence/presence-scripts.ts:49-56 | closing removes the connection and no other, and counts a revision exactly if it was there |
| `Presence.SnapshotOnlyPurges` | src/modules/presence/presence-scripts.ts:59-69 | a snapshot changes nothing but the purge |
| `Presence.RevisionIsMonotone` | src/modules/presence/presence-scripts.ts:2-78 | while a connection stays fresh the revision neither expires nor decreases |
| `Presence.StaleMembers` | src/modules/presence/presence-scripts.ts:62 | the stalest entries, all of them if they fit |
| `Presence.PresenceKeys.OpenConnection` | src/modules/presence/presence-scripts.ts:2-18 | purges, adds the connection to both collections, raises the revision and renews every expiry |
| `Presence.PresenceKeys.RefreshConnection` | src/modules/presence/presence-scripts.ts:21-46 | purges, and renews a known connection only |
| `Presence.PresenceKeys.CloseConnection` | src/modules/presence/presence-scripts.ts:49-56 | removes the connection and raises the revision only if it was there |
| `Presence.PresenceKeys.ReadSnapshot` | src/modules/presence/presence-scripts.ts:59-78 | counts the fresh connections and returns the details of the first of them, of all if they fit |
| `Presence.CollectRoles` | src/modules/presence/presence.service.ts:301-308 | one entry per named participant with the role of its last detail |
| `Presence.AggregateParticipants` | src/modules/presence/presence.service.ts:298-312 | the same, sorted by participant |
| `Presence.TakeSnapshot` | src/modules/presence/presence.service.ts:149-172 | an untruncated snapshot lists exactly the participants with a fresh connection, a truncated one only such; `truncated` is exact |
| `SignerExecutor.StepKeepsInv` | src/modules/sfu-admission/bounded-signer-executor.ts:22-60 | every step keeps slots and queue bounded, a waiting operation only behind full slots, starts in acceptance order and every operation accounted for |
| `SignerExecutor.SlotsAreBounded` | src/modules/sfu-admission/bounded-signer-executor.ts:22-60 | so over every run |
| `SignerExecutor.OperationsAreConserved` | src/modules/sfu-admission/bounded-signer-executor.ts:22-60 | over every run accepted operations are settled exactly once, running, queued, or lost to a synchronous throw |
| `SignerExecutor.NoThrowNoLeak` | src/modules/sfu-admission/bounded-signer-executor.ts:41-59 | if no operation throws synchronously, busy slots equal running operations and accepted equals settled plus unsettled running plus queued |
| `SignerExecutor.LeaksExactly` | src/modules/sfu-admission/bounded-signer-executor.ts:41-59 | over every run the lost slots are exactly those of the started operations that throw, in start order; none is lost if and only if none throws |
| `SignerExecutor.FinishedIsSettled` | src/modules/sfu-admission/bounded-signer-executor.ts:52-59 | a running operation that finishes or times out is settled once, and its completion gives its slot to the operation that waited longest |
| `SignerExecutor.ClosedForGood` | src/modules/sfu-admission/bounded-signer-executor.ts:34-39 | after shutdown nothing is accepted or started in any run, and everything that waited is settled |
| `SignerExecutor.LeakedSlotsStayLost` | src/modules/sfu-admission/bounded-signer-executor.ts:52-59 | a leaked slot never comes back |
| `SignerExecutor.LeakedExecutorIsStuck` | src/modules/sfu-admission/bounded-signer-executor.ts:52-59 | once every slot has leaked no operation ever starts again |
| `SignerExecutor.OneThrowIsEnough` | src/modules/sfu-admission/bounded-signer-executor.ts:41-52 | a run in which one throwing call takes the only slot |
| `SignerExecutor.BoundedSignerExecutor.constructor` | src/modules/sfu-admission/bounded-signer-executor.ts:10-19 | a new executor is idle and open |
| `SignerExecutor.BoundedSignerExecutor.ExecuteOperation` | src/modules/sfu-admission/bounded-signer-executor.ts:22-31 | takes the operation exactly when open and below queue capacity, and starts or queues it |
| `SignerExecutor.BoundedSignerExecutor.OnCompleted` | src/modules/sfu-admission/bounded-signer-executor.ts:54-59 | frees one slot and gives it to the head of the queue |
| `SignerExecutor.BoundedSignerExecutor.CloseExecutor` | src/modules/sfu-admission/bounded-signer-executor.ts:34-39 | rejects everything queued, leaves running operations alone and refuses new ones |
| `Fingerprint.HashInput` | src/modules/meetings/manage-anonymous-meetings.use-case.ts:99-109 | the bytes fed to the hash are the length-prefixed encoding of the parts |
| `Fingerprint.EncodingConcatenates` | src/modules/meetings/manage-anonymous-meetings.use-case.ts:99-109 | the hash input of a list is that of its parts one after the other |
| `Fingerprint.OnePartEncodes` | src/modules/meetings/manage-anonymous-meetings.use-case.ts:102-107 | one part is its byte length in decimal, a colon and its bytes |
| `Fingerprint.DecimalIsCanonical` | src/modules/meetings/manage-anonymous-meetings.use-case.ts:104 | the length is written in decimal digits without leading zeros |
| `Fingerprint.DecodeEncode` | src/modules/meetings/manage-anonymous-meetings.use-case.ts:99-109 | a decoder recovers the parts from the hash input |
| `Fingerprint.EncodingIsInjective` | src/modules/meetings/manage-anonymous-meetings.use-case.ts:99-109 | equal hash inputs mean equal part lists, of any lengths |
| `Fingerprint.CreateIsIdentified` | src/modules/meetings/manage-anonymous-meetings.use-case.ts:38-46 | equal creation inputs mean equal requests field by field |
| `Fingerprint.CreateInputIs` | src/modules/meetings/manage-anonymous-meetings.use-case.ts:38-46 | what is hashed for a creation, in order |
| `Fingerprint.JoinIsIdentified` | src/modules/meetings/manage-anonymous-meetings.use-case.ts:65-73 | equal join inputs mean equal requests, whatever the number of candidate digests |
| `Fingerprint.JoinInputIs` | src/modules/meetings/manage-anonymous-meetings.use-case.ts:65-73 | what is hashed for a join, in order |

## Left out

- Wiring: modules, controllers, configuration loaders, metrics, logging and health checks hold no state worth a proof.
- PostgreSQL, Redis, the key service and sockets appear only as transaction, lock, atomic-script and lossy-channel steps.
- ChatLog: the database transaction is a state machine on values, not a class, because its writes are private until commit. The authorization, epoch and write-policy checks of `accept` and the slow-mode check are steps that may end in a rollback; their conditions are not modelled.
- ChatLog: a commit whose outcome the client never learns, and the retry loop of the unit of work, which `accept` does not use.
- ChatLog.Initial: the stream head starts at 0, the default in migrations/0001_core_schema.sql:129-133.
- LiveDelivery: the lifetime of the Redis subscription across racing watches and unwatches, a failed subscribe, and exceptions thrown by a listener.
- LiveCursor.ChatLiveCursor.constructor: requires a positive buffer bound, where the source throws.
- Outbox.OutboxRelay.RunOnce: no other worker acts on the rows while this method runs; the same cycle as pieces, with anything in between, is `RelayCycles.RelayCycle`, and whole runs with other workers and crashes are in the step model. Abort signals and the publish deadline only decide whether a publication succeeds.
- Outbox.OutboxRelay.PublishWindow: likewise; within the window the deliveries settle in any order.
- Outbox: exclusive publication is not claimed, because the publish deadline starts at publish time and not at claim time.
- RateLimiter: Lua and JavaScript numbers are exact integers and reals here; rounding is not modelled. The choice between script and fallback on a Redis error is a single branch.
- Presence: unparsable details, the per-session connection index and the publication of revisions.
- Fingerprint: SHA-256 itself, and the normalization of display names.
- Fixed-window limiters, the socket message limiter, janitors and registries would add only easy members.
