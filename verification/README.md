# A model of flask_server's stateful core

This project models the parts of flask_server whose correctness depends on whole runs,
arbitrary chunkings or interleavings, and proves what they promise. `dafny verify
dfyconfig.toml` checks everything.

## What is modelled

**TCP message framing** (`Bytes`, `LineFraming`, `LineChunking`, `HeadTailFraming`,
`HeadTailChunking`, `TcpConnection`). A connection's receive buffer is cut in place by the frame
readers while `recv` delivers chunks of 1 to 4096 bytes. Each read loop is proved equal to a pure
run over the buffer and the chunks still to come; the runs are then related to the uncut byte
stream. Line framing is sandwiched between two chunk-free readings of the stream, both are
attained, and all chunkings agree exactly when the two do. Head/tail framing delivers exactly what
was sent under an exact condition, over all chunkings and for each one; it never invents a frame,
does a bounded amount of work for one frame, and recovers from a lost tail under exactly the
chunkings that are named.

**The task queues and their worker** (`Tasks`, `MemoryTaskQueue`, `QueueRuns`, `QueueBudget`,
`TaskStatus`, `TaskWorker`, `RedisTaskQueue`, `RedisTiming`, `RedisCopies`, `RedisCrashes`,
`RedisClient`, `RedisLineage`, `RedisProgress`). The in-process queue is a class whose methods are proved against a queue
value; runs of any number of producers and worker threads then conserve every task, serve in
order, honour delays and budgets, show each task's status as it is, and keep the bounded tables
equal to their unbounded histories.
The Redis queue is a transition system over stream, pending entries and delayed set, with
crashes, slow workers and reclaims: no task is lost, none is stuck, and there is exactly one copy
as long as only crashed workers are reclaimed; delays, backoffs and the visibility timeout are waited out
to the instant. `RedisCrashes` runs the same queue command by
command, lets every worker stop between any two commands, and shows where a task can be lost and
that it can be lost nowhere else.

**Windows over the TTL cache** (`MemoryCache`, `CacheLaws`, `Streaks`, `RateLimit`, `ClientQuota`,
`LoginGuard`, `LoginVerdicts`, `LoginRaces`, `LoginOperations`). The cache
refines a map of deadlines, with one exact exception. A counter whose every increment renews
its time to live counts a streak; from that follow the request quota per window, exactly when it
refuses, and the login lock. Requests and logins are split where other threads can come between
their parts, and the bound on failed logins is given for any number that overlap: with lock check
and settlement as one step each, and with every cache operation as a step of its own.

**Refresh tokens over an unreliable Redis** (`RedisCache`, `RefreshTokens`, `SessionEnds`). Several processes
share Redis and fall back to private memory through outages and cooldowns; a token is redeemed
at most once, exactly if its own write was honest, and a logout ends the session under an exact
condition.

**Smaller cores.** `Snowflake` (ids under any clock, UUID version 7), `ServerLifecycle` and
`ServerService` (slots, service, and the races of `start` and `stop` with handler threads), `ObjToDict` (cycle-safe conversion)
and `DependencyClosure` (the work list behind the constraints file). `Common` holds what several
modules share.

## Where the code and its comments disagree

The model follows the code.

- The limiter is described as a fixed window (`flask_server/component/rate_limit.py:6`). Every
  hit renews the counter's time to live (`flask_server/module/simple_memory_cache.py:82-83`), so
  the count is a streak that ends only after more than 60 silent seconds. A path's quota lets
  everything by if and only if no more than N requests follow one another at gaps of at most 60
  seconds (`PathQuotaIff`); with N = 2, requests at 0, 50 and 100 seconds are enough for a refusal
  (`SteadyClientRefused`).
- `login` is said to lock after `AUTH_LOGIN_MAX_FAILS` failures
  (`flask_server/component/auth.py:305-306`). Nothing is held between the lock check and the
  recording of a failure (`flask_server/component/auth.py:315-328`), so k overlapping attempts
  allow k - 1 failed checks more (`AtMostMaxFails`, and no fewer by `BoundIsAttained`). The limit
  itself holds over all schedules if and only if attempts on the account do not overlap
  (`MaxFailsIff`); `OverlappingLogins` is the smallest run. If cache operations of different
  attempts interleave too, a lock check that read an old lock may delete a new one
  (`flask_server/component/auth.py:265-275`); then at most the limit times k(k+1)/2 checks
  fail (`AtMostTriangle`), and with a limit of one and k = 2 that many do (`StaleDeletionIsReached`).
- The length check is said not to depend on chunking (`flask_server/module/tcp_server.py:264`).
  While a frame is incomplete, delimiter bytes count towards the limit. For lines, all chunkings
  of a stream deliver the same frames if and only if measuring its pieces with all but one
  separator byte delivers what measuring them alone does (`LineChunkingIff`); two bytes and CR LF
  against a limit of two come out in one read and not byte by byte (`GapPieceBothWays`). For
  head/tail frames, a chunking delivers a stream if and only if no payload is too long and no read
  ends where a check of the frame it stops in fails (`HeadTailChunkingIff`); `ChunkingDecidesIff`
  says for which frames some chunkings pass and others do not, and `FrameBothWays` is an input.
- A lost frame tail is said to be recovered from on the next head
  (`flask_server/module/tcp_server.py:289-290`). That happens if and only if some read ends behind
  the second head and before the last byte of its frame (`LostTailRecoveryIff`); otherwise the two
  frames come out as one, or the connection ends if that one is too long.
- `expire` on a key that is expired but not yet swept brings it back
  (`flask_server/module/simple_memory_cache.py:103-108`); `FaithfulIff` shows that this is the
  only departure from a plain map of deadlines, and `ExpireRevives` gives a run.
- Redis retries are described as at least once. A worker that stops, or whose command fails,
  behind the XACK of a retry or burial and before the ZADD or LPUSH
  (`flask_server/module/task_queue.py:459-461`, `:478-480`), or a promoter between ZREM and XADD
  (`:408-410`), loses the task if it has no other copy. `NoLossOutsideGaps` shows that nothing else
  loses one, `StopLosesIff` exactly when a stop does, and `StopInsideSettlement` and
  `StopInsidePromotion` reach every gap from the empty queue. The gap opens at the XACK: a message
  acknowledged but not deleted is never delivered again.
- `_runtime_closure` is said to keep only requirements in effect on the platform
  (`scripts/freeze_constraints.py:49`), but a direct requirement is kept whatever its marker. The
  claim holds if and only if each direct requirement is reachable from those whose markers hold
  (`OnlyInEffectIff`).
- A start that fails after setting `_server` (`flask_server/module/protocol_server.py:148-160`)
  can leave a connection tracked by a stopped server (`RollBackLeavesOneTracked`). It does no harm
  under any schedule if and only if, when start was called, no earlier accept loop was still
  running and no connection was on its way to be tracked (`RollbackHarmlessIff`).

## Conventions

Time is a parameter of each operation and a real number of seconds (of milliseconds for
Snowflake); where a theorem needs a clock that does not go back it says so. Network outcomes,
handler results and password checks are parameters too. `requires` clauses on limits repeat
what `flask_server/config.py` enforces (lines 123-126, 233-236, 259-268, 303-328). Task ids and
tokens are taken to be fresh when they are issued.

## Model

| member | source | states |
|---|---|---|
| Bytes.Find | flask_server/module/tcp_server.py:258 | the leftmost occurrence at or behind a start, or -1 only if there is none |
| Bytes.FindStable | flask_server/module/tcp_server.py:258 | bytes received later never move a delimiter that is already complete |
| LineFraming.PiecesOfJoin | flask_server/module/tcp_server.py:255-262 | cutting a joined stream gives back the pieces that were joined |
| LineFraming.JoinOfPieces | flask_server/module/tcp_server.py:255-262 | joining the pieces of any stream gives back the stream: cutting loses nothing |
| LineFraming.PiecesEndFirst | flask_server/module/tcp_server.py:258-261 | each piece ends at the first separator behind its start |
| LineFraming.LineSandwich | flask_server/module/tcp_server.py:254-273 | under every chunking the frames lie between the pieces that fit with all but one separator byte and those that fit alone; a run ended by the peer lost nothing; with a one-byte separator the result depends on the stream only |
| LineFraming.OneByteSeparator | flask_server/module/tcp_server.py:254-273 | with a one-byte separator, the default included, frames and ending depend on the stream only |
| LineFraming.LongPieceEndsConnection | flask_server/module/tcp_server.py:264-267 | a piece above the limit is never delivered and the connection does not outlive it |
| LineFraming.LineBytewise | flask_server/module/tcp_server.py:269-273 | byte-by-byte arrival meets the lower bound exactly, so it cannot be raised |
| LineFraming.FitDelivers | flask_server/module/tcp_server.py:254-273 | pieces that fit with all but one separator byte are delivered under every chunking |
| LineFraming.FitEndsClosed | flask_server/module/tcp_server.py:254-273 | when all pieces and the rest fit, the run ends with the peer's close and nothing else |
| LineFraming.GapLoses | flask_server/module/tcp_server.py:269-271 | pieces that do not are lost when bytes arrive one by one |
| LineFraming.LineDeliveryIff | flask_server/module/tcp_server.py:254-273 | every chunking delivers every non-empty piece if and only if each piece needed fits with all but one separator byte |
| LineChunking.LineChunkingIff | flask_server/module/tcp_server.py:254-273 | all chunkings of a stream deliver the same frames if and only if the lower and the upper reading of its pieces agree |
| LineChunking.BothReadingsAttained | flask_server/module/tcp_server.py:254-273 | every chunking delivers something between the two readings; byte by byte meets the lower, and separators sent whole behind bytewise pieces meet the upper |
| LineChunking.GapPieceBothWays | flask_server/module/tcp_server.py:264-271 | with CR LF and a limit of two, a two-byte line is delivered in one read and refused byte by byte |
| LineChunking.CeilingInWords | flask_server/module/tcp_server.py:234-273 | the upper reading measures pieces against the limit, less what a separator has beyond one read of 4096 bytes |
| LineFraming.LineRoundTrip | flask_server/module/tcp_server.py:254-273 | what a sender joins is what every chunking delivers, and the connection then ends with the peer's close |
| HeadTailFraming.HeadArrived | flask_server/module/tcp_server.py:299-308 | a complete head is found where the garbage in front of it ends, whatever arrived behind it |
| HeadTailFraming.TailArrived | flask_server/module/tcp_server.py:309-322 | a complete frame is cut exactly where it ends |
| HeadTailFraming.HeadTailRoundTrip | flask_server/module/tcp_server.py:284-336 | every chunking of well-formed frames, garbage in between included, delivers the payloads in order with no resync |
| HeadTailFraming.HeadTailSound | flask_server/module/tcp_server.py:284-336 | on every stream, delivered payloads stood between a head and a tail, disjoint and in order |
| HeadTailFraming.HeadTailRoundTripIff | flask_server/module/tcp_server.py:300-336 | a frame survives every chunking if and only if no second head completes before its last byte and both size checks pass with one byte missing |
| HeadTailFraming.AllRoundTripIff | flask_server/module/tcp_server.py:284-336 | a stream of frames, garbage in between included, is delivered whole under every chunking if and only if each frame meets that condition |
| HeadTailFraming.BytewiseClean | flask_server/module/tcp_server.py:299-336 | of any stream, byte-by-byte arrival delivers only payloads whose frames hold no second head before their last byte and pass the size check without it |
| HeadTailChunking.HeadTailChunkingIff | flask_server/module/tcp_server.py:299-336 | a chunking delivers a stream of frames, garbage in front of the first, whole if and only if no payload is too long and no read ends where the bytes received fail a check of the frame they stop in |
| HeadTailChunking.SomeRoundTripIff | flask_server/module/tcp_server.py:299-336 | some chunking delivers a frame if and only if its payload is not too long and reads of 4096 bytes can step over the ends they must avoid |
| HeadTailChunking.ChunkingDecidesIff | flask_server/module/tcp_server.py:299-336 | exactly the frames that some chunkings deliver and others do not |
| HeadTailChunking.FrameBothWays | flask_server/module/tcp_server.py:309-336 | with a limit of three, a two-byte payload between STX and CR LF is delivered in one read and refused byte by byte |
| HeadTailChunking.OneReadDelivers | flask_server/module/tcp_server.py:234-336 | a frame that one read of 4096 bytes can bring is delivered by some chunking if and only if its payload is not too long |
| HeadTailFraming.LostTailRecoveryIff | flask_server/module/tcp_server.py:309-336 | behind a lost tail, a chunking delivers the next frame alone if and only if some read ends behind its head and before its last byte; under any other the two merge, or end the connection when too long |
| HeadTailFraming.LostTailRecovers | flask_server/module/tcp_server.py:323-331 | hence byte-by-byte arrival resynchronises once and delivers the next frame |
| HeadTailFraming.LostTailMerges | flask_server/module/tcp_server.py:309-322 | hence the same bytes in one chunk come out as one frame with the second head inside it |
| HeadTailFraming.DropGarbage | flask_server/module/tcp_server.py:307-308 | bytes in front of the first head have no effect on the rest of the run |
| HeadTailFraming.ResyncLimit | flask_server/module/tcp_server.py:323-331 | each head behind a head resynchronises once; 256 in a row are survived and the next ends the connection |
| HeadTailFraming.FrameResetsResyncs | flask_server/module/tcp_server.py:309-322 | a delivered frame is cut off with its tail and starts the count of resyncs again |
| TcpConnection.Config.Effective | flask_server/module/tcp_server.py:136-156 | a framing that is unknown, or whose own settings are unusable, becomes line framing; an empty separator becomes a newline, a limit that is not positive the configured one; everything else is kept |
| TcpConnection.Connection.RecvMore | flask_server/module/tcp_server.py:234-247 | appends one chunk, or reports the end; no byte is lost |
| TcpConnection.Connection.CutGarbage | flask_server/module/tcp_server.py:307-308 | cuts the bytes in front of the head, and the run is the same as before |
| TcpConnection.Connection.ReadLineFrame | flask_server/module/tcp_server.py:254-273 | returns the next frame of the run or its end, within the buffer bound of limit plus 4096, and uses up input |
| TcpConnection.Connection.ReadFixedFrame | flask_server/module/tcp_server.py:275-282 | returns exactly the next frame-length bytes of the stream, or ends when fewer come; the buffer stays below frame length plus 4096 |
| TcpConnection.Connection.HeadTailTurn | flask_server/module/tcp_server.py:299-336 | one turn of the loop follows the run; only a resync or the first garbage drop cuts bytes without delivering |
| TcpConnection.Connection.ReadHeadTailFrame | flask_server/module/tcp_server.py:284-336 | returns the next frame of the run or its end; receives at most 258 times (limit + 4096) bytes for one frame; the buffer stays within limit plus 4096 |
| TcpConnection.Connection.HandleLines | flask_server/module/tcp_server.py:61-66 | the handler sees exactly the run's frames, hence the sandwich over the whole stream |
| TcpConnection.Connection.HandleHeadTail | flask_server/module/tcp_server.py:61-66 | the handler sees exactly the run's frames and its resync count |
| Tasks.DecisionByCases | flask_server/module/task_worker.py:131-163 | an unregistered task is buried, a success acknowledged, a failure retried behind backoff * 2^attempts while its limit allows and buried otherwise; the envelope's limit comes before its task's, and that before the global one |
| Tasks.RetryBudget | flask_server/module/task_worker.py:143-163 | a failing task runs until its budget is spent, is buried by exactly that run, and its delays double |
| Tasks.FreshTaskBudget | flask_server/module/task_worker.py:143-163 | from attempt 0 with limit m, by the envelope, else its task, else globally: at most m + 1 runs, burial exactly by failure m + 1, delays summing to backoff * (2^m - 1) |
| Tasks.ReclaimsSpendBudget | flask_server/module/task_queue.py:512-516 | reclaims only use the budget up: a lineage never has more failing runs than it allows |
| MemoryTaskQueue.DueCount | flask_server/module/task_queue.py:252-258 | the entries a promotion takes: all due, and the next one not |
| MemoryTaskQueue.LatestMeans | flask_server/module/task_queue.py:321-326 | the table's unbounded meaning: each id once, with its last record |
| MemoryTaskQueue.TableTracksHistory | flask_server/module/task_queue.py:321-326 | evicting at every write keeps what evicting once at the end would keep |
| MemoryTaskQueue.DequeTracksHistory | flask_server/module/task_queue.py:224-294 | the dead-letter deque is the tail of the whole dead history |
| MemoryTaskQueue.PushSorted | flask_server/module/task_queue.py:247-250 | pushing keeps the heap strictly ordered by time and sequence number, and adds just that entry |
| MemoryTaskQueue.StepsKeepOrder | flask_server/module/task_queue.py:230-295 | every operation keeps the heap in strict (time, number) order: no two entries tie, so envelopes are never compared |
| MemoryTaskQueue.PromotionIsExact | flask_server/module/task_queue.py:252-258 | a promotion leaves exactly the entries strictly in the future |
| MemoryTaskQueue.MemoryTaskQueue.constructor | flask_server/module/task_queue.py:218-227 | an empty queue; a bound that is missing or zero is replaced by the configured one |
| MemoryTaskQueue.MemoryTaskQueue.SetStatus | flask_server/module/task_queue.py:321-326 | the record moves to the end and the oldest ones are evicted |
| MemoryTaskQueue.MemoryTaskQueue.PushDelayed | flask_server/module/task_queue.py:247-250 | a fresh sequence number, and the entry at its place in the heap |
| MemoryTaskQueue.MemoryTaskQueue.Enqueue | flask_server/module/task_queue.py:230-245 | a delayed task enters the heap with its due time, any other the back of the ready line; its record says queued or retrying |
| MemoryTaskQueue.MemoryTaskQueue.PromoteDue | flask_server/module/task_queue.py:252-258 | the loop moves the whole due front, in order, behind the ready tasks |
| MemoryTaskQueue.MemoryTaskQueue.TryReserve | flask_server/module/task_queue.py:264-269 | one pass: promote, then take the first ready task and mark it running |
| MemoryTaskQueue.MemoryTaskQueue.Ack | flask_server/module/task_queue.py:277-279 | only the status changes: the task's one record says succeeded, with its id, name, attempts and error |
| MemoryTaskQueue.MemoryTaskQueue.Retry | flask_server/module/task_queue.py:281-288 | the same task with one attempt more and the error, due behind a delay that is never negative; its record says retrying |
| MemoryTaskQueue.MemoryTaskQueue.Kill | flask_server/module/task_queue.py:290-295 | a record saying dead, with the error, joins the dead letters, whose oldest is dropped when full, and the status table |
| MemoryTaskQueue.MemoryTaskQueue.GetStatus | flask_server/module/task_queue.py:298-303 | a record of that id, or none only if the table has none |
| QueueRuns.EveryRun | flask_server/module/task_queue.py:215-326 | under every interleaving each task is in exactly one place, both tables equal their cut histories, the heap stays ordered |
| QueueRuns.ReservedTakesHead | flask_server/module/task_queue.py:261-269 | a reservation takes the head of the line formed by ready tasks and heap, or nothing |
| QueueRuns.ServedInOrder | flask_server/module/task_queue.py:261-269 | of two tasks in line, the one behind is never reserved first, whatever else happens |
| QueueRuns.HeapOrderIsLineOrder | flask_server/module/task_queue.py:247-258 | of two tasks in the heap, the smaller (time, number) is ahead in that line |
| QueueRuns.DelayedInOrder | flask_server/module/task_queue.py:247-258 | a delayed task stands behind every delayed one that is due no later: equal times are served in order of arrival |
| QueueRuns.ReadyInOrder | flask_server/module/task_queue.py:230-245 | a task without delay stands behind the ready ones and ahead of the delayed ones |
| QueueRuns.InspectionPromotes | flask_server/module/task_queue.py:305-309 | looking at the queue moves what is due to the ready line and nothing else: whose turn it is stays as it was |
| QueueRuns.NotBeforeDue | flask_server/module/task_queue.py:252-275 | no task is reserved before its available time |
| QueueRuns.DelayIsHonoured | flask_server/module/task_queue.py:230-275 | a task enqueued with a delay waits it out |
| QueueRuns.BackoffIsHonoured | flask_server/module/task_worker.py:153-158 | a task whose run failed is not reserved again before its exponential backoff is over |
| QueueBudget.BudgetOverRuns | flask_server/module/task_worker.py:143-163 | in every run, a task enqueued once with limit m fails at most once more than it may be retried, is buried exactly when that many runs have failed, its delays double from the first, and every copy is what was enqueued but for attempts and last error |
| QueueBudget.StepSpends | flask_server/module/task_queue.py:230-295 | every action keeps each copy of a task at the attempt its failing runs so far give it, within its budget |
| TaskStatus.EnqueueShows | flask_server/module/task_queue.py:230-245 | behind an enqueue the newest record is the task's: queued, or retrying if it has attempts, with its id, name, attempts and error |
| TaskStatus.ReserveShows | flask_server/module/task_queue.py:264-269 | behind a reservation the task's one record says running |
| TaskStatus.FinishShows | flask_server/module/task_queue.py:277-295 | behind a settlement it says succeeded, retrying with one attempt more and the error, or dead with the error; a burial also ends the dead letters |
| TaskStatus.StatusUntilNext | flask_server/module/task_queue.py:298-326 | until something happens to the task again, whatever the table shows for it is that record |
| TaskStatus.StatusOfALife | flask_server/module/task_queue.py:230-303 | through any interleaving a task that succeeds is shown queued, then running, then succeeded |
| TaskWorker.TaskWorker.Count | flask_server/module/task_worker.py:178-182 | processed goes up by one, failed only with a burial |
| TaskWorker.TaskWorker.Handle | flask_server/module/task_worker.py:133-168 | exactly one settlement for a reservation; buried if and only if unregistered or failed at the limit, which is the envelope's, else its task's, else the global one; processed equals acks plus burials and failed equals burials |
| TaskWorker.TaskWorker.ProcessOne | flask_server/module/task_worker.py:82-93 | at most one task is reserved, and if one is, it is settled once |
| RedisTaskQueue.StepConsistent | flask_server/module/task_queue.py:396-517 | every step keeps stream, pending entries, group position and workers' hands consistent |
| RedisTaskQueue.RemoveKeeps | flask_server/module/task_queue.py:443-447 | deleting a message touches no other task |
| RedisTaskQueue.FinishKeeps | flask_server/module/task_queue.py:443-486 | a settlement, stale or not, removes no copy of another task and none of its own that still counts |
| RedisTaskQueue.StepLosesNothing | flask_server/module/task_queue.py:396-517 | every step leaves each unfinished task at least one copy |
| RedisTaskQueue.NoLoss | flask_server/module/task_queue.py:396-517 | over every run with crashes between client methods, slow workers and reclaims, each task not yet done with has a copy in the stream or among the delayed |
| RedisTaskQueue.StartsWell | flask_server/module/task_queue.py:344-371 | the empty queue is a state those runs may start from |
| RedisTaskQueue.StaleSettlementIsHarmless | flask_server/module/task_queue.py:443-465 | a worker whose task was reclaimed removes nothing when it settles after all |
| RedisTiming.DelayIsHonoured | flask_server/module/task_queue.py:373-388 | a task enqueued with a delay is in no worker's reach before it is over, and due right then; without one it is in the stream at once |
| RedisTiming.BackoffIsHonoured | flask_server/module/task_queue.py:454-462 | a task whose run failed at attempt n, with retries left, is in no worker's reach before backoff * 2^n seconds are over, and due right then, with one attempt more and the error |
| RedisTiming.ReclaimIsDelayed | flask_server/module/task_queue.py:512-516 | a reclaimed task waits the backoff, but at least nothing and at most a minute |
| RedisTiming.PutBackIsDelayed | flask_server/module/task_queue.py:408-412 | a promotion whose XADD failed waits five seconds |
| RedisTiming.PromotionDelivers | flask_server/module/task_queue.py:405-410 | a promoted task is in the stream behind all others, unchanged, and no longer delayed |
| RedisTiming.DueIsPromotable | flask_server/module/task_queue.py:396-410 | exactly the delayed tasks whose time has come can be promoted |
| RedisTiming.VisibilityIsHonoured | flask_server/module/task_queue.py:488-497 | a message handed to a worker that does not settle it stays where it is, and cannot be claimed, until the visibility timeout is over |
| RedisTiming.StaleIsClaimable | flask_server/module/task_queue.py:488-497 | exactly the messages pending that long can be claimed |
| RedisTiming.CrashLeavesItPending | flask_server/module/task_queue.py:488-497 | a crash takes the task from its worker alone and leaves its message pending, to be claimed in time |
| RedisCopies.ExactlyOneCopy | flask_server/module/task_queue.py:396-517 | if only crashed workers are reclaimed, a task has one copy until it is done with and none afterwards, and never both succeeds and dies |
| RedisCopies.SlowWorkerDuplicates | flask_server/module/task_queue.py:488-517 | reclaiming a slow worker's task can leave two copies |
| RedisCopies.RemovalGapIff | flask_server/module/task_queue.py:443-484 | a crash right behind the removal of a message loses nothing if and only if its task is done with or has another copy |
| RedisCopies.CrashInsideRetryLoses | flask_server/module/task_queue.py:458-461 | hence a crash between deletion and scheduling loses a task with a single copy |
| RedisCrashes.NoLossOutsideGaps | flask_server/module/task_queue.py:396-517 | over every run in which workers stop between any two commands, only tasks some worker was carrying between removal and re-adding when it stopped can be lost |
| RedisCrashes.ActLoses | flask_server/module/task_queue.py:396-517 | every single command, put-back or stop loses at most what its worker was carrying |
| RedisCrashes.StopLosesIff | flask_server/module/task_queue.py:396-486 | a stop loses nothing if and only if all the worker carries is done with, alive elsewhere or carried by another |
| RedisCrashes.StopInsideSettlement | flask_server/module/task_queue.py:458-480 | runs from the empty queue that lose the task behind the XACK and behind the XDEL, of a retry and of a burial |
| RedisCrashes.StopInsidePromotion | flask_server/module/task_queue.py:406-412 | a run from the empty queue that loses the task between ZREM and XADD |
| RedisCrashes.UninterruptedSettlement | flask_server/module/task_queue.py:443-480 | the commands of a settlement that nothing interrupts add up to its one step |
| RedisCrashes.UninterruptedReclaim | flask_server/module/task_queue.py:494-517 | so do those of a reclaim |
| RedisCrashes.UninterruptedPromotion | flask_server/module/task_queue.py:406-412 | so do those of a promotion; with a failed XADD the member is scheduled five seconds later |
| RedisCrashes.OtherActsAgree | flask_server/module/task_queue.py:373-441 | submitting, waiting and reading are the one-step moves of the queue |
| RedisCrashes.ClaimInWords | flask_server/module/task_queue.py:494-497 | a claim succeeds exactly on a message that is pending for the visibility timeout, and starts that timeout again for everybody else |
| RedisLineage.LineageBudget | flask_server/module/task_worker.py:143-163 | over every Redis run, the line of copies that descends from one has no more failing runs than that copy had left, whatever retries and reclaims come between |
| RedisLineage.StepSpends | flask_server/module/task_queue.py:454-517 | a step from one copy to the next never gives budget back, and a failing run uses some up |
| RedisLineage.DescendantStands | flask_server/module/task_queue.py:396-517 | a lineage is followed from copy to copy: where it says a copy went, a copy of the same task is |
| RedisClient.Client.Enqueue | flask_server/module/task_queue.py:373-388 | the enqueue step: into the delayed set or onto the stream, and the status written |
| RedisClient.Client.Ack | flask_server/module/task_queue.py:443-447 | acknowledging and deleting is the removal step; the status says succeeded |
| RedisClient.Client.Kill | flask_server/module/task_queue.py:467-484 | the removal step, a record saying dead in front of the bounded dead-letter list, and in the status |
| RedisClient.Client.Reserve | flask_server/module/task_queue.py:414-441 | promotion, then the lowest undelivered message, which becomes pending and is noted as running; nothing only if there is none |
| RedisClient.Client.Retry | flask_server/module/task_queue.py:454-462 | the three commands add up to the reschedule step: the message is gone and the task with one attempt more and the error is due behind a delay that is never negative; the status says retrying |
| RedisClient.Client.PromoteDelayed | flask_server/module/task_queue.py:396-412 | at most once a second, and then moves exactly the members of the answer that are still there; one whose XADD fails is scheduled again five seconds later |
| RedisClient.Client.ReclaimStale | flask_server/module/task_queue.py:488-517 | reschedules each claimed message that still exists, writes its status and returns how many there were |
| RedisClient.ReclaimCounts | flask_server/module/task_queue.py:501-517 | claimed messages that exist, each claimed once, are all counted |
| RedisClient.AllPosted | flask_server/module/task_queue.py:405-412 | when no XADD fails, the batch is the plain promotion of its members |
| RedisClient.PromotionIsARun | flask_server/module/task_queue.py:396-412 | an undisturbed promotion, put-backs included, is a run of single promotion steps |
| RedisClient.ReclaimIsARun | flask_server/module/task_queue.py:494-517 | an undisturbed reclaim is a run of single reclaims |
| RedisProgress.MoveStaysSane | flask_server/module/task_queue.py:396-517 | waiting, batches, reservations and settlements keep the state consistent |
| RedisProgress.TakenAndSettled | flask_server/module/task_queue.py:414-486 | taking one message and settling it moves the group on and leaves every other message where it was |
| RedisProgress.TakeUntil | flask_server/module/task_queue.py:414-441 | one worker that settles what it takes reaches an undelivered message, each reservation raising the group's position |
| RedisProgress.PromoteUntil | flask_server/module/task_queue.py:396-410 | a due task is reached by promotions of 100, each shrinking the delayed set |
| RedisProgress.ReclaimUntil | flask_server/module/task_queue.py:488-517 | a stale message is reached by reclaims of 10, each shrinking the pending set |
| RedisProgress.Drain | flask_server/module/task_worker.py:111-114 | the worker's reservations and settlements lead to the idle state in which it reclaims, and disturb nothing pending |
| RedisProgress.NeverStuck | flask_server/module/task_queue.py:396-517 | from every consistent state, a schedule of waiting, reclaims, promotions, reservations and settlements of one fixed worker brings any task with a copy into that worker's hands, however its handlers judge the others |
| RedisProgress.ScheduleIsARun | flask_server/module/task_queue.py:396-517 | every such schedule is a run of the queue's own steps |
| RedisProgress.BatchesInWords | flask_server/module/task_queue.py:396-405 | promotions come at least a second apart and take all that is due or a hundred of it; reclaims come thirty seconds apart, when the stream is drained, and take all that is stale or ten of it |
| RedisProgress.BatchesExist | flask_server/module/task_queue.py:396-405 | such batches exist whenever the intervals are over |
| MemoryCache.FaithfulIff | flask_server/module/simple_memory_cache.py:23-124 | each operation follows a map of deadlines exactly, unless it extends an entry that is expired but still stored |
| MemoryCache.CacheRefines | flask_server/module/simple_memory_cache.py:23-124 | under a clock that does not go back, whole runs reply as the map of deadlines does |
| MemoryCache.SweeperInvisible | flask_server/module/simple_memory_cache.py:110-144 | without `expire`, replies do not depend on when or whether the sweeper runs |
| MemoryCache.ExpireRevives | flask_server/module/simple_memory_cache.py:103-108 | with `expire` they do: the same entry is gone or alive |
| CacheLaws.SetThenGet | flask_server/module/simple_memory_cache.py:23-48 | a value is found until its time to live is over, and always without one |
| CacheLaws.GetDelTakes | flask_server/module/simple_memory_cache.py:55-69 | reading and deleting finds what a lookup finds, and leaves nothing |
| CacheLaws.DeleteForgets | flask_server/module/simple_memory_cache.py:50-93 | a deleted key is not found |
| CacheLaws.ExistsMeansFound | flask_server/module/simple_memory_cache.py:95-101 | a key exists if and only if a lookup finds it |
| CacheLaws.IncrCounts | flask_server/module/simple_memory_cache.py:71-86 | counting goes on from the number found, from zero otherwise, and renews the time to live |
| CacheLaws.CountReads | flask_server/module/simple_memory_cache.py:76-81 | a fraction counts as its whole part, text that is no number as zero |
| CacheLaws.ExpireRenews | flask_server/module/simple_memory_cache.py:103-108 | a new time to live counts from the moment it is set |
| CacheLaws.OthersAreLeft | flask_server/module/simple_memory_cache.py:23-124 | no operation, sweeps included, changes what is found under another key |
| CacheLaws.SweptMeans | flask_server/module/simple_memory_cache.py:110-118 | a sweep drops exactly what has expired |
| MemoryCache.SimpleMemoryCache.Set | flask_server/module/simple_memory_cache.py:23-33 | stores the value; a zero or missing ttl clears the expiry |
| MemoryCache.SimpleMemoryCache.Get | flask_server/module/simple_memory_cache.py:35-48 | deletes an expired entry, then looks up |
| MemoryCache.SimpleMemoryCache.GetDel | flask_server/module/simple_memory_cache.py:55-69 | reads and deletes in one step |
| MemoryCache.SimpleMemoryCache.Incr | flask_server/module/simple_memory_cache.py:71-86 | counts from 1 when absent, expired or not a number, and renews the expiry |
| MemoryCache.SimpleMemoryCache.Delete | flask_server/module/simple_memory_cache.py:50-93 | removes value and expiry |
| MemoryCache.SimpleMemoryCache.Exists | flask_server/module/simple_memory_cache.py:95-101 | presence behind the lazy deletion |
| MemoryCache.SimpleMemoryCache.Expire | flask_server/module/simple_memory_cache.py:103-108 | sets the expiry, of absent keys too |
| MemoryCache.SimpleMemoryCache.ClearExpired | flask_server/module/simple_memory_cache.py:110-118 | the sweep loop deletes exactly the expired keys and counts them |
| Streaks.IncrementCounts | flask_server/module/simple_memory_cache.py:71-86 | a counter returns the length of its streak: hits since the last silence above the ttl |
| Streaks.OthersKeepCount | flask_server/module/simple_memory_cache.py:71-124 | other keys and the sweeper leave a counter's meaning alone |
| Streaks.StreakCoversWindow | flask_server/component/rate_limit.py:55-63 | a streak counts every hit of any window no longer than the ttl |
| RateLimit.RateLimitCheck | flask_server/component/rate_limit.py:71-95 | switched off, on an exempt path or for a preflight nothing is touched; any other request is counted on the path, then on the client at a later instant, and refused on the first quota exceeded |
| RateLimit.VerdictOfRequest | flask_server/component/rate_limit.py:83-95 | a request is refused on its path if and only if the streak of the path's hits it ends is above the quota, else on its client if and only if the client's is, and let by otherwise |
| RateLimit.ExemptMeans | flask_server/component/rate_limit.py:28-80 | exempt are preflights, everything when switched off, and four paths with any slashes behind them |
| RateLimit.CounterOfPath | flask_server/component/rate_limit.py:37-45 | paths of up to 512 characters have their own counters, longer ones count under a digest |
| RateLimit.VerdictsAreStreaks | flask_server/component/rate_limit.py:55-95 | in every interleaving of requests, each increment is judged by the streak of its counter, wherever sweeps fall |
| RateLimit.AtMostNPerWindow | flask_server/component/rate_limit.py:71-95 | any closed 60 seconds hold at most N requests let by on a path, and at most N admitted of a client |
| RateLimit.SweepInWords | flask_server/module/simple_memory_cache.py:110-118 | a sweep drops the counters that have expired and counts nothing |
| RateLimit.PathQuotaIff | flask_server/component/rate_limit.py:55-88 | a path quota lets every request by if and only if no chain of gaps of at most 60 seconds is longer than N requests |
| ClientQuota.ClientQuotaIff | flask_server/component/rate_limit.py:83-94 | a client's quota lets by every request that its path let by if and only if no chain of gaps of at most 60 seconds among those is longer than N |
| RateLimit.SteadyClientRefused | flask_server/component/rate_limit.py:6-88 | with N = 2, requests at 0, 50 and 100 seconds: one is refused though no 60 seconds hold more than two |
| RateLimit.StreakIsChain | flask_server/component/rate_limit.py:55-63 | a streak is the longest chain of such gaps that ends with the last request |
| RateLimit.StaysBlocked | flask_server/component/rate_limit.py:83-88 | in every run, a counter that refused once refuses until it is left alone for more than 60 seconds |
| LoginGuard.AuthService.IsLoginLocked | flask_server/component/auth.py:265-275 | locked exactly while the stored time is ahead; a lock that is over is deleted |
| LoginGuard.AuthService.RecordLoginFail | flask_server/component/auth.py:278-295 | counts the failure, and at the limit sets the lock and forgets the count |
| LoginGuard.AuthService.Login | flask_server/component/auth.py:302-328 | locked accounts are refused unchecked; a failed check is recorded, a success clears the count; check and record are at two instants |
| LoginGuard.OwnBegin | flask_server/component/auth.py:265-317 | beginning an attempt over the cache is judged as by an account's own guard of streak, lock and attempts under way |
| LoginGuard.OwnSettle | flask_server/component/auth.py:278-328 | so is its end: a failure recorded or the count cleared |
| LoginGuard.ForeignAttempt | flask_server/component/auth.py:64-69 | lock checks and settlements of other accounts, same user or same address included, change nothing |
| LoginGuard.AccountsAreSeparate | flask_server/component/auth.py:264-334 | in every interleaving, an account's verdicts and its overlaps depend on its own steps only, and not on the sweeper |
| LoginGuard.AtMostMaxFails | flask_server/component/auth.py:278-328 | with at most k attempts of an account under way at a time, an interval of the lock's length without a successful login holds at most max_fails + k - 1 failed checks of it |
| LoginGuard.BoundIsAttained | flask_server/component/auth.py:278-328 | for every k a run reaches that bound, so it cannot be lowered |
| LoginGuard.MaxFailsIff | flask_server/component/auth.py:278-328 | max_fails itself bounds every schedule if and only if no two attempts of the account overlap |
| LoginGuard.OverlappingLogins | flask_server/component/auth.py:315-328 | with a limit of one, two overlapping logins both fail their password checks |
| LoginOperations.AtMostTriangle | flask_server/component/auth.py:265-328 | with every cache operation a step of its own and at most k attempts of an account under way, an interval of the lock's length without a successful login holds at most max_fails times k(k+1)/2 failed checks of it |
| LoginOperations.AccountsAreApart | flask_server/component/auth.py:264-334 | operation by operation too, an account's verdicts depend on its own moves only |
| LoginOperations.StaleDeletionIsReached | flask_server/component/auth.py:265-295 | a run from the empty cache, with two attempts under way and a limit of one, in which a stale deletion lets three checks fail at one instant |
| LoginOperations.UninterruptedCheck | flask_server/component/auth.py:265-275 | the operations of a lock check that nothing comes between are the one step |
| LoginOperations.UninterruptedSettlement | flask_server/component/auth.py:278-328 | so are those of a settlement |
| LoginOperations.SweepInWords | flask_server/module/simple_memory_cache.py:110-118 | a sweep lets no attempt go on, whatever operation it is at |
| LoginRaces.MoveSpends | flask_server/component/auth.py:265-295 | every move of an account uses up, of what can still fail in the interval, what it makes fail |
| LoginRaces.RaceBound | flask_server/component/auth.py:265-328 | the same bound for one account's moves on their own |
| LoginGuard.LockIsFixed | flask_server/component/auth.py:315-317 | a locked account is refused right and wrong passwords alike, and attempts do not prolong the lock |
| LoginGuard.SweepInWords | flask_server/module/simple_memory_cache.py:110-118 | a sweep drops the counters and locks that have expired and gives no verdict |
| LoginVerdicts.LockedIsEarned | flask_server/component/auth.py:265-328 | in every run, an account found locked has had max_fails failed checks since its last success, each within the lock's length of the one before, the last of them less than that ago: a success forgives and a lock ends |
| LoginVerdicts.VerdictOfCheck | flask_server/component/auth.py:318-328 | an attempt past the lock check ends as its password check does |
| RedisCache.CooldownHolds | flask_server/module/redis_cache.py:27-47 | behind a failure, operations that do not overlap do not contact the server until the cooldown is over |
| RedisCache.AvailabilityInWords | flask_server/module/redis_cache.py:27-47 | down for thirty seconds behind a failure; then a probe decides, and its success ends the matter |
| RedisCache.ContactsIff | flask_server/module/redis_cache.py:27-47 | an operation contacts the server exactly when a server in order would serve it; otherwise nothing changes |
| RedisCache.ReachesIff | flask_server/module/redis_cache.py:27-47 | a check contacts the server if its thread goes on to probe, a command if its thread was let pass |
| RedisCache.OutcomeInWords | flask_server/module/redis_cache.py:27-78 | only a command that was sent and failed starts a cooldown |
| RedisCache.CooldownHoldsIff | flask_server/module/redis_cache.py:27-47 | when operations overlap, nothing contacts the server during a cooldown if and only if, at the failure, no thread had passed its check without sending its command and none waited for a probe |
| RedisCache.WholeOperation | flask_server/module/redis_cache.py:27-47 | the parts of an operation that nothing comes between are the operation |
| RedisCache.OpenOnlyAfterFailure | flask_server/module/redis_cache.py:32-47 | operations that all succeed never leave the normal state |
| RedisCache.RedisCache.Check | flask_server/module/redis_cache.py:32-47 | down during the cooldown, probed once behind it, up otherwise |
| RedisCache.RedisCache.MarkUnavailable | flask_server/module/redis_cache.py:27-30 | starts a cooldown that ends with a probe |
| RedisCache.RedisCache.Set | flask_server/module/redis_cache.py:64-78 | reports success only for a command that was sent and answered, and stores nothing unless one was applied |
| RedisCache.RedisCache.GetDel | flask_server/module/redis_cache.py:109-130 | hits only a stored key through an answered command, which then is gone |
| RefreshTokens.CopiesMove | flask_server/component/auth.py:79-112 | a step moves a token at most from one store to another; only a fresh one appears |
| RefreshTokens.StepOneCopy | flask_server/component/auth.py:79-112 | every step that is honest about a token keeps at most one copy of it over Redis, all memories and threads, whatever happens to other tokens |
| RefreshTokens.RedeemedFrom | flask_server/component/auth.py:103-112 | a successful redemption takes the copy it found |
| RefreshTokens.SingleUse | flask_server/component/auth.py:337-355 | through outages, cooldowns, restarts and revocations, a token whose own write was honest is not redeemed twice |
| RefreshTokens.StartsClean | flask_server/component/auth.py:72-76 | the empty stores are a state those runs may start from |
| RefreshTokens.DishonestWriteBreaksSingleUse | flask_server/component/auth.py:79-91 | in every sound state, a write that takes effect though it reported failure has a continuation that redeems the token twice |
| RefreshTokens.SingleUseIff | flask_server/component/auth.py:79-112 | after every run, a token issued now is redeemed at most once in every continuation if and only if its write is honest |
| RefreshTokens.NoOutageNoLoss | flask_server/component/auth.py:79-112 | while Redis answers, every token neither redeemed nor dropped is where every process can redeem it |
| SessionEnds.IssueStores | flask_server/component/auth.py:79-91 | a new token is in Redis if the write took effect, and in the process's memory unless Redis confirmed it |
| SessionEnds.RedeemsIff | flask_server/component/auth.py:103-112 | a redemption succeeds if and only if Redis hands the token over or the process has it in memory, and removes what it found |
| SessionEnds.RevokeRemoves | flask_server/component/auth.py:124-128 | logging out removes exactly the copy in Redis, if the command takes effect, and the one in the process's memory |
| SessionEnds.OverIffGone | flask_server/component/auth.py:337-368 | a session is over for good if and only if no copy of its token is left anywhere |
| SessionEnds.LogoutIsFinalIff | flask_server/component/auth.py:357-368 | logging out ends the session for good if and only if the delete takes effect where Redis had the token, and no other memory and no thread has it |
| SessionEnds.FailureIsRemembered | flask_server/module/redis_cache.py:27-47 | after a failed command a process sends Redis nothing for thirty seconds, unless it is restarted |
| SessionEnds.ExpiryInWords | flask_server/component/auth.py:79-112 | expiry takes one copy, at any time, and leaves all else in place |
| SessionEnds.RestartInWords | flask_server/component/auth.py:72-76 | a restart takes what the process has in memory and what its threads had still to store, and closes its breaker |
| SessionEnds.DroppedIff | flask_server/component/auth.py:103-128 | the dropped tokens are exactly those revoked, expired, lost with their process or taken by a read whose answer was lost |
| SessionEnds.NothingElseVanishes | flask_server/component/auth.py:79-128 | a copy leaves its place by being stored, redeemed or given up, and never otherwise |
| Snowflake.OrIsPlus | flask_server/util/key_generator.py:97-99 | or is addition where the bits do not overlap |
| Snowflake.OrIsBitwise | flask_server/util/key_generator.py:97-99 | a bit is set if either number has it set |
| Snowflake.ComposeIsSum | flask_server/util/key_generator.py:97-99 | an id is the weighted sum of its fields |
| Snowflake.DecodeUndoesCompose | flask_server/util/key_generator.py:97-99 | shifting and masking gives all four fields back |
| Snowflake.SnowflakeIdWorker.Create | flask_server/util/key_generator.py:54-66 | exactly the node numbers out of range are refused |
| Snowflake.SnowflakeIdWorker.TilNextMillis | flask_server/util/key_generator.py:101-106 | the loop returns the first reading past the last timestamp |
| Snowflake.SnowflakeIdWorker.NextId | flask_server/util/key_generator.py:75-99 | one call: memory and result for every list of clock readings, backward jumps included |
| Snowflake.FirstPastIsPast | flask_server/util/key_generator.py:101-106 | waiting ends on a reading that is past, or never if none is |
| Snowflake.CallMovesOn | flask_server/util/key_generator.py:75-99 | a call uses a (time, number) behind the memory's; a refused one changes nothing |
| Snowflake.CallInWords | flask_server/util/key_generator.py:75-106 | a call uses the current millisecond with number 0, or the next number in it, or waits for the next one behind 4095; a clock that went back is reported by how much |
| Snowflake.NumberedWithoutGap | flask_server/util/key_generator.py:85-99 | the ids of one millisecond are consecutive |
| Snowflake.IdsIncrease | flask_server/util/key_generator.py:75-99 | for every clock, ids strictly increase and carry their node |
| Snowflake.AtMost4096PerMillisecond | flask_server/util/key_generator.py:85-90 | at most 4096 ids of a worker share a millisecond |
| Snowflake.WorkersNeverCollide | flask_server/util/key_generator.py:97-99 | workers that differ in datacenter or number never issue the same id |
| Snowflake.Uuid7Fields | flask_server/util/key_generator.py:170-173 | the value holds the fields of section 5.7 of RFC 9562 at their positions |
| Snowflake.Uuid7InWords | flask_server/util/key_generator.py:170-173 | the value has the version 7, the variant 2, the milliseconds and the random bits where they belong |
| Snowflake.Uuid7Order | flask_server/util/key_generator.py:170-174 | a later millisecond gives a larger value and a larger 32-digit hexadecimal numeral |
| Snowflake.HexOrder | flask_server/util/key_generator.py:174 | fixed-width numerals compare as their values |
| ServerLifecycle.StepLosesNone | flask_server/module/tcp_server.py:177-203 | no step lets a served connection escape: it is tracked, waiting to be closed, or closed |
| ServerLifecycle.StepBalances | flask_server/module/tcp_server.py:87-107 | every step keeps free plus held slots at the limit |
| ServerLifecycle.EveryState | flask_server/module/tcp_server.py:45-107 | both over every interleaving of handlers, starts and stops |
| ServerLifecycle.StopClosesEverything | flask_server/module/tcp_server.py:194-208 | once every stop has ended, the table is empty and whatever was tracked is closed or was untracked by its handler; starts may roll back if they were called when all was quiet |
| ServerLifecycle.SweptStaysEmpty | flask_server/module/tcp_server.py:184-199 | after the sweep of a stopped server nothing is tracked, and no connection begins to be served, until the next start |
| ServerLifecycle.RollBackLeavesOneTracked | flask_server/module/protocol_server.py:146-160 | a start that fails after setting the server can leave a connection tracked by a stopped server |
| ServerLifecycle.RollbackHarmlessIff | flask_server/module/protocol_server.py:137-160 | a start that rolls back does no harm in any schedule if and only if it was called with no accept loop running and no connection on its way to be tracked |
| ServerLifecycle.RollbacksInRuns | flask_server/module/protocol_server.py:137-160 | the same in every reachable state |
| ServerLifecycle.StepLoops | flask_server/module/protocol_server.py:146-190 | each accept loop belongs to the running server or to a stop that is still ending it |
| ServerLifecycle.SlotsAreBounded | flask_server/module/protocol_server.py:36-39 | free plus held slots equal the configured number in every reachable state; no positive limit means none |
| ServerService.AdmittedIff | flask_server/module/protocol_server.py:70-77 | in every reachable state a new connection is let in if and only if no positive limit is set or fewer than that many hold a slot; any other is closed at once |
| ServerService.TrackedIffUp | flask_server/module/tcp_server.py:177-188 | a handler's connection is served and tracked if the server is up, and closed otherwise |
| ServerService.ServedUntilSwept | flask_server/module/tcp_server.py:177-203 | a served connection stays tracked and open until its handler leaves or a stop sweeps |
| ServerService.UpAndDown | flask_server/module/protocol_server.py:137-182 | a server is up from its start until a stop or a rollback |
| ServerService.SweepTakesAll | flask_server/module/tcp_server.py:194-203 | a sweep takes the whole table, and what it took is closed one by one |
| ServerService.StopCanEnd | flask_server/module/tcp_server.py:194-208 | in every reachable state a stop can go on to its end, and then all it found in the table is closed |
| ServerService.HandlerCanEnd | flask_server/module/tcp_server.py:94-107 | every connection that holds a slot can go on until it is closed and its slot is back |
| ServerService.SlotsComeBack | flask_server/module/tcp_server.py:94-107 | a slot comes back when the handler ends or its thread could not be started |
| ServerService.ReportedAtOnce | flask_server/module/protocol_server.py:79-89 | a rejection ten seconds or more behind the last report is reported at once, with all before it |
| ServerLifecycle.OneReleasePerAcquire | flask_server/module/tcp_server.py:87-107 | a connection takes at most one slot, and what it has not given back is what it holds |
| ServerLifecycle.RejectsAreConserved | flask_server/module/protocol_server.py:79-89 | every rejection is in exactly one report or still counted, and reports are at least the cooldown apart |
| ServerLifecycle.TcpServer.AcquireSlot | flask_server/module/protocol_server.py:70-77 | takes a slot if one is free, else notes the rejection |
| ServerLifecycle.TcpServer.RecordReject | flask_server/module/protocol_server.py:79-89 | counts, and reports the count when the cooldown is over |
| ServerLifecycle.TcpServer.ReleaseSlot | flask_server/module/protocol_server.py:91-94 | gives one slot back |
| ServerLifecycle.TcpServer.TrackConnection | flask_server/module/tcp_server.py:177-188 | refuses on a stopped server, else tracks |
| ServerLifecycle.TcpServer.UntrackConnection | flask_server/module/tcp_server.py:190-192 | forgets that connection only |
| ServerLifecycle.TcpServer.CloseAllConnections | flask_server/module/tcp_server.py:194-203 | empties the table and closes everything that was in it |
| ServerLifecycle.TcpServer.Stop | flask_server/module/tcp_server.py:205-208 | leaves the server unset, the table empty and its connections closed |
| ObjToDict.CommonUtil.ObjToDict | flask_server/util/common.py:76-139 | terminates on every finite graph, computes the guarded conversion, leaves the shared set as it was |
| ObjToDict.CommonUtil.ConvertItems | flask_server/util/common.py:98-108 | each item converted, in order |
| ObjToDict.CommonUtil.ConvertEntries | flask_server/util/common.py:111-120 | each value converted under its key |
| ObjToDict.CommonUtil.ConvertAttributes | flask_server/util/common.py:123-136 | each attribute not starting with an underscore, and no other, converted under its name |
| ObjToDict.AcyclicIsNaive | flask_server/util/common.py:76-139 | on acyclic graphs, shared containers included, the result is the unguarded recursive conversion |
| ObjToDict.EveryPosition | flask_server/util/common.py:76-139 | every position of the result holds what the graph holds there, except that a container on its own ancestor path becomes null |
| ObjToDict.NullWhereItRepeats | flask_server/util/common.py:105-131 | a container becomes null if and only if it is among its own ancestors |
| ObjToDict.DepthIsBounded | flask_server/util/common.py:76-80 | the recursion is never deeper than the number of containers |
| ObjToDict.LeafValues | flask_server/util/common.py:82-97 | basic values stay, moments become their ISO text, anything else its text |
| ObjToDict.ListValues | flask_server/util/common.py:98-108 | a list becomes the list of its items, converted in order |
| ObjToDict.DictValues | flask_server/util/common.py:111-120 | a dictionary becomes the dictionary of its values under their keys |
| ObjToDict.ObjectValues | flask_server/util/common.py:123-136 | an object becomes the dictionary of exactly the attributes that do not begin with an underscore, in order |
| DependencyClosure.FreezeConstraints.DirectNames | scripts/freeze_constraints.py:62-70 | the direct packages, each once, in the first spelling; fails on an unreadable requirement |
| DependencyClosure.FreezeConstraints.AddNeeded | scripts/freeze_constraints.py:78-92 | adds exactly what the package needs here, respelling nothing, and queues what is not processed |
| DependencyClosure.FreezeConstraints.RuntimeClosure | scripts/freeze_constraints.py:48-93 | terminates on cyclic graphs and returns exactly the reachable names, each spelt by a name of its own, direct ones as first spelt |
| DependencyClosure.ReachableIsLeast | scripts/freeze_constraints.py:72-93 | whatever contains the roots and is closed contains everything reachable |
| DependencyClosure.ClosureIsClosed | scripts/freeze_constraints.py:72-93 | closing again finds nothing new |
| DependencyClosure.ClosureIsLeastThatSuffices | scripts/freeze_constraints.py:48-93 | the names found are the least set that has every direct package and whatever an installed member needs on this platform |
| DependencyClosure.OnlyInEffectIff | scripts/freeze_constraints.py:48-93 | the closure holds just what is in effect if and only if every direct requirement is reachable from those whose markers hold |
| DependencyClosure.DirectMarkersAreIgnored | scripts/freeze_constraints.py:67-68 | a direct requirement is kept even if its marker fails, and is then out of effect unless something in effect needs it |

## Left out

- LoginGuard.AtMostMaxFails: the lock check and the recording of a failure are one step each; `LoginOperations` takes them apart.
- LoginGuard.MaxFailsIff: over the same steps.
- LoginOperations.AtMostTriangle: for the in-process store; with Redis and its fallback, counts split over two stores. Accounts are pairs: the string form of the key is injective only for user names without a colon. `StaleDeletionIsReached` meets the bound for k = 2 and a limit of one; it is not shown to be met otherwise.
- LoginGuard.AuthService.Login: the tokens issued on success and the counter per user name, which is only logged.
- RateLimit.AtMostNPerWindow: for the in-process store; with the Redis store and its fallback, counts split over two stores and the bound does not hold across them.
- RateLimit.PathQuotaIff: for the in-process store likewise.
- ClientQuota.ClientQuotaIff: for the in-process store likewise.
- RateLimit.RateLimitCheck: the client's address and the digest of a long path are parameters.
- RedisTaskQueue.NoLoss: each client method is one step; `RedisCrashes` takes the methods apart.
- RedisTaskQueue.StepLosesNothing: each client method is one step, likewise.
- RedisCrashes.NoLossOutsideGaps: a message counts as alive while Redis will still deliver or reclaim it; a lost reply to a command that took effect and loss of data by the server itself are not modelled.
- RedisClient.Client.Reserve: corrupt messages, which the source buries unread, and errors of the read, which it waits out.
- RedisClient.Client.ReclaimStale: corrupt messages, and errors of the claim.
- RedisClient.Client.Ack: a failing command, which the source logs and abandons; `RedisCrashes` treats that as a stop.
- RedisClient.Client.Retry: a failing command, likewise.
- RedisClient.Client.Kill: a failing command, likewise.
- RedisProgress.NeverStuck: states that a schedule exists, not that the worker's own timing finds it; other workers are idle meanwhile, and the server's claim is assumed to offer the lowest stale ids whatever its scan limit.
- RedisCopies.ExactlyOneCopy: each client method is one step, and only crashed workers are reclaimed; `SlowWorkerDuplicates` shows why the latter is needed.
- RedisLineage.LineageBudget: each client method is one step.
- RedisCache.CooldownHoldsIff: the check and `_mark_unavailable` are one step each, though each reads or writes two fields.
- RedisCache.RedisCache.Set: the ttl, values that cannot be serialised.
- RedisCache.RedisCache.GetDel: corrupt values.
- RefreshTokens.SingleUse: assumes fresh tokens; the check and the command of one cache operation are one step.
- QueueRuns.ServedInOrder: for a task whose id nobody else carries, which is what fresh ids give.
- MemoryTaskQueue.MemoryTaskQueue.TryReserve: one pass of the loop in `reserve`; its condition-variable wait, timeout and closed flag only decide whether and when the next pass comes.
- TaskWorker.TaskWorker.ProcessOne: the reservation inside is that one pass.
- HeadTailChunking.HeadTailChunkingIff: for garbage in front of the first frame only; `AllRoundTripIff` has garbage anywhere, over all chunkings.
- TcpConnection.Config.Effective: the reader for raw framing.
- ServerLifecycle.TcpServer.Stop: the class method is the part on the shared fields; `server.shutdown`, closing the socket, the join and concurrent handlers are steps of the transition system only, where shutdown and join do not time out.
- ServerLifecycle.RollbackHarmlessIff: a handler that dies before tracking its connection.
- ObjToDict.CommonUtil.ObjToDict: an exception raised in the middle of a conversion, which leaves the set behind, is not modelled.
- The heap of delayed tasks is a list in pop order; `heapq`'s array layout is library behaviour.
- Envelopes are values: the object a worker holds and the one in the queue are not aliased.
- JSON and pickle encoding, password hashing, IP parsing, PEP 508 and PEP 503 parsing.
- `stats`, `dead_letters` and `close` of the queues, and reading status keys back from Redis.
- The `max_retries` shown in status records, which ignores the task's own setting.
- The worker's `_loop`: its backoff while the backend is down and the pacing of `_maybe_reclaim` beyond its 30 seconds add only easy members.
- UDP, sockets, idle timeouts, and the handler hooks; fixed framing beyond its reader.
- Redis operations of the cache other than `set` and `getdel`; access tokens.
- `_derive_worker_id`, UUID version 4, and the text form of UUIDs with its dashes.
- Web UI, controllers, configuration parsing, logging, metrics, SQL stores, file storage, scaffolding: input, output and wiring.
