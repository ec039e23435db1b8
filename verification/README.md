# Verified model of the durable OCI copy queue

This Dafny project models the copy queue of `opai_oci_transfer` and the transfer protocol around
it, and proves what the two promise:

- the queue (`SQLiteQueueStore`), a lease, fencing and retry protocol that any number of workers
  in any number of processes share;
- the manager's failure policy, which reads a row, decides, and writes later under a fencing token;
- the planner of the Go service, which walks a manifest graph of any shape;
- the NDJSON event stream between the service and the Python client;
- one copy operation end to end, from the registries' answers to the worker's `finish` call;
- the two reference parsers and the order of the stored timestamps.

`dafny verify dfyconfig.toml` checks everything.

## How the model is built

**The store.** `QueueStore.SQLiteQueueStore` is a class with one field a table. Each method is
one SQL transaction with the clock reading, the fresh id and the fresh token as arguments, and is
proved equal to a function of module `QueueSpec` on the whole contents of the three tables,
error rows and dependent rows included. `QueueMoves` states, for a single job row, which *move* each call is (`Take`, `SweepOut`,
`Plan`, `Count`, `End`, `Fail`, `LetGo`, `Requeue`, ...); the run theorems are inductions over moves.

**Runs.** A run is any list of store calls by any callers, in any order, from the empty tables
(`QueueRuns`). It is legal if the clock does not go back and no id or token is drawn twice, which
is what UUIDs provide. Nothing else is assumed of callers: calls under stale tokens, on unknown
ids and in the wrong state are all in. Where a worker reads first and writes later, the read
(`OpDetails`) and the write are two calls with anything in between.

**The service and the client.** The registry is a fixed map from digest to manifest and from
subject to referrer list, where an absent key is a failing request. The JSON parser and encoder
are parameters; the only assumptions are that an encoded event is one line within the size limit
that decodes to the event, and (for truncated streams) that no strict beginning of the line does.

**Both together.** In `EndToEnd` a run comes with the operations its workers performed, each under
the number of the `finish` call it led to. What is assumed of a worker that finishes a job as
completed is what `_execute` does: it began the operation while it held the job, from the plan and
destination in the row, and left it as the event loop does at the end of a successful stream.

| file | content |
|---|---|
| `queue_types.dfy`, `row_sums.dfy` | rows of the three tables; sums over blob rows |
| `queue_spec.dfy`, `queue_store.dfy` | the calls as functions; the class that is proved against them |
| `queue_moves.dfy`, `queue_runs.dfy` | moves of one row; runs, and what holds in every reachable table |
| `queue_laws.dfy`, `queue_waits.dfy` | what each call leaves, column by column; delays, leases, service order and stored times over runs |
| `queue_fencing.dfy`, `queue_lifecycle.dfy` | tokens and leases; states, deletion, the pinned plan |
| `queue_progress.dfy`, `queue_accounting.dfy` | cached aggregates and high-water progress; conservation of claims |
| `queue_claims.dfy`, `queue_destinations.dfy` | claim order and liveness; one active job a destination |
| `queue_endings.dfy`, `queue_witnesses.dfy` | which call completed a job or ended a claim, and the fate of a requested cancellation; concrete runs for what the queue does not keep |
| `failure_policy.dfy` | retry, backoff, timeouts and the integrity budget |
| `manifest_graph.dfy`, `planner.dfy` | reachability; the traversal and the plan |
| `plan_records.dfy`, `planner_witnesses.dfy`, `plan_to_queue.dfy` | what the records of a plan say; rings of indexes; saving a plan in the queue |
| `event_stream.dfy`, `transfer.dfy` | line framing; one operation from the request to the worker's decision |
| `copy_reports.dfy`, `copied_is_counted.dfy` | from the callbacks of the copy to the counts of the job |
| `worker_failures.dfy`, `end_to_end.dfy`, `shutdown.dfy` | what is recorded after refusals and cancelled operations; runs of the queue with the operations its workers performed; the race of shutdown |
| `references.dfy`, `text_order.dfy`, `timestamps.dfy` | reference grammar and Go guard; order of stored text |

## Where the code does less than it says

Each of these is a theorem about the code as it is, with the exact condition, a concrete input, or
both.

- **`no_clobber`** (section 7 of `docs/requirements.md`: the job fails without changing a tag that
  resolves to something else) does not hold when the HEAD request fails for any reason, or when the
  tag is moved between that request and the copy. A copy is started over different content exactly
  if overwriting was asked for, or that request failed, or it found the planned content and the tag
  was moved after it (`Transfer.ClobbersIff`); under `no_clobber` either such operation can end with
  a `completed` event (`Transfer.NoClobberCanClobber`).
- **High-water progress** (section 8) fails in exactly one case: a finishing event for a blob whose
  recorded offset has overrun its known size takes the offset back (`QueueProgress.OffsetGoesBack`,
  `OverrunExample`). Offsets are not clamped on the way up.
- **Aggregates lag** behind the blob rows after a superseded worker's digest event that says
  anything new about the blob's totals, and only then (`QueueProgress.FencedOutSyncs`; a run that
  ends so is `QueueWitnesses.AggregatesCanLag`): `progress` updates the blob row before the fence.
- **One active job a destination** is broken by exactly one call, a `retry` of a failed job whose
  destination has been taken meanwhile (`QueueDestinations.OnlyCollisionsBreakIt`, `RetryCanCollide`).
- **`cancel` and `retry` read and then write.** `QueueLifecycle.LateCancelWrite` and `LateRetryWrite`
  say exactly when the late write leaves the row the atomic call would leave. Otherwise a completed
  job turns cancelled (`QueueLifecycle.SplitCancelUndoesCompletion`) or queued
  (`QueueWitnesses.SplitRetryUndoesCompletion`), or a job is handed out twice under an unexpired
  lease (`QueueWitnesses.SplitRetryBreaksLease`). All run theorems take both calls as atomic.
- **`consecutive_failures`** is never reset: it counts all failures of the job's life
  (`QueueAccounting.ClaimsBalance`). A user's `retry` renews neither the integrity budget nor the
  timeout clocks: once either is exhausted every later failure of that kind is final
  (`FailurePolicy.ExhaustedForever`).
- **The integrity retries** (section 12) are never used for a mismatch the service reports: it
  marks none of them retryable, so they are counted against the budget but never retried
  (`Transfer.StreamedMismatchIsFinal`).
- **Cycles.** Section 8 has planning reject them; the code visits each manifest once and accepts
  them, up to a length: a ring of indexes is planned exactly if it has no more than 32 of them
  (`PlannerWitnesses.RingIsPlannedIff`). One of 33 fails although none is more than 32 edges away,
  because the depth is checked before the `seen` set. In general, a plan whose manifests are not
  all near enough fails, and unless the graph is too deep a plan succeeds exactly if nothing is
  missing or unsupported and its records are within the limit (`Planner.Plan`); no graph of at most
  32 manifests is too deep (`Planner.SmallIsNotTooDeep`).
- **A platform filter can hide content of a referrer.** The `seen` set is shared, and the filter is
  lifted for referrers only: what a referrer reaches through an already seen index is left out
  (`Planner.FilterHidesReferred`; `FilteredPlanIsExpectedIff` gives the condition).
- **The event size limit** is not checked on the text after the last newline when the last chunk
  contains a newline (`EventStream.ChunkingMattersIff`).
- **A requested cancellation** can be dropped by a call under the job's token, and by nothing else:
  a phase report, a recorded failure (a retryable one lets the next claim run the job again), or a
  `finish` that says completed or failed (`QueueEndings.RequestIsDroppedIff`; runs are
  `QueueWitnesses.CancellationCanBeLost` and `CancellationLostToRetry`). Without such a call the job
  stays to be cancelled until it is cancelled (`QueueEndings.RequestStands`). The worker itself sees
  the request at every later check unless it reports a phase in between, and then does not complete
  the job (`EndToEnd.CancellationStops`).
- **Shutdown** leaves affected jobs resumable (section 12) depending on which write commits first. If
  the first call that ends the claim is the release of the interrupted worker or of the closing
  manager, the job is resumable, whatever the worker has read. If it is the worker's own failure,
  decided from the stream of the cancelled operation, the job is resumable only if the stream broke
  off in time for a retry; decided from the whole stream, it fails the job for good
  (`Shutdown.ShutdownIsResumableIff`; `QueueWitnesses.FirstWriteWins` has both orders of the same two
  writes).
- **Referrers and digest tags** are to be checked before a job is completed (section 11). After the
  copy only the root digest and the tag are looked up: the answer does not depend on what else the
  destination holds (`Transfer.ExtrasAreIgnored`, `CompletedCanLackExtras`), so their presence rests
  on the copy reporting its errors.
- **An all-digit host** without a port is taken for a port number by `parse_reference`, and refused
  if it is not in 1..65535 (`References.RefusedForItsPortIff`; `DigitHostIsRefused` has `99999/a:b`,
  which the Go guard passes).

## Model

| member | source | states |
|---|---|---|
| `QueueStore.SQLiteQueueStore.Enqueue` | src/opai_oci_transfer/store.py:104-162 | the scan returns a latest active row of the destination, and the outcome and all tables are the specified ones: attach, conflict, or one new queued row |
| `QueueStore.SQLiteQueueStore.Claim` | src/opai_oci_transfer/store.py:192-232 | sweeps expired cancellations, then takes the first claimable row in (created_at, id) order; every other row and table as specified |
| `QueueStore.SQLiteQueueStore.Heartbeat` | src/opai_oci_transfer/store.py:234-246 | extends the lease only for the token holder |
| `QueueStore.SQLiteQueueStore.SaveSnapshot` | src/opai_oci_transfer/store.py:248-282 | fenced write of the plan and one row a blob; a duplicate digest rolls everything back |
| `QueueStore.SQLiteQueueStore.Progress` | src/opai_oci_transfer/store.py:289-354 | phase branch fenced; digest branch moves the blob row unfenced and rewrites the aggregates only for the token holder |
| `QueueStore.SQLiteQueueStore.Finish` | src/opai_oci_transfer/store.py:356-378 | fenced move to a terminal state |
| `QueueStore.SQLiteQueueStore.FailOrRetry` | src/opai_oci_transfer/store.py:380-422 | appends an error row unfenced, then the fenced move to `retry_wait` or `failed` |
| `QueueStore.SQLiteQueueStore.Cancel` | src/opai_oci_transfer/store.py:444-455 | cancels waiting work at once, requests cancellation of claimed work, leaves terminal jobs alone |
| `QueueStore.SQLiteQueueStore.Retry` | src/opai_oci_transfer/store.py:457-466 | requeues failed jobs only |
| `QueueStore.SQLiteQueueStore.WriteCancel` | src/opai_oci_transfer/store.py:450-454 | the second transaction of `cancel` by itself: unconditional, whatever the row has become since the read |
| `QueueStore.SQLiteQueueStore.WriteRetry` | src/opai_oci_transfer/store.py:461-465 | the second transaction of `retry` by itself |
| `QueueStore.SQLiteQueueStore.Dismiss` | src/opai_oci_transfer/store.py:468-484 | deletes a terminal job with its dependent rows |
| `QueueStore.SQLiteQueueStore.CancellationRequested` | src/opai_oci_transfer/store.py:486-491 | false exactly when the token is current and no cancellation is requested |
| `QueueStore.SQLiteQueueStore.ReleaseClaim` | src/opai_oci_transfer/store.py:493-501 | fenced return of a working claim: to `queued` without a plan, to `retry_wait` with one; never of a job to be cancelled |
| `QueueStore.SQLiteQueueStore.Release` | src/opai_oci_transfer/store.py:503-510 | releases every working claim of one manager and of its workers, as LIKE matches them |
| `QueueStore.SQLiteQueueStore.Prune` | src/opai_oci_transfer/store.py:512-555 | deletes exactly the selected terminal jobs, or none on a dry run |
| `QueueSpec.OwnedByPlain` | src/opai_oci_transfer/store.py:507-510 | for a prefix without wildcards these are the workers whose id begins with it and a dash, in either case |
| `QueueSpec.FirstIsTheFirst` | src/opai_oci_transfer/store.py:199-207 | the row that is claimed comes before every other claimable row, and there is none exactly when no row is claimable |
| `QueueMoves.CallFollows` | src/opai_oci_transfer/store.py:104-555 | every call changes every job row by one permitted move, creates rows only in `enqueue`, and deletes only terminal rows |
| `QueueMoves.CallDependents` | src/opai_oci_transfer/store.py:248-354 | the whole effect of every call on the blob and error rows of every job |
| `QueueLaws.WhoChangesWhat` | src/opai_oci_transfer/store.py:104-510 | request, destination and creation time never change; plan, counts, last progress, start, runs and failure counts each change by one kind of call only |
| `QueueLaws.EnqueueLeaves` | src/opai_oci_transfer/store.py:104-162 | the answer for the row the scan finds; a new job is queued, due, empty and carries what was asked for |
| `QueueLaws.ClaimLeaves` | src/opai_oci_transfer/store.py:197-227 | the row handed out was queued, due for its retry, or past its lease; it is planning without a plan and copying with one, under the claimer's lease |
| `QueueLaws.ClaimSweeps` | src/opai_oci_transfer/store.py:195-198 | every claim cancels exactly the jobs to be cancelled that nobody holds under an unexpired lease |
| `QueueLaws.HeartbeatLeaves` | src/opai_oci_transfer/store.py:234-246 | true exactly for the holder of a job that is not over, whose lease then runs its length from now |
| `QueueLaws.SaveLeaves` | src/opai_oci_transfer/store.py:248-282 | the saved plan is the given one, with one fresh blob row for each of its blobs and no others |
| `QueueLaws.PhaseLeaves` | src/opai_oci_transfer/store.py:291-302 | each of the three phases is the state of its name |
| `QueueLaws.ProgressClock` | src/opai_oci_transfer/store.py:332-342 | the no-progress clock is reset by exactly the true digest events that report a higher offset or a blob newly done |
| `QueueLaws.EventLeaves` | src/opai_oci_transfer/store.py:303-331 | what any digest event leaves in the blob's row: high-water offsets, a finished blob's size, the first completion time |
| `QueueLaws.FinishLeaves` | src/opai_oci_transfer/store.py:356-378 | the final state, error and time of a finished job, which nobody holds |
| `QueueLaws.FailLeaves` | src/opai_oci_transfer/store.py:395-417 | the error row that is appended; the counts, the error and the due time or end of the job |
| `QueueLaws.ReleaseClaimLeaves` | src/opai_oci_transfer/store.py:493-501 | a released job is due at once |
| `QueueLaws.ReleaseLeaves` | src/opai_oci_transfer/store.py:503-510 | exactly the working jobs of the manager's workers are released |
| `QueueLaws.CancelLeaves` | src/opai_oci_transfer/store.py:444-455 | waiting jobs are cancelled now, claimed ones are asked to, terminal ones stay |
| `QueueLaws.RetryLeaves` | src/opai_oci_transfer/store.py:457-466 | a failed job is queued without its error, any other is refused |
| `QueueLaws.DismissLeaves` | src/opai_oci_transfer/store.py:468-484 | exactly a terminal job is deleted, with its rows, and nothing else changes |
| `QueueLaws.PruneLeaves` | src/opai_oci_transfer/store.py:512-552 | exactly the jobs asked for are deleted, none on a dry run, and bad requests are refused |
| `QueueWaits.RetryWaitsOutDelay` | src/opai_oci_transfer/store.py:199-207 | over runs: after a failure recorded with a delay, the next claim of the job comes no earlier than that delay |
| `QueueWaits.LeaseLasts` | src/opai_oci_transfer/store.py:199-246 | over runs: while its token is current, a job is not handed out before the lease its last claim or heartbeat gave has run out |
| `QueueWaits.FirstComeFirstServed` | src/opai_oci_transfer/store.py:199-207 | a job handed out was enqueued before every other job that was due as well, or at the same instant under a smaller id |
| `QueueWaits.CreatedBy` | src/opai_oci_transfer/store.py:136-158 | a row's creation time, destination and request are those of the `enqueue` call that made it |
| `QueueWaits.EndedBy` | src/opai_oci_transfer/store.py:356-417 | a terminal row's completion time is the time of the call that made it so |
| `QueueWaits.StartedBy` | src/opai_oci_transfer/store.py:209-222 | a row's start is the time of its first claim |
| `QueueRuns.RunsKeepDbOk` | src/opai_oci_transfer/store.py:192-510 | in every reachable table: token, worker and lease are set together and exactly in claimed states; terminal iff `completed_at`; `retry_wait` has a due time; blob rows are the pinned plan's |
| `QueueRuns.InsertSucceeds` | src/opai_oci_transfer/store.py:271-277 | inserting a plan's blob rows succeeds exactly when its digests are distinct |
| `QueueFencing.CurrentTokenIsLastIssued` | src/opai_oci_transfer/store.py:209-227 | a job's current token is the one the last claim of that job issued |
| `QueueFencing.RunsKeepTokens` | src/opai_oci_transfer/store.py:209-222 | no two jobs share a token, and every token in the table was drawn by a claim of the run |
| `QueueFencing.ClaimRespectsLeases` | src/opai_oci_transfer/store.py:197-207 | a claim hands out no job with an unexpired lease and none whose cancellation is requested |
| `QueueFencing.LeaseProtects` | src/opai_oci_transfer/store.py:197-207 | a row under an unexpired lease survives every claim unchanged |
| `QueueFencing.SupersededForever` | src/opai_oci_transfer/store.py:209-222 | a token that has lost a job never regains it |
| `QueueFencing.SupersededWritesNoJob` | src/opai_oci_transfer/store.py:234-422 | a call under a stale token leaves all job rows alone; only one blob row or one error row of its own job may move |
| `QueueFencing.SupersededNeverWrites` | src/opai_oci_transfer/store.py:234-422 | over a run, no later call under a superseded token changes any job row |
| `QueueFencing.EndsAtMostOnce` | src/opai_oci_transfer/store.py:356-417 | each token obtains a true answer from `finish`, `fail_or_retry` or `release_claim` at most once |
| `QueueLifecycle.StateMachine` | src/opai_oci_transfer/store.py:192-510 | every state change of a run follows an arrow of the state machine, and `failed` is left only by `retry` |
| `QueueLifecycle.Absorbing` | src/opai_oci_transfer/store.py:356-378 | a completed or cancelled row never changes again while it exists |
| `QueueLifecycle.DeletedForever` | src/opai_oci_transfer/store.py:468-484 | a deleted job stays deleted |
| `QueueLifecycle.CancelRequestedHolds` | src/opai_oci_transfer/store.py:197-208 | such a job is not claimed, and leaves the state only through its token holder or the expiry sweep |
| `QueueLifecycle.PlanIsPinned` | src/opai_oci_transfer/store.py:248-277 | plan, totals and the set of blob rows with their sizes never change once saved |
| `QueueLifecycle.PlansOnce` | src/opai_oci_transfer/store.py:212-277 | planning succeeds at most once a job, and every later claim resumes copying |
| `QueueLifecycle.LateCancelWrite` | src/opai_oci_transfer/store.py:444-455 | exactly when the unconditional write of `cancel`, made late, leaves the whole row as the atomic call would |
| `QueueLifecycle.LateRetryWrite` | src/opai_oci_transfer/store.py:457-466 | the same for `retry` |
| `QueueLifecycle.SplitCancelUndoesCompletion` | src/opai_oci_transfer/store.py:444-455 | a run in which the late write turns a completed job cancelled |
| `QueueWitnesses.SplitRetryBreaksLease` | src/opai_oci_transfer/store.py:457-466 | a run in which the late write of `retry` has a leased job handed out again before its lease expires |
| `QueueWitnesses.SplitRetryUndoesCompletion` | src/opai_oci_transfer/store.py:457-466 | a run in which it turns a completed job queued |
| `QueueProgress.OffsetGoesBack` | src/opai_oci_transfer/store.py:303-330 | exactly when an event lowers a blob's offset |
| `QueueProgress.OverrunExample` | src/opai_oci_transfer/store.py:303-330 | two events that do it |
| `QueueProgress.CallSyncs` | src/opai_oci_transfer/store.py:324-349 | a true digest event makes the cached aggregates equal the blob-row sums and counts; every other call keeps them equal unless it is a fenced-out digest event |
| `QueueProgress.FencedOutSyncs` | src/opai_oci_transfer/store.py:303-349 | a fenced-out event keeps them equal exactly when it says nothing new: no higher offset or network count, and done or not as before |
| `QueueWitnesses.AggregatesCanLag` | src/opai_oci_transfer/store.py:324-349 | a legal run (claim, plan, lease expiry, second claim, late event) that leaves the cached bytes below the sum |
| `QueueProgress.StaysSynced` | src/opai_oci_transfer/store.py:324-349 | the same over runs |
| `QueueProgress.ProgressNeverGoesBack` | src/opai_oci_transfer/store.py:303-349 | without overruns, blob offsets and a job's `completed_bytes` and `network_bytes` never decrease and `completed_at` of a blob is sticky, across retries, takeovers and stale workers |
| `QueueProgress.KnownBytesAreRowSizes` | src/opai_oci_transfer/models.py:171-175 | the plan's byte total is the sum of the sizes of its blob rows |
| `QueueProgress.ExpectedKnownIff` | src/opai_oci_transfer/models.py:171-175 | the total is known exactly if every size is |
| `QueueProgress.BytesWithinExpected` | src/opai_oci_transfer/models.py:171-175 | `completed_bytes` <= sum of offsets <= `expected_bytes`; all of it once every blob has completed |
| `QueueProgress.PercentNeverGoesBack` | src/opai_oci_transfer/models.py:206-212 | the percentage stays in 0..100 and never decreases |
| `QueueProgress.PercentIs` | src/opai_oci_transfer/models.py:206-212 | unknown exactly without a total, the exact share up to the whole, and 100 from then on |
| `RowSums.ComputeSum` | src/opai_oci_transfer/store.py:332-341 | summing the rows one by one, in any order, gives the sum the specification uses |
| `RowSums.SumsAre` | src/opai_oci_transfer/store.py:332-341 | what the sums add up: offsets, network offsets, finished, reused or mounted blobs, and known sizes |
| `RowSums.SumUpdate` | src/opai_oci_transfer/store.py:332-341 | replacing one row changes the sum by the difference of the two rows |
| `QueueAccounting.ClaimsBalance` | src/opai_oci_transfer/store.py:192-510 | `run_count` is claims ended by finish, failure, release, takeover and sweep, plus one if a token is held; the failure counters count all recorded failures and all integrity failures |
| `QueueAccounting.CountersAreOrdered` | src/opai_oci_transfer/store.py:395-417 | integrity failures <= failures <= runs, strictly while a token is held; each failure left an error row |
| `QueueClaims.ClaimTakesFirst` | src/opai_oci_transfer/store.py:192-227 | a claim takes the first eligible job out of the eligible set and leaves the rest |
| `QueueClaims.Drain` | src/opai_oci_transfer/store.py:192-227 | at one instant, repeated claims return every eligible job exactly once in strictly increasing (created_at, id) order, then nothing |
| `QueueClaims.DrainsIff` | src/opai_oci_transfer/store.py:199-222 | with anything eligible, that happens exactly if the lease is not negative; only a direct caller of the store can pass a negative one, the manager refuses leases under 30 seconds |
| `QueueClaims.DrainKeepsHolders` | src/opai_oci_transfer/store.py:209-222 | each job handed out in a drain is still held under its own token at the end |
| `QueueClaims.ActiveHasDeadline` | src/opai_oci_transfer/store.py:197-207 | every active job of every run has a finite deadline |
| `QueueClaims.DeadlineIsExact` | src/opai_oci_transfer/store.py:197-207 | a claim may act on an active job exactly from its deadline on |
| `QueueClaims.NeverStuck` | src/opai_oci_transfer/store.py:192-227 | past its deadline, a bounded number of claims hands the job out or has swept it to cancelled |
| `QueueDestinations.OnlyCollisionsBreakIt` | src/opai_oci_transfer/store.py:104-135 | one active job a destination survives a call exactly unless it is a colliding `retry` |
| `QueueDestinations.AtMostOneActive` | src/opai_oci_transfer/store.py:104-135 | hence in every run without such a `retry` |
| `QueueDestinations.EnqueueIsDetermined` | src/opai_oci_transfer/store.py:109-135 | after every such run `enqueue` has the same outcome whatever row its scan meets first |
| `QueueDestinations.RetryCanCollide` | src/opai_oci_transfer/store.py:457-466 | the run enqueue, fail, enqueue, retry leaves two active jobs for one destination |
| `QueueDestinations.EnqueueOnActive` | src/opai_oci_transfer/store.py:109-135 | enqueue is idempotent for an equal request and refuses any other on an active destination, changing nothing |
| `QueueDestinations.EnqueueOnFree` | src/opai_oci_transfer/store.py:136-162 | on a free destination it adds one queued job and nothing else |
| `FailurePolicy.Decide` | src/opai_oci_transfer/manager.py:444-499 | the successive checks give the decision function's verdict, error and delay |
| `FailurePolicy.RetriedIff` | src/opai_oci_transfer/manager.py:448-497 | retried exactly when retryable, within the integrity budget, and strictly within both timeouts |
| `FailurePolicy.DelayWithinBounds` | src/opai_oci_transfer/manager.py:479-487 | the delay is in 0..`max_backoff` for any failure count and any Retry-After |
| `FailurePolicy.RetryAfterIsServed` | src/opai_oci_transfer/manager.py:479-480 | a retry waits what the registry asked for, within 0 and the maximum, and what was drawn otherwise |
| `FailurePolicy.BackoffDoubles` | src/opai_oci_transfer/manager.py:482-486 | the ceiling starts at the initial backoff and doubles up to the sixteenth failure, within the maximum |
| `FailurePolicy.FailureIsNamed` | src/opai_oci_transfer/manager.py:448-478 | which of the checks names the failure, and that it is left as it was otherwise |
| `FailurePolicy.StableUnderToken` | src/opai_oci_transfer/store.py:289-417 | while one token stays current, the columns a decision reads do not change |
| `FailurePolicy.ReadWasCurrent` | src/opai_oci_transfer/manager.py:444-499 | a successful fenced write implies that the earlier read was still current |
| `FailurePolicy.RetryWaitIsBounded` | src/opai_oci_transfer/manager.py:456-499 | a recorded failure that leaves `retry_wait` waits at most `max_backoff`, and by the row at the write the job was within its timeouts |
| `FailurePolicy.ProgressPostponesTimeout` | src/opai_oci_transfer/manager.py:456-468 | over runs: a failure decided within the no-progress timeout after a report of news is not final for lack of progress |
| `FailurePolicy.IntegrityBudget` | src/opai_oci_transfer/manager.py:444-455 | over all interleavings and user retries, at most R mismatches put a job into `retry_wait` |
| `FailurePolicy.NothingIsRenewed` | src/opai_oci_transfer/store.py:332-417 | over runs with user retries, a job's start, failure counts and last progress are never taken back |
| `FailurePolicy.ExhaustedForever` | src/opai_oci_transfer/manager.py:448-478 | once a job is past its overall timeout or its integrity budget, every later failure, or mismatch, recorded for it is final |
| `TextOrder.ByFields` | src/opai_oci_transfer/store.py:39-40 | text order of equal-length fields followed by tails is decided by the fields first |
| `TextOrder.LikeWildcards` | src/opai_oci_transfer/store.py:507-510 | a percent sign stands for any text and an underscore for any character |
| `Timestamps.TimestampsSort` | src/opai_oci_transfer/store.py:39-40 | text order of timestamps is chronological, with the fraction present or dropped |
| `Timestamps.TimestampsAreFaithful` | src/opai_oci_transfer/store.py:39-40 | equal text means equal instants |
| `Timestamps.TimestampReadsBack` | src/opai_oci_transfer/store.py:39-40 | the text is a date, a 'T', a time, the microseconds if there are any, and the offset, and each piece reads back as its field |
| `Timestamps.TimestampsAreTimes` | src/opai_oci_transfer/store.py:39-40 | on Gregorian dates, comparing the text is comparing the integer times the queue model uses |
| `Planner.Traversal.Walk` | go/cmd/opai-oci-transferd/main.go:315-374 | success: newly seen manifests are exactly reached ones, closed under selected edges, one record an edge, blobs exactly theirs, records within the limit, and each reached by a path short enough, at this depth, for itself and for what it lists; failure: something is really missing, unsupported, too deep or too many |
| `Planner.Traversal.WalkChildren` | go/cmd/opai-oci-transferd/main.go:324-353 | the loop over an index keeps all of that child by child |
| `Planner.Traversal.AddBlobs` | go/cmd/opai-oci-transferd/main.go:355-373 | config, then layers, later entries replacing earlier ones of the same digest |
| `Planner.ImageAddsBlobs` | go/cmd/opai-oci-transferd/main.go:356-372 | the blob table stays exactly the blobs of the seen manifests |
| `Planner.WalkReferrers` | go/cmd/opai-oci-transferd/main.go:287-306 | the referrers of one record: each recorded under its subject and walked without the filter |
| `Planner.AddReferrers` | go/cmd/opai-oci-transferd/main.go:282-307 | the referrers of every base record, in order, repetitions included |
| `Planner.InsertSorted` | go/cmd/opai-oci-transferd/main.go:308-312 | insertion keeps the list strictly sorted and adds just the one entry |
| `Planner.SortedBlobs` | go/cmd/opai-oci-transferd/main.go:308-312 | the list holds exactly the table's entries, strictly sorted by digest, whatever the iteration order |
| `Planner.SortedListIsUnique` | go/cmd/opai-oci-transferd/main.go:308-312 | there is only one such list |
| `Planner.Plan` | go/cmd/opai-oci-transferd/main.go:263-312 | a successful plan has exactly the blobs of the planned manifests, exactly one record an edge or listed referrer, and every manifest within the depth limit; a failed one has a genuine cause in the graph; unless the graph is too deep it succeeds if and only if nothing is missing and all records fit |
| `PlanRecordsMeaning.RecordsMeanWhatTheySay` | go/cmd/opai-oci-transferd/main.go:264-306 | told from the registry alone, the records of a plan are exactly the root's, one for each selected entry of a planned index, and one for each referrer of a base manifest with that manifest as its subject |
| `Planner.AnswerPlan` | go/cmd/opai-oci-transferd/main.go:223-313 | the handler: which refusal is given for what, and that a plan is made only for content with the digests the request pins |
| `Planner.OnlyLimitsFail` | go/cmd/opai-oci-transferd/main.go:315-318 | if nothing is missing or unsupported, a plan fails only because the graph is too deep or has too many records |
| `Planner.SmallIsNotTooDeep` | go/cmd/opai-oci-transferd/main.go:316-322 | a graph of at most 32 manifests, cyclic or not, never meets the depth limit |
| `PlannerWitnesses.RingIsPlannedIff` | go/cmd/opai-oci-transferd/main.go:316-323 | a ring of indexes is planned exactly if it has no more than 32 of them, and a longer one fails by the limit |
| `PlannerWitnesses.RingNothingMissing` | go/cmd/opai-oci-transferd/main.go:316-323 | nothing is missing in such a ring |
| `Planner.NoFilterPlansAll` | go/cmd/opai-oci-transferd/main.go:277-307 | without a filter the shared `seen` set loses nothing: a plan covers exactly what root and direct referrers reach |
| `Planner.FilteredPlanIsExpectedIff` | go/cmd/opai-oci-transferd/main.go:268-307 | with a filter, exactly when that still holds |
| `Planner.FilterHidesReferred` | go/cmd/opai-oci-transferd/main.go:300-303 | a registry on which it does not |
| `EventStream.DrainLines` | src/opai_oci_transfer/client.py:127-140 | taking whole lines off the buffer computes the same reading as reading everything at once |
| `EventStream.Decode` | src/opai_oci_transfer/client.py:122-147 | the chunk loop computes the one-shot reading of the concatenated bytes, whether the stream is closed or the connection breaks |
| `EventStream.ChunkingIsIrrelevant` | src/opai_oci_transfer/client.py:122-140 | with a tail within the limit, events and end are the same for every split |
| `EventStream.GuardMatters` | src/opai_oci_transfer/client.py:122-127 | exactly when the limit on the tail makes a difference |
| `EventStream.ChunkingMattersIff` | src/opai_oci_transfer/client.py:122-140 | two splits of the same bytes differ for some pair exactly when an over-long tail after a newline is reached |
| `EventStream.RoundTrip` | src/opai_oci_transfer/client.py:122-140 | encoded events are read back up to the first terminal one, with a result exactly when there is one |
| `EventStream.TruncationForgesNothing` | src/opai_oci_transfer/client.py:122-140 | a stream cut or broken anywhere yields a prefix of what was written, and a result only if all of it had arrived |
| `Transfer.Copy` | go/cmd/opai-oci-transferd/main.go:376-503 | the refusals, or the events emitted, in order |
| `Transfer.CallbacksAreStreamed` | go/cmd/opai-oci-transferd/main.go:461-463 | each callback becomes one event in its place, with its digest and count, and the disposition of its state |
| `Transfer.RestIsStreamed` | go/cmd/opai-oci-transferd/main.go:477-502 | after the callbacks comes the error of the copy, or the verifying phase and the verdict of the first check that fails |
| `Transfer.RefusalsAreNamed` | go/cmd/opai-oci-transferd/main.go:377-445 | which refusal is given for what |
| `Transfer.ErrorsAreNamed` | go/cmd/opai-oci-transferd/main.go:534-562 | the code of a registry error tells what its text mentions |
| `Transfer.RetryableErrorsAre` | go/cmd/opai-oci-transferd/main.go:534-562 | exactly which error texts may be retried |
| `CopiedIsCounted.CopiedBlobsAreCounted` | go/cmd/opai-oci-transferd/main.go:461-463 | if the copy has skipped or finished every blob of the plan and the holder has reported what was streamed, the job counts all blobs, and all bytes if known |
| `CopyReports.AllDoneIsAllCounted` | src/opai_oci_transfer/store.py:303-349 | once a holder has reported every blob as done, `completed_blobs` is `total_blobs` and `completed_bytes` is `expected_bytes` |
| `Transfer.Verify` | go/cmd/opai-oci-transferd/main.go:482-502 | the last event is `completed` exactly if digest reference and given tag resolved to the planned digest |
| `Transfer.Admit` | go/cmd/opai-oci-transferd/main.go:376-445 | no refusal exactly for an acceptable request without a conflict; the 429 exactly for a readable request to a service at its limit; the other refusals in order |
| `Transfer.ClobbersIff` | go/cmd/opai-oci-transferd/main.go:439-477 | a copy is started over different content exactly if overwriting was asked for, the HEAD request failed, or the tag was moved after it |
| `Transfer.NoClobberCanClobber` | go/cmd/opai-oci-transferd/main.go:439-477 | operations under `no_clobber`, one for each of the two ways, that replace other content and end as completed |
| `Transfer.ExtrasAreIgnored` | go/cmd/opai-oci-transferd/main.go:482-502 | the answer does not depend on referrers and digest tags, asked for or present |
| `Transfer.CompletedCanLackExtras` | go/cmd/opai-oci-transferd/main.go:482-502 | every completed operation could have ended so with a requested referrer missing |
| `Transfer.RetryableRefusalIff` | go/cmd/opai-oci-transferd/main.go:392-396 | the only retryable refusal is the 429, given exactly to well-formed requests at the limit |
| `Transfer.StreamedMismatchIsFinal` | go/cmd/opai-oci-transferd/main.go:477-501 | no mismatch streamed by the service is ever retried by the manager |
| `Transfer.FirstStopIsFirst` | src/opai_oci_transfer/manager.py:395-425 | the event at which the worker stops is the first one that makes it stop |
| `Transfer.Execute` | src/opai_oci_transfer/manager.py:395-442 | the event loop leaves in the way the specification of exits says |
| `Transfer.CompletesIff` | src/opai_oci_transfer/manager.py:395-425 | the worker finishes as completed exactly when nothing stopped it and the reading ended with, and contained, its result |
| `Transfer.CancelledNeverCompletes` | src/opai_oci_transfer/manager.py:396-402 | a cancellation seen at any event prevents completion |
| `Transfer.RefusalRetriedIff` | src/opai_oci_transfer/manager.py:426-497 | the failure recorded for a refused copy is retryable exactly if it was that 429, no cancellation is pending, and the job is within its timeouts |
| `Transfer.CompletedMeansVerified` | src/opai_oci_transfer/manager.py:395-425 | whatever part of the bytes arrived in whatever chunks, broken off or not: if the worker completes the job, this operation had verified the destination |
| `Transfer.VerifiedCompletes` | src/opai_oci_transfer/manager.py:395-425 | the converse, when everything arrived and nobody interfered |
| `Transfer.CompletesIffVerified` | src/opai_oci_transfer/manager.py:395-425 | both together: an undisturbed worker reads all events, the last one terminal, and completes exactly if the destination was verified |
| `EndToEnd.CompletedJobsWereVerified` | src/opai_oci_transfer/manager.py:369-425 | in every run whose completing workers performed, under their token, an operation for the job, a completed row was completed by a call whose own operation verified the digest the row pins and the tag of its destination |
| `EndToEnd.CancellationStops` | src/opai_oci_transfer/manager.py:396-402 | a cancellation requested before some check of an operation, and not overwritten by a phase report before that check, keeps the worker from completing the job |
| `QueueEndings.CompletedBy` | src/opai_oci_transfer/store.py:356-378 | a completed row was completed by a true `finish` call of the run |
| `QueueEndings.RequestIsDroppedIff` | src/opai_oci_transfer/store.py:289-422 | a job whose cancellation is requested is neither so nor cancelled after a call exactly if that is a phase report, a recorded failure, or a `finish` as completed or failed, under its token |
| `QueueEndings.RequestStands` | src/opai_oci_transfer/store.py:197-208 | over runs: without such a call the request stands until the job is cancelled |
| `QueueEndings.FirstEndingDecides` | src/opai_oci_transfer/store.py:356-510 | the one call that ends a claim decides whether the job is queued, waits for a retry or has failed; no later call under the token changes any job row |
| `QueueEndings.CancellationIsSeen` | src/opai_oci_transfer/store.py:444-491 | over runs: without such a report every later check answers that the job is to be cancelled or lost |
| `QueueWitnesses.CancellationCanBeLost` | src/opai_oci_transfer/store.py:291-302 | a run whose phase report drops the request |
| `QueueWitnesses.CancellationLostToRetry` | src/opai_oci_transfer/store.py:395-417 | a run without phase reports in which a cancelled-for job is retried and completed |
| `QueueWitnesses.FirstWriteWins` | src/opai_oci_transfer/store.py:395-501 | a release and a final failure under one token: in one order the job is queued, in the other failed |
| `WorkerFailures.RefusedJobWaitsIff` | src/opai_oci_transfer/manager.py:426-499 | the row after a refused copy: `retry_wait` exactly after the 429 within the timeouts, failed otherwise; untouched if the worker has lost the job |
| `WorkerFailures.StopDecides` | src/opai_oci_transfer/manager.py:395-442 | the first event at which the worker stops decides how it leaves, and a failure is recorded as it was reported |
| `WorkerFailures.AuthenticationIsRetriedIff` | src/opai_oci_transfer/manager.py:426-442 | an authentication failure is retryable exactly if the credentials were refreshed and the timeouts allow it |
| `WorkerFailures.AuthenticationLeaves` | src/opai_oci_transfer/manager.py:426-499 | the row it leaves: `retry_wait` then, and failed otherwise |
| `WorkerFailures.EndDecides` | src/opai_oci_transfer/client.py:122-147 | a stream without a result is a final protocol error, a broken one is to be retried |
| `WorkerFailures.CancelledOperationRetriedIff` | src/opai_oci_transfer/manager.py:395-442 | what an undisturbed worker records for an operation the service cancelled is retried only if the connection broke before the last event |
| `Shutdown.ShutdownIsResumableIff` | src/opai_oci_transfer/manager.py:132-149 | over runs: right after the call that ends the claim, the job is resumable exactly if that is a release, or the decision of a worker whose stream broke off in time; it has failed exactly if it is any other decision of that worker |
| `PlanToQueue.PlansCanBeSaved` | src/opai_oci_transfer/store.py:248-282 | in every run, saving a plan the service made never raises, and succeeds exactly for the holder of a job being planned |
| `References.DecomposeIff` | src/opai_oci_transfer/models.py:33-38 | decomposition finds exactly the well-formed parts whose text it is |
| `References.UniqueDecomposition` | src/opai_oci_transfer/models.py:33-38 | a text of the grammar has only one decomposition |
| `References.AcceptedIff` | src/opai_oci_transfer/models.py:264-273 | what `parse_reference` accepts |
| `References.ParsedPartsAre` | src/opai_oci_transfer/models.py:264-273 | what it returns: the registry in lower case and the repository |
| `References.RegistryIs` | src/opai_oci_transfer/models.py:33-38 | the registry grammar: a host that neither begins nor ends with a dot or dash, and a port of one to five digits |
| `References.RepositoryIff` | src/opai_oci_transfer/models.py:33-38 | the repository grammar: runs of lower-case letters and digits, joined by single separators |
| `References.TagAndDigestAre` | src/opai_oci_transfer/models.py:33-38 | the tag and digest grammars, with their lengths |
| `References.GuardIffExplicit` | go/cmd/opai-oci-transferd/main.go:191-200 | on every text of the grammar the Go guard passes exactly those with a tag or digest |
| `References.ParsersAgree` | go/cmd/opai-oci-transferd/main.go:191-200 | what Python accepts passes the Go guard; texts of the grammar with neither tag nor digest are refused by both |

## Left out

- SQLite itself, asyncio, processes, sockets and readiness polling: a transaction is one atomic step, and the clock does not go back.
- `QueueStore.SQLiteQueueStore.Cancel`: its read and its write are one step, as in all run theorems, although the code has two transactions; the late write is treated by `WriteCancel`, `LateCancelWrite` and `SplitCancelUndoesCompletion`.
- `QueueStore.SQLiteQueueStore.Retry`: likewise, with `WriteRetry`, `LateRetryWrite`, `SplitRetryBreaksLease` and `SplitRetryUndoesCompletion`.
- `QueueStore.SQLiteQueueStore.Prune`: returns the deleted ids, not the numbers of errors, blobs and snapshots that went with them.
- The reads back of the row after the commit of `enqueue` and `claim`: the answer is the id, so what a concurrent change in between would show is not modelled.
- Ids and tokens are numbers; the text order of ids is their numeric order, and UUID collisions are excluded by legality of runs.
- The numbering of error rows across jobs: rows are kept per job in insertion order.
- 64-bit overflow of counters and of byte totals in SQLite.
- The exact error texts: sanitising, truncation, and the HTTP status the client puts in front of a refusal; credentials and providers.
- Listing, `get`, `wait`, `snapshot`, `errors`, `blobs`: reads of state that the theorems already describe.
- Planning inside `_execute`, and the handling of the `operations` map beyond its size and keys (`cancel`, and when an entry is removed).
- Storing events while they arrive: the worker's store answers are one sequence, given in advance but arbitrary; only the answers about cancellation are tied to the tables of a run (`EndToEnd.Watched`).
- regclient (`ImageCopy`, `ManifestGet`, `ReferrerList`, `ref.New`, `platform.Parse`): the registry is an oracle that answers the same digest in the same way throughout one plan.
- JSON and SHA-256: the parser and the encoder are parameters.
- Durations in the queue are microseconds, and jitter is any permitted draw; time zones other than UTC do not occur.
- `sort.Slice` is modelled as insertion; the result is the unique sorted list.
- `normalize_platforms` and the translation of platform strings: a platform is its normalised text.
