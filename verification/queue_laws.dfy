/** What each call leaves in the tables, column by column, and which calls may touch a column at all. */
module QueueLaws {
  import opened QueueTypes
  import opened RowSums
  import opened QueueSpec
  import opened QueueMoves
  import opened QueueRuns
  import opened QueueFencing

  // ----- who changes what ------------------------------------------------------------------

  lemma MoveFrame(j: Job, now: Time, m: Move)
    requires CanMove(j, now, m)
    ensures var k := Moved(j, now, m);
            && k.destination == j.destination && k.request == j.request && k.createdAt == j.createdAt
            && (!m.Plan? ==> k.snapshot == j.snapshot && k.expectedBytes == j.expectedBytes && k.totalBlobs == j.totalBlobs)
            && (!m.Count? ==> k.completedBytes == j.completedBytes && k.networkBytes == j.networkBytes
                              && k.completedBlobs == j.completedBlobs && k.bytesPerSecond == j.bytesPerSecond
                              && k.lastProgressAt == j.lastProgressAt)
            && (!m.Take? ==> k.runCount == j.runCount && k.startedAt == j.startedAt)
            && (!m.Fail? ==> k.consecutiveFailures == j.consecutiveFailures && k.integrityFailures == j.integrityFailures)
  {
  }

  lemma MoveFrameOfClaims(j: Job, now: Time, m: Move)
    requires CanMove(j, now, m)
    ensures var k := Moved(j, now, m);
            && (!m.Take? && !m.SweepOut? && !m.End? && !m.Fail? && !m.LetGo? ==> k.worker == j.worker && k.token == j.token)
            && (!m.Take? && !m.SweepOut? && !m.End? && !m.Fail? && !m.LetGo? && !m.Beat? ==> k.leaseExpiresAt == j.leaseExpiresAt)
            && (!m.Take? && !m.End? && !m.Fail? && !m.Requeue? ==> k.errorCode == j.errorCode && k.errorMessage == j.errorMessage)
            && (!m.Take? && !m.Fail? && !m.LetGo? && !m.Requeue? ==> k.nextRetryAt == j.nextRetryAt)
            && (!m.SweepOut? && !m.End? && !m.Fail? && !m.CancelNow? && !m.Requeue? ==> k.completedAt == j.completedAt)
            && (k.updatedAt == j.updatedAt || k.updatedAt == now)
            && (m.Still? ==> k == j)
  {
  }

  /** The kind of move tells the kind of call. */
  lemma MoveTellsCall(db: Db, c: Call, i: Id)
    requires i in db.jobs
    ensures var m := MoveOf(db, c, i);
            && (m.Plan? ==> c.op.OpSaveSnapshot? && c.op.id == i)
            && (m.Count? ==> c.op.OpProgress? && c.op.id == i && c.op.event.digest != "")
            && (m.Take? || m.SweepOut? ==> c.op.OpClaim?)
            && (m.Fail? ==> c.op.OpFailOrRetry? && c.op.id == i)
            && (m.End? ==> c.op.OpFinish? && c.op.id == i)
            && (m.Beat? ==> c.op.OpHeartbeat? && c.op.id == i)
            && (m.LetGo? ==> c.op.OpRelease? || (c.op.OpReleaseClaim? && c.op.id == i))
            && (m.CancelNow? || m.CancelAsk? ==> c.op == OpCancel(i))
            && (m.Requeue? ==> c.op == OpRetry(i))
            && (m.SetPhase? ==> c.op.OpProgress? && c.op.id == i && c.op.event.digest == "")
  {
  }

  /** A job's request, destination and creation time never change; its plan changes only by
      `save_snapshot`, its byte and blob counts and its last progress only by a digest event, its
      start and run count only by a claim, and its failure counts only by `fail_or_retry`. */
  lemma WhoChangesWhat(db: Db, c: Call, i: Id)
    requires DbOk(db) && i in db.jobs && i in Do(db, c).db.jobs
    ensures var j, k := db.jobs[i], Do(db, c).db.jobs[i];
            && k.destination == j.destination && k.request == j.request && k.createdAt == j.createdAt
            && (k.snapshot != j.snapshot || k.expectedBytes != j.expectedBytes || k.totalBlobs != j.totalBlobs ==>
                  c.op.OpSaveSnapshot? && c.op.id == i)
            && (k.completedBytes != j.completedBytes || k.networkBytes != j.networkBytes || k.completedBlobs != j.completedBlobs
                || k.bytesPerSecond != j.bytesPerSecond || k.lastProgressAt != j.lastProgressAt ==>
                  c.op.OpProgress? && c.op.id == i && c.op.event.digest != "")
            && (k.runCount != j.runCount || k.startedAt != j.startedAt ==> c.op.OpClaim?)
            && (k.consecutiveFailures != j.consecutiveFailures || k.integrityFailures != j.integrityFailures ==>
                  c.op.OpFailOrRetry? && c.op.id == i)
  {
    CallFollows(db, c, i);
    MoveFrame(db.jobs[i], c.now, MoveOf(db, c, i));
    MoveTellsCall(db, c, i);
  }

  // ----- claims ----------------------------------------------------------------------------

  /** The row a claim hands out was queued, or waited for a retry that is due, or was held under a
      lease that has expired; it is planning if it has no plan and copying otherwise, held by the
      claimer until the lease runs out. */
  lemma ClaimLeaves(db: Db, c: Call, i: Id)
    requires c.op.OpClaim? && Do(db, c).ret == Claimed(i)
    ensures i in db.jobs && i in Do(db, c).db.jobs
    ensures var j := db.jobs[i];
            || j.state.Queued?
            || (j.state.RetryWait? && j.nextRetryAt.Some? && j.nextRetryAt.value <= c.now)
            || (j.state in {Planning, Copying, Publishing, Verifying} && j.leaseExpiresAt.Some? && j.leaseExpiresAt.value < c.now)
    ensures var j, k := db.jobs[i], Do(db, c).db.jobs[i];
            && k.state == (if j.snapshot.None? then Planning else Copying)
            && k.worker == Some(c.op.claimer) && k.token == Some(c.op.newToken)
            && k.leaseExpiresAt == Some(c.now + c.op.lease * 1_000_000) && k.heartbeatAt == Some(c.now)
            && k.runCount == j.runCount + 1
            && (j.startedAt.None? ==> k.startedAt == Some(c.now)) && (j.startedAt.Some? ==> k.startedAt == j.startedAt)
            && k.nextRetryAt == None && k.errorCode == None && k.errorMessage == None && k.updatedAt == c.now
  {
    FirstIsTheFirst(Sweep(db.jobs, c.now), c.now);
  }

  /** Every claim, whatever it hands out, cancels the jobs to be cancelled that nobody holds under
      an unexpired lease, and no others. */
  lemma ClaimSweeps(db: Db, c: Call, i: Id)
    requires c.op.OpClaim? && i in db.jobs && db.jobs[i].state.CancelRequested?
    ensures i in Do(db, c).db.jobs
    ensures var j, k := db.jobs[i], Do(db, c).db.jobs[i];
            if j.worker.None? || (j.leaseExpiresAt.Some? && j.leaseExpiresAt.value < c.now) then
              && k.state.Cancelled? && k.completedAt == Some(c.now) && k.updatedAt == c.now
              && k.worker == None && k.token == None && k.leaseExpiresAt == None
            else
              k == j
  {
    FirstIsTheFirst(Sweep(db.jobs, c.now), c.now);
  }

  lemma HeartbeatLeaves(db: Db, c: Call)
    requires c.op.OpHeartbeat?
    ensures Do(db, c).ret.True? <==> Holds(db, c.op.id, c.op.token) && !db.jobs[c.op.id].state.IsTerminal()
    ensures Do(db, c).ret.True? ==>
              && c.op.id in Do(db, c).db.jobs
              && var k := Do(db, c).db.jobs[c.op.id];
                 k.leaseExpiresAt == Some(c.now + c.op.lease * 1_000_000) && k.heartbeatAt == Some(c.now)
                 && k.state == db.jobs[c.op.id].state && k.token == Some(c.op.token)
  {
  }

  // ----- plans and progress ----------------------------------------------------------------

  /** A saved plan is the one that was given, with one fresh row a blob. */
  lemma SaveLeaves(db: Db, c: Call)
    requires DbOk(db) && c.op.OpSaveSnapshot? && Do(db, c).ret.True?
    ensures var i, s := c.op.id, c.op.snapshot;
            && Holds(db, i, c.op.token) && db.jobs[i].state.Planning?
            && Holds(Do(db, c).db, i, c.op.token)
            && var k := Do(db, c).db.jobs[i];
               && k.state.Copying? && k.snapshot == Some(s) && k.expectedBytes == s.ExpectedBytes()
               && k.totalBlobs == Some(|s.blobs|) && k.updatedAt == c.now
    ensures var rows, ds := BlobRows(Do(db, c).db, c.op.id), c.op.snapshot.blobs;
            && (forall d | d in rows :: exists n :: 0 <= n < |ds| && ds[n].digest == d)
            && forall n | 0 <= n < |ds| ::
                 && ds[n].digest in rows
                 && var b := rows[ds[n].digest];
                    && b.mediaType == ds[n].mediaType && b.size == ds[n].size
                    && b.offset == 0 && b.networkOffset == 0 && b.disposition.Pending? && b.completedAt.None?
                    && b.createdAt == c.now && b.updatedAt == c.now
  {
    assert JobOk(db, c.op.id);
    SavedRows(c.op.snapshot.blobs, c.now);
  }

  lemma SavedRows(ds: seq<Descriptor>, now: Time)
    requires InsertBlobs(map[], ds, now).Some?
    ensures var rows := InsertBlobs(map[], ds, now).value;
            && (forall d | d in rows :: exists n :: 0 <= n < |ds| && ds[n].digest == d)
            && forall n | 0 <= n < |ds| :: ds[n].digest in rows && rows[ds[n].digest] == NewBlob(ds[n], now)
  {
    PlannedRows(ds, now);
    forall d | d in InsertBlobs(map[], ds, now).value
      ensures exists n :: 0 <= n < |ds| && ds[n].digest == d
    {
      var n := DigestIndex(ds, d);
    }
  }

  /** The three phases a report may name are the states of those names. */
  lemma PhaseLeaves(db: Db, c: Call)
    requires c.op.OpProgress? && c.op.event.digest == "" && Holds(db, c.op.id, c.op.token)
    ensures c.op.id in Do(db, c).db.jobs
    ensures var k, p := Do(db, c).db.jobs[c.op.id], c.op.event.phase;
            && (p.PhaseCopying? ==> k.state.Copying?)
            && (p.PhasePublishing? ==> k.state.Publishing?)
            && (p.PhaseVerifying? ==> k.state.Verifying?)
            && (p.NoPhase? ==> k == db.jobs[c.op.id])
            && (!p.NoPhase? ==> k.updatedAt == c.now)
    ensures Do(db, c).ret.True?
  {
  }

  /** The event is beyond what the blob's row says: a higher offset (for a finishing event of a
      blob of known size, a size above the offset), or done for the first time. */
  predicate IsNews(b: Blob, e: ProgressEvent) {
    var done, wasDone := e.disposition in {Finished, Reused, Mounted}, b.disposition in {Finished, Reused, Mounted};
    || (if done && b.size.Some? then b.size.value > b.offset else e.offset > b.offset)
    || (done && !wasDone)
  }

  /** The no-progress clock is reset by exactly the true digest events that are news. */
  lemma ProgressClock(db: Db, c: Call)
    requires c.op.OpProgress? && c.op.event.digest != "" && Do(db, c).ret.True?
    ensures c.op.id in db.jobs && c.op.id in Do(db, c).db.jobs && c.op.event.digest in BlobRows(db, c.op.id)
    ensures var j, k := db.jobs[c.op.id], Do(db, c).db.jobs[c.op.id];
            && k.lastProgressAt == (if IsNews(BlobRows(db, c.op.id)[c.op.event.digest], c.op.event) then c.now else j.lastProgressAt)
            && k.bytesPerSecond == c.op.event.bytesPerSecond && k.state == j.state && k.updatedAt == c.now
  {
  }

  predicate IsMax(m: int, a: int, b: int) {
    a <= m && b <= m && (m == a || m == b)
  }

  /** What a digest event leaves in the blob's row, whoever sent it. */
  lemma EventLeaves(db: Db, c: Call)
    requires c.op.OpProgress? && c.op.event.digest != "" && c.op.event.digest in BlobRows(db, c.op.id)
    ensures var rows, e := BlobRows(Do(db, c).db, c.op.id), c.op.event;
            && e.digest in rows
            && var b, k := BlobRows(db, c.op.id)[e.digest], rows[e.digest];
               var done := e.disposition in {Finished, Reused, Mounted};
               && k.mediaType == b.mediaType && k.size == b.size && k.createdAt == b.createdAt
               && k.disposition == e.disposition && k.updatedAt == c.now
               && (done && b.size.Some? ==> k.offset == b.size.value)
               && (!(done && b.size.Some?) ==> IsMax(k.offset, b.offset, e.offset))
               && (e.network.Some? ==> IsMax(k.networkOffset, b.networkOffset, e.network.value))
               && (e.network.None? && e.disposition.Transferring? ==> IsMax(k.networkOffset, b.networkOffset, e.offset))
               && (e.network.None? && !e.disposition.Transferring? ==> k.networkOffset == b.networkOffset)
               && (b.completedAt.Some? ==> k.completedAt == b.completedAt)
               && (b.completedAt.None? ==> k.completedAt == if done then Some(c.now) else None)
  {
  }

  // ----- endings ---------------------------------------------------------------------------

  lemma FinishLeaves(db: Db, c: Call)
    requires c.op.OpFinish? && Callable(db, c.op)
    ensures Do(db, c).ret.True? <==> Holds(db, c.op.id, c.op.token)
    ensures Do(db, c).ret.True? ==>
              && c.op.id in Do(db, c).db.jobs
              && var k := Do(db, c).db.jobs[c.op.id];
                 && k.state == c.op.final && k.errorCode == c.op.code && k.errorMessage == c.op.message
                 && k.completedAt == Some(c.now) && k.updatedAt == c.now
                 && k.worker == None && k.token == None && k.leaseExpiresAt == None
  {
  }

  /** A recorded failure counts, names its error, and either ends the job or makes it due again
      after the delay; its error row is the last one, whether the token was current or not. */
  lemma FailLeaves(db: Db, c: Call)
    requires c.op.OpFailOrRetry? && c.op.id in db.jobs
    ensures Do(db, c).ret.True? <==> Holds(db, c.op.id, c.op.token)
    ensures c.op.id in Do(db, c).db.errors && Do(db, c).db.errors[c.op.id] != []
    ensures var f, log := c.op.failure, Do(db, c).db.errors[c.op.id];
            var row := log[|log| - 1];
            && log[..|log| - 1] == (if c.op.id in db.errors then db.errors[c.op.id] else [])
            && row.occurredAt == c.now && row.code == f.code && row.message == f.message && row.retryable == f.retryable
            && row.httpStatus == f.httpStatus && row.retryAfter == f.delay
    ensures Do(db, c).ret.True? ==>
              && c.op.id in Do(db, c).db.jobs
              && var f, j, k := c.op.failure, db.jobs[c.op.id], Do(db, c).db.jobs[c.op.id];
                 && k.state == (if f.retryable then RetryWait else Failed)
                 && k.consecutiveFailures == j.consecutiveFailures + 1
                 && k.integrityFailures == j.integrityFailures + (if f.integrityFailure then 1 else 0)
                 && (f.retryable && f.delay.Some? ==> k.nextRetryAt == Some(c.now + f.delay.value))
                 && (f.retryable && f.delay.None? ==> k.nextRetryAt == Some(c.now))
                 && (f.retryable ==> k.completedAt == None)
                 && (!f.retryable ==> k.nextRetryAt == None && k.completedAt == Some(c.now))
                 && k.errorCode == Some(f.code) && k.errorMessage == Some(f.message) && k.updatedAt == c.now
                 && k.worker == None && k.token == None && k.leaseExpiresAt == None
  {
  }

  /** A released row is due at once, in `retry_wait` if it has a plan and queued if not. */
  predicate IsReleased(j: Job, k: Job, now: Time) {
    && k.state == (if j.snapshot.None? then Queued else RetryWait) && k.nextRetryAt == Some(now)
    && k.worker == None && k.token == None && k.leaseExpiresAt == None && k.heartbeatAt == None && k.updatedAt == now
  }

  lemma ReleaseClaimLeaves(db: Db, c: Call)
    requires c.op.OpReleaseClaim? && c.op.id in db.jobs
    ensures c.op.id in Do(db, c).db.jobs
    ensures var j, k := db.jobs[c.op.id], Do(db, c).db.jobs[c.op.id];
            && (Do(db, c).ret.True? <==>
                  j.state in {Planning, Copying, Publishing, Verifying} && j.token == Some(c.op.token))
            && if Do(db, c).ret.True? then IsReleased(j, k, c.now) else k == j
  {
  }

  lemma ReleaseLeaves(db: Db, c: Call, i: Id)
    requires i in db.jobs && c.op.OpRelease?
    ensures i in Do(db, c).db.jobs
    ensures var j, k := db.jobs[i], Do(db, c).db.jobs[i];
            if j.state in {Planning, Copying, Publishing, Verifying} && OwnedBy(j, c.op.prefix) then IsReleased(j, k, c.now)
            else k == j
  {
  }

  // ----- user calls ------------------------------------------------------------------------

  lemma CancelLeaves(db: Db, c: Call)
    requires c.op.OpCancel? && c.op.id in db.jobs
    ensures c.op.id in Do(db, c).db.jobs && Do(db, c).ret.Done?
    ensures var j, k := db.jobs[c.op.id], Do(db, c).db.jobs[c.op.id];
            if j.state in {Completed, Failed, Cancelled} then k == j
            else if j.state in {Queued, RetryWait} then
              k.state.Cancelled? && k.completedAt == Some(c.now) && k.updatedAt == c.now && k.token == j.token
            else
              k.state.CancelRequested? && k.completedAt == j.completedAt && k.updatedAt == c.now
              && k.token == j.token && k.leaseExpiresAt == j.leaseExpiresAt
  {
  }

  lemma RetryLeaves(db: Db, c: Call)
    requires c.op.OpRetry? && c.op.id in db.jobs
    ensures c.op.id in Do(db, c).db.jobs
    ensures var j, k := db.jobs[c.op.id], Do(db, c).db.jobs[c.op.id];
            if j.state.Failed? then
              && Do(db, c).ret.Done? && k.state.Queued? && k.errorCode == None && k.errorMessage == None
              && k.completedAt == None && k.nextRetryAt == None && k.updatedAt == c.now
            else
              Do(db, c).ret.Conflict? && k == j
  {
  }

  /** `dismiss` deletes exactly a terminal job, with everything that belongs to it. */
  lemma DismissLeaves(db: Db, c: Call)
    requires c.op.OpDismiss?
    ensures var i := c.op.id;
            if i !in db.jobs then Do(db, c) == Outcome(db, NotFound)
            else if db.jobs[i].state !in {Completed, Failed, Cancelled} then Do(db, c) == Outcome(db, Conflict)
            else
              && Do(db, c).ret.Done?
              && i !in Do(db, c).db.jobs && i !in Do(db, c).db.blobs && i !in Do(db, c).db.errors
              && forall k | k != i ::
                   && (k in Do(db, c).db.jobs <==> k in db.jobs) && (k in db.jobs ==> Do(db, c).db.jobs[k] == db.jobs[k])
                   && (k in Do(db, c).db.blobs <==> k in db.blobs) && (k in db.blobs ==> Do(db, c).db.blobs[k] == db.blobs[k])
                   && (k in Do(db, c).db.errors <==> k in db.errors)
                   && (k in db.errors ==> Do(db, c).db.errors[k] == db.errors[k])
  {
  }

  /** The jobs a `prune` asks for: terminal ones, in one of the states if any are named, and
      completed before the given time if one is. */
  predicate AskedFor(j: Job, states: set<JobState>, olderThan: Option<Time>) {
    && j.state in {Completed, Failed, Cancelled}
    && (states == {} || j.state in states)
    && (olderThan.None? || (j.completedAt.Some? && j.completedAt.value < olderThan.value))
  }

  lemma PruneLeaves(db: Db, c: Call)
    requires c.op.OpPrune?
    ensures Do(db, c).ret.Raised? <==> (c.op.states == {} && c.op.olderThan.None?)
                                       || exists s :: s in c.op.states && s !in {Completed, Failed, Cancelled}
    ensures Do(db, c).ret.Raised? || c.op.dryRun ==> Do(db, c).db == db
    ensures !Do(db, c).ret.Raised? && !c.op.dryRun ==>
              var after := Do(db, c).db;
              && (forall i :: i in after.jobs <==> i in db.jobs && !AskedFor(db.jobs[i], c.op.states, c.op.olderThan))
              && (forall i | i in after.jobs :: after.jobs[i] == db.jobs[i])
  {
  }

  /** A new job is queued, empty, and carries what was asked for; it has no blobs and no errors. */
  lemma EnqueueLeaves(db: Db, c: Call)
    requires c.op.OpEnqueue? && Callable(db, c.op) && c.op.newId !in db.jobs
    ensures c.op.pick.Some? ==> c.op.pick.value in db.jobs
    ensures Do(db, c).ret
         == if c.op.pick.None? then Created(c.op.newId)
            else if db.jobs[c.op.pick.value].request == c.op.request then Attached(c.op.pick.value) else Conflict
    ensures c.op.pick.Some? ==> Do(db, c).db == db
    ensures c.op.pick.None? ==>
              && c.op.newId in Do(db, c).db.jobs
              && BlobRows(Do(db, c).db, c.op.newId) == map[] && ErrorRows(Do(db, c).db, c.op.newId) == []
              && var k := Do(db, c).db.jobs[c.op.newId];
                 && k.destination == c.op.destination && k.request == c.op.request && k.state.Queued?
                 && k.createdAt == c.now && k.updatedAt == c.now && k.lastProgressAt == c.now
                 && k.runCount == 0 && k.consecutiveFailures == 0 && k.integrityFailures == 0
                 && k.completedBytes == 0 && k.networkBytes == 0 && k.completedBlobs == 0
                 && k.expectedBytes == None && k.totalBlobs == None && k.snapshot == None
                 && k.token == None && k.nextRetryAt == None && k.startedAt == None && k.completedAt == None
  {
  }
}
