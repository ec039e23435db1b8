/** Every store call as a function from the tables before it to the tables after it. One call
    is one SQL transaction (or, for `Cancel` and `Retry`, a read and a write taken together). */
module QueueSpec {
  import opened QueueTypes
  import opened RowSums
  import opened TextOrder

  // ----- enqueue ---------------------------------------------------------------------------

  predicate ActiveFor(db: Db, destination: string, i: Id) {
    i in db.jobs && db.jobs[i].destination == destination && db.jobs[i].state.IsActive()
  }

  /** `pick` is the first active row of the destination in descending creation order. Rows
      created at the same instant come in either order. */
  ghost predicate IsLatestActive(db: Db, destination: string, pick: Option<Id>) {
    match pick
    case None => forall i: Id :: !ActiveFor(db, destination, i)
    case Some(p) =>
      && ActiveFor(db, destination, p)
      && forall i: Id :: ActiveFor(db, destination, i) ==> db.jobs[i].createdAt <= db.jobs[p].createdAt
  }

  function NewJob(now: Time, destination: string, request: Request): Job {
    Job(destination, request, Queued, 0, None, 0, 0, None, None, 0, 0, 0, None, now, None, None, None,
        now, now, None, None, None, None, None, None)
  }

  function Enqueue(db: Db, now: Time, newId: Id, destination: string, request: Request,
                   pick: Option<Id>): Outcome
    requires pick.Some? ==> pick.value in db.jobs
  {
    if pick.Some? then
      Outcome(db, if db.jobs[pick.value].request == request then Attached(pick.value) else Conflict)
    else if newId in db.jobs then
      Outcome(db, Raised)
    else
      Outcome(Db(db.jobs[newId := NewJob(now, destination, request)],
                 db.blobs[newId := map[]],
                 db.errors[newId := []]),
              Created(newId))
  }

  // ----- claim -----------------------------------------------------------------------------

  predicate Expired(lease: Option<Time>, now: Time) {
    lease.Some? && lease.value < now
  }

  predicate Sweepable(j: Job, now: Time) {
    j.state.CancelRequested? && (j.worker.None? || Expired(j.leaseExpiresAt, now))
  }

  function SweptRow(j: Job, now: Time): Job {
    j.(state := Cancelled, completedAt := Some(now), updatedAt := now,
       worker := None, token := None, leaseExpiresAt := None)
  }

  function SweepRow(j: Job, now: Time): Job {
    if Sweepable(j, now) then SweptRow(j, now) else j
  }

  function Sweep(jobs: map<Id, Job>, now: Time): map<Id, Job> {
    map i | i in jobs :: SweepRow(jobs[i], now)
  }

  predicate Claimable(j: Job, now: Time) {
    || j.state.Queued?
    || (j.state.RetryWait? && j.nextRetryAt.Some? && j.nextRetryAt.value <= now)
    || (j.state.IsWorking() && Expired(j.leaseExpiresAt, now))
  }

  /** The claim order: creation time, then id. */
  predicate Before(jobs: map<Id, Job>, a: Id, b: Id)
    requires a in jobs && b in jobs
  {
    jobs[a].createdAt < jobs[b].createdAt || (jobs[a].createdAt == jobs[b].createdAt && a < b)
  }

  predicate IsFirst(jobs: map<Id, Job>, now: Time, i: Id) {
    && i in jobs
    && Claimable(jobs[i], now)
    && forall k | k in jobs :: Claimable(jobs[k], now) && k != i ==> Before(jobs, i, k)
  }

  ghost function First(jobs: map<Id, Job>, now: Time): Option<Id> {
    if exists i: Id :: IsFirst(jobs, now, i) then
      var i: Id :| IsFirst(jobs, now, i);
      Some(i)
    else None
  }

  function ClaimedRow(j: Job, now: Time, worker: string, token: Token, lease: int): Job {
    j.(state := if j.snapshot.None? then Planning else Copying,
       worker := Some(worker), token := Some(token),
       leaseExpiresAt := Some(now + lease * SECOND), heartbeatAt := Some(now),
       runCount := j.runCount + 1,
       startedAt := if j.startedAt.None? then Some(now) else j.startedAt,
       updatedAt := now, nextRetryAt := None, errorCode := None, errorMessage := None)
  }

  ghost function Claim(db: Db, now: Time, worker: string, lease: int, token: Token): Outcome {
    var swept := Sweep(db.jobs, now);
    var row := First(swept, now);
    if row.None? then Outcome(db.(jobs := swept), NothingToClaim)
    else
      var i := row.value;
      Outcome(db.(jobs := swept[i := ClaimedRow(swept[i], now, worker, token, lease)]), Claimed(i))
  }

  // ----- fenced writes ---------------------------------------------------------------------

  /** The guard `id=? AND claim_token=?` of every fenced write. */
  predicate Holds(db: Db, i: Id, t: Token) {
    i in db.jobs && db.jobs[i].token == Some(t)
  }

  function Write(db: Db, i: Id, j: Job): Outcome {
    Outcome(db.(jobs := db.jobs[i := j]), True)
  }

  function Heartbeat(db: Db, now: Time, i: Id, t: Token, lease: int): Outcome {
    if Holds(db, i, t) && !db.jobs[i].state.IsTerminal() then
      Write(db, i, db.jobs[i].(leaseExpiresAt := Some(now + lease * SECOND), heartbeatAt := Some(now)))
    else Outcome(db, False)
  }

  function PlannedRow(j: Job, now: Time, s: ImageSnapshot): Job {
    j.(snapshot := Some(s), expectedBytes := s.ExpectedBytes(), totalBlobs := Some(|s.blobs|),
       state := Copying, updatedAt := now)
  }

  function NewBlob(d: Descriptor, now: Time): Blob {
    Blob(d.mediaType, d.size, 0, 0, Pending, now, now, None)
  }

  /** Inserting the rows one by one; a digest already present violates the primary key. */
  function InsertBlobs(rows: Rows, ds: seq<Descriptor>, now: Time): Option<Rows> {
    if ds == [] then Some(rows)
    else
      var before := InsertBlobs(rows, ds[..|ds| - 1], now);
      var d := ds[|ds| - 1];
      if before.None? || d.digest in before.value then None
      else Some(before.value[d.digest := NewBlob(d, now)])
  }

  function BlobRows(db: Db, i: Id): Rows {
    if i in db.blobs then db.blobs[i] else map[]
  }

  function SaveSnapshot(db: Db, now: Time, i: Id, t: Token, s: ImageSnapshot): Outcome {
    if !(Holds(db, i, t) && db.jobs[i].state.Planning?) then Outcome(db, False)
    else
      var rows := InsertBlobs(BlobRows(db, i), s.blobs, now);
      if rows.None? then Outcome(db, Raised)
      else Outcome(db.(jobs := db.jobs[i := PlannedRow(db.jobs[i], now, s)],
                       blobs := db.blobs[i := rows.value]), True)
  }

  function PhaseState(p: Phase): JobState
    requires !p.NoPhase?
  {
    match p
    case PhaseCopying => Copying
    case PhasePublishing => Publishing
    case PhaseVerifying => Verifying
  }

  function PhaseProgress(db: Db, now: Time, i: Id, t: Token, p: Phase): Outcome {
    if p.NoPhase? then Outcome(db, True)
    else if Holds(db, i, t) then
      Write(db, i, db.jobs[i].(state := PhaseState(p), updatedAt := now))
    else Outcome(db, False)
  }

  function Max(a: int, b: int): int {
    if a < b then b else a
  }

  /** The blob row after an event: high-water offsets, except that a finished blob of known
      size takes its size, and a completion time that is set once. */
  function AdvancedBlob(b: Blob, now: Time, e: ProgressEvent): Blob {
    var offset := Max(0, e.offset);
    var network := Max(0, if e.network.Some? then e.network.value
                          else if e.disposition.Transferring? then offset else 0);
    var done := e.disposition.IsDone();
    b.(offset := if done && b.size.Some? then b.size.value else Max(b.offset, offset),
       networkOffset := Max(b.networkOffset, network),
       disposition := e.disposition,
       updatedAt := now,
       completedAt := if b.completedAt.None? && done then Some(now) else b.completedAt)
  }

  /** Whether an event counts as progress for the no-progress clock. */
  predicate IsProgress(before: Blob, after: Blob) {
    after.offset > before.offset || (after.disposition.IsDone() && !before.disposition.IsDone())
  }

  ghost function AggregatedRow(j: Job, now: Time, rows: Rows, rate: Option<int>, moved: bool): Job {
    j.(completedBytes := Sum(rows, Offset), networkBytes := Sum(rows, Network),
       completedBlobs := Sum(rows, DoneCount), bytesPerSecond := rate,
       lastProgressAt := if moved then now else j.lastProgressAt, updatedAt := now)
  }

  /** A digest event writes the blob row whatever the token; only the job row is fenced. */
  ghost function BlobProgress(db: Db, now: Time, i: Id, t: Token, e: ProgressEvent): Outcome {
    if e.digest !in BlobRows(db, i) then Outcome(db, False)
    else
      var before := BlobRows(db, i)[e.digest];
      var after := AdvancedBlob(before, now, e);
      var rows := BlobRows(db, i)[e.digest := after];
      var moved := db.(blobs := db.blobs[i := rows]);
      if Holds(db, i, t) then
        Write(moved, i, AggregatedRow(db.jobs[i], now, rows, e.bytesPerSecond, IsProgress(before, after)))
      else Outcome(moved, False)
  }

  ghost function Progress(db: Db, now: Time, i: Id, t: Token, e: ProgressEvent): Outcome {
    if e.digest == "" then PhaseProgress(db, now, i, t, e.phase) else BlobProgress(db, now, i, t, e)
  }

  function Finish(db: Db, now: Time, i: Id, t: Token, final: JobState,
                  code: Option<string>, message: Option<string>): Outcome {
    if Holds(db, i, t) then
      Write(db, i, db.jobs[i].(state := final, errorCode := code, errorMessage := message,
                               completedAt := Some(now), updatedAt := now,
                               worker := None, token := None, leaseExpiresAt := None))
    else Outcome(db, False)
  }

  function FailedRow(j: Job, now: Time, f: Failure): Job {
    j.(state := if f.retryable then RetryWait else Failed,
       consecutiveFailures := j.consecutiveFailures + 1,
       integrityFailures := j.integrityFailures + (if f.integrityFailure then 1 else 0),
       nextRetryAt := if f.retryable then Some(now + DelayOr0(f.delay)) else None,
       errorCode := Some(f.code), errorMessage := Some(f.message),
       completedAt := if f.retryable then None else Some(now), updatedAt := now,
       worker := None, token := None, leaseExpiresAt := None)
  }

  function DelayOr0(delay: Option<int>): int {
    if delay.Some? then delay.value else 0
  }

  function ErrorOf(now: Time, f: Failure): ErrorRow {
    ErrorRow(now, f.code, f.message, f.retryable, f.httpStatus, f.delay)
  }

  function ErrorRows(db: Db, i: Id): seq<ErrorRow> {
    if i in db.errors then db.errors[i] else []
  }

  /** The error row is inserted whatever the token; its foreign key needs the job to exist. */
  function FailOrRetry(db: Db, now: Time, i: Id, t: Token, f: Failure): Outcome {
    if i !in db.jobs then Outcome(db, Raised)
    else
      var logged := db.(errors := db.errors[i := ErrorRows(db, i) + [ErrorOf(now, f)]]);
      if Holds(db, i, t) then Write(logged, i, FailedRow(db.jobs[i], now, f))
      else Outcome(logged, False)
  }

  // ----- user calls ------------------------------------------------------------------------

  /** What `cancel` writes once it has read a state; the write itself is unconditional. */
  function CancelWrite(db: Db, now: Time, i: Id, readState: JobState): Db
    requires !readState.IsTerminal()
  {
    if i !in db.jobs then db
    else
      var final := if readState.Queued? || readState.RetryWait? then Cancelled else CancelRequested;
      db.(jobs := db.jobs[i := db.jobs[i].(state := final, updatedAt := now,
                    completedAt := if final.Cancelled? then Some(now) else db.jobs[i].completedAt)])
  }

  function Cancel(db: Db, now: Time, i: Id): Outcome {
    if i !in db.jobs then Outcome(db, NotFound)
    else if db.jobs[i].state.IsTerminal() then Outcome(db, Done)
    else Outcome(CancelWrite(db, now, i, db.jobs[i].state), Done)
  }

  /** The unconditional write of `retry`. */
  function RetryWrite(db: Db, now: Time, i: Id): Db {
    if i !in db.jobs then db
    else db.(jobs := db.jobs[i := db.jobs[i].(state := Queued, errorCode := None, errorMessage := None,
                                              completedAt := None, nextRetryAt := None, updatedAt := now)])
  }

  function Retry(db: Db, now: Time, i: Id): Outcome {
    if i !in db.jobs then Outcome(db, NotFound)
    else if !db.jobs[i].state.Failed? then Outcome(db, Conflict)
    else Outcome(RetryWrite(db, now, i), Done)
  }

  /** Deleting jobs takes their dependent rows along. */
  function Delete(db: Db, ids: set<Id>): Db {
    Db(db.jobs - ids, db.blobs - ids, db.errors - ids)
  }

  function Dismiss(db: Db, i: Id): Outcome {
    if i !in db.jobs then Outcome(db, NotFound)
    else if !db.jobs[i].state.IsTerminal() then Outcome(db, Conflict)
    else Outcome(Delete(db, {i}), Done)
  }

  // ----- releases --------------------------------------------------------------------------

  function ReleasedRow(j: Job, now: Time): Job {
    j.(state := if j.snapshot.None? then Queued else RetryWait, nextRetryAt := Some(now),
       worker := None, token := None, leaseExpiresAt := None, heartbeatAt := None, updatedAt := now)
  }

  function ReleaseClaim(db: Db, now: Time, i: Id, t: Token): Outcome {
    if Holds(db, i, t) && db.jobs[i].state.IsWorking() then
      Write(db, i, ReleasedRow(db.jobs[i], now))
    else Outcome(db, False)
  }

  /** The worker is the manager itself or one of its numbered workers. */
  predicate OwnedBy(j: Job, prefix: string) {
    j.worker.Some? && (j.worker.value == prefix || Like(prefix + "-" + "%", j.worker.value))
  }

  /** What that comes to for the ids the manager draws, which hold no wildcard. */
  lemma OwnedByPlain(j: Job, prefix: string)
    requires Plain(prefix)
    ensures OwnedBy(j, prefix)
       <==> && j.worker.Some?
            && var w := j.worker.value;
               w == prefix || (|prefix| < |w| && Lower(w[..|prefix| + 1]) == Lower(prefix + "-"))
  {
    if j.worker.Some? {
      LikeBeginning(prefix + "-", j.worker.value);
    }
  }

  function ReleaseRow(j: Job, now: Time, prefix: string): Job {
    if OwnedBy(j, prefix) && j.state.IsWorking() then ReleasedRow(j, now) else j
  }

  function Release(db: Db, now: Time, prefix: string): Outcome {
    Outcome(db.(jobs := map i | i in db.jobs :: ReleaseRow(db.jobs[i], now, prefix)), Done)
  }

  // ----- prune -----------------------------------------------------------------------------

  predicate PruneRejected(states: set<JobState>, olderThan: Option<Time>) {
    (states == {} && olderThan.None?) || exists s | s in states :: !s.IsTerminal()
  }

  predicate Prunable(j: Job, states: set<JobState>, olderThan: Option<Time>) {
    && j.state.IsTerminal()
    && (states != {} ==> j.state in states)
    && (olderThan.Some? ==> j.completedAt.Some? && j.completedAt.value < olderThan.value)
  }

  function PrunableIds(db: Db, states: set<JobState>, olderThan: Option<Time>): set<Id> {
    set i | i in db.jobs && Prunable(db.jobs[i], states, olderThan)
  }

  function Prune(db: Db, states: set<JobState>, olderThan: Option<Time>, dryRun: bool): Outcome {
    if PruneRejected(states, olderThan) then Outcome(db, Raised)
    else if dryRun then Outcome(db, Done)
    else Outcome(Delete(db, PrunableIds(db, states, olderThan)), Done)
  }

  // ----- one call --------------------------------------------------------------------------

  datatype Op =
    | OpEnqueue(newId: Id, destination: string, request: Request, pick: Option<Id>)
    | OpClaim(claimer: string, lease: int, newToken: Token)
    | OpHeartbeat(id: Id, token: Token, lease: int)
    | OpSaveSnapshot(id: Id, token: Token, snapshot: ImageSnapshot)
    | OpProgress(id: Id, token: Token, event: ProgressEvent)
    | OpFinish(id: Id, token: Token, final: JobState, code: Option<string>, message: Option<string>)
    | OpFailOrRetry(id: Id, token: Token, failure: Failure)
    | OpReleaseClaim(id: Id, token: Token)
    | OpDetails(id: Id, token: Token)
    | OpCancel(id: Id)
    | OpRetry(id: Id)
    | OpDismiss(id: Id)
    | OpRelease(prefix: string)
    | OpPrune(states: set<JobState>, olderThan: Option<Time>, dryRun: bool)

  /** What the database engine and the call signatures guarantee about a call's arguments. */
  ghost predicate Callable(db: Db, op: Op) {
    && (op.OpEnqueue? ==> IsLatestActive(db, op.destination, op.pick))
    && (op.OpFinish? ==> op.final.IsTerminal())
  }

  ghost function Apply(db: Db, now: Time, op: Op): Outcome
    requires Callable(db, op)
  {
    match op
    case OpEnqueue(newId, destination, request, pick) => Enqueue(db, now, newId, destination, request, pick)
    case OpClaim(claimer, lease, newToken) => Claim(db, now, claimer, lease, newToken)
    case OpHeartbeat(i, t, lease) => Heartbeat(db, now, i, t, lease)
    case OpSaveSnapshot(i, t, s) => SaveSnapshot(db, now, i, t, s)
    case OpProgress(i, t, e) => Progress(db, now, i, t, e)
    case OpFinish(i, t, final, code, message) => Finish(db, now, i, t, final, code, message)
    case OpFailOrRetry(i, t, f) => FailOrRetry(db, now, i, t, f)
    case OpReleaseClaim(i, t) => ReleaseClaim(db, now, i, t)
    case OpDetails(i, t) => Outcome(db, if i in db.jobs then Done else NotFound)
    case OpCancel(i) => Cancel(db, now, i)
    case OpRetry(i) => Retry(db, now, i)
    case OpDismiss(i) => Dismiss(db, i)
    case OpRelease(prefix) => Release(db, now, prefix)
    case OpPrune(states, olderThan, dryRun) => Prune(db, states, olderThan, dryRun)
  }

  // ----- the claim order -------------------------------------------------------------------

  /** A first claimable row exists as soon as there is a claimable row, and it is unique. */
  lemma {:induction false} FirstIsTheFirst(jobs: map<Id, Job>, now: Time)
    ensures First(jobs, now).None? <==> forall i | i in jobs :: !Claimable(jobs[i], now)
    ensures First(jobs, now).Some? ==> IsFirst(jobs, now, First(jobs, now).value)
    ensures forall i: Id :: IsFirst(jobs, now, i) ==> First(jobs, now) == Some(i)
  {
    var claimable := set i | i in jobs && Claimable(jobs[i], now);
    if claimable != {} {
      var i := LeastOf(jobs, claimable);
      assert IsFirst(jobs, now, i);
    }
    forall i | i in jobs && Claimable(jobs[i], now) ensures claimable != {} {
      assert i in claimable;
    }
    forall i: Id | IsFirst(jobs, now, i) ensures First(jobs, now) == Some(i) {
      var k := First(jobs, now).value;
      assert IsFirst(jobs, now, k);
    }
  }

  lemma {:induction false} LeastOf(jobs: map<Id, Job>, ids: set<Id>) returns (i: Id)
    requires ids != {} && ids <= jobs.Keys
    ensures i in ids && forall k | k in ids && k != i :: Before(jobs, i, k)
  {
    var c: Id :| c in ids;
    i := c;
    if ids != {c} {
      var k := LeastOf(jobs, ids - {c});
      i := if Before(jobs, c, k) then c else k;
      forall m | m in ids && m != i ensures Before(jobs, i, m) {
        assert m == c || m == k || (m in ids - {c} && Before(jobs, k, m));
      }
    }
  }
}
