/** What one store call does to one row. A call moves every job row by one of a dozen moves,
    each under its guard; whole-run results reason about the moves instead of the calls. */
module QueueMoves {
  import opened QueueTypes
  import opened RowSums
  import opened QueueSpec

  datatype Call = Call(now: Time, op: Op)

  ghost function Do(db: Db, c: Call): Outcome {
    if Callable(db, c.op) then Apply(db, c.now, c.op) else Outcome(db, Raised)
  }

  datatype Move =
    | Still
    | Take(claimer: string, newToken: Token, lease: int)
    | SweepOut
    | Beat(t: Token, lease: int)
    | Plan(t: Token, snapshot: ImageSnapshot)
    | SetPhase(t: Token, phase: Phase)
    | Count(t: Token, rows: Rows, rate: Option<int>, moved: bool)
    | End(t: Token, final: JobState, code: Option<string>, message: Option<string>)
    | Fail(t: Token, failure: Failure)
    | LetGo
    | CancelNow
    | CancelAsk
    | Requeue

  /** The guard under which a call makes a move. */
  ghost predicate CanMove(j: Job, now: Time, m: Move) {
    match m
    case Still => true
    case Take(_, _, _) => Claimable(j, now)
    case SweepOut => Sweepable(j, now)
    case Beat(t, _) => j.token == Some(t) && !j.state.IsTerminal()
    case Plan(t, s) => j.token == Some(t) && j.state.Planning?
    case SetPhase(t, p) => j.token == Some(t) && !p.NoPhase?
    case Count(t, _, _, _) => j.token == Some(t)
    case End(t, final, _, _) => j.token == Some(t) && final.IsTerminal()
    case Fail(t, _) => j.token == Some(t)
    case LetGo => j.state.IsWorking()
    case CancelNow => j.state.Queued? || j.state.RetryWait?
    case CancelAsk => j.state.IsWorking() || j.state.CancelRequested?
    case Requeue => j.state.Failed?
  }

  ghost function Moved(j: Job, now: Time, m: Move): Job
    requires CanMove(j, now, m)
  {
    match m
    case Still => j
    case Take(w, t, lease) => ClaimedRow(j, now, w, t, lease)
    case SweepOut => SweptRow(j, now)
    case Beat(t, lease) => j.(leaseExpiresAt := Some(now + lease * SECOND), heartbeatAt := Some(now))
    case Plan(t, s) => PlannedRow(j, now, s)
    case SetPhase(t, p) => j.(state := PhaseState(p), updatedAt := now)
    case Count(t, rows, rate, moved) => AggregatedRow(j, now, rows, rate, moved)
    case End(t, final, code, message) =>
      j.(state := final, errorCode := code, errorMessage := message, completedAt := Some(now), updatedAt := now,
         worker := None, token := None, leaseExpiresAt := None)
    case Fail(t, f) => FailedRow(j, now, f)
    case LetGo => ReleasedRow(j, now)
    case CancelNow => j.(state := Cancelled, updatedAt := now, completedAt := Some(now))
    case CancelAsk => j.(state := CancelRequested, updatedAt := now)
    case Requeue =>
      j.(state := Queued, errorCode := None, errorMessage := None, completedAt := None, nextRetryAt := None,
         updatedAt := now)
  }

  /** The move that call `c` makes on row `i`. */
  ghost function MoveOf(db: Db, c: Call, i: Id): Move
    requires i in db.jobs
  {
    var j := db.jobs[i];
    match c.op
    case OpEnqueue(_, _, _, _) => Still
    case OpClaim(w, lease, t) =>
      if First(Sweep(db.jobs, c.now), c.now) == Some(i) then Take(w, t, lease)
      else if Sweepable(j, c.now) then SweepOut
      else Still
    case OpHeartbeat(k, t, lease) =>
      if k == i && Holds(db, k, t) && !j.state.IsTerminal() then Beat(t, lease) else Still
    case OpSaveSnapshot(k, t, s) =>
      if k == i && SaveSnapshot(db, c.now, k, t, s).ret.True? then Plan(t, s) else Still
    case OpProgress(k, t, e) =>
      if k != i || !Holds(db, k, t) then Still
      else if e.digest == "" then (if e.phase.NoPhase? then Still else SetPhase(t, e.phase))
      else if e.digest in BlobRows(db, k) then
        var before := BlobRows(db, k)[e.digest];
        var after := AdvancedBlob(before, c.now, e);
        Count(t, BlobRows(db, k)[e.digest := after], e.bytesPerSecond, IsProgress(before, after))
      else Still
    case OpFinish(k, t, final, code, message) =>
      if k == i && Holds(db, k, t) && final.IsTerminal() then End(t, final, code, message) else Still
    case OpFailOrRetry(k, t, f) => if k == i && Holds(db, k, t) then Fail(t, f) else Still
    case OpReleaseClaim(k, t) => if k == i && Holds(db, k, t) && j.state.IsWorking() then LetGo else Still
    case OpDetails(_, _) => Still
    case OpCancel(k) =>
      if k != i || j.state.IsTerminal() then Still
      else if j.state.Queued? || j.state.RetryWait? then CancelNow
      else CancelAsk
    case OpRetry(k) => if k == i && j.state.Failed? then Requeue else Still
    case OpDismiss(_) => Still
    case OpRelease(prefix) => if OwnedBy(j, prefix) && j.state.IsWorking() then LetGo else Still
    case OpPrune(_, _, _) => Still
  }

  /** The whole effect of a call on the job row `i`: gone, made, or moved. */
  ghost predicate RowFollows(db: Db, c: Call, after: Db, i: Id) {
    && (i in db.jobs && i !in after.jobs ==> db.jobs[i].state.IsTerminal() && (c.op.OpDismiss? || c.op.OpPrune?))
    && (i !in db.jobs && i in after.jobs ==> RowIsNew(c, after, i))
    && (i in db.jobs && i in after.jobs ==>
          && CanMove(db.jobs[i], c.now, MoveOf(db, c, i))
          && after.jobs[i] == Moved(db.jobs[i], c.now, MoveOf(db, c, i)))
  }

  ghost predicate RowIsNew(c: Call, after: Db, i: Id)
    requires i in after.jobs
  {
    c.op.OpEnqueue? && c.op.newId == i && after.jobs[i] == NewJob(c.now, c.op.destination, c.op.request)
  }

  /** The whole effect of a call on the dependent rows of `i`. */
  ghost predicate DependentsFollow(db: Db, c: Call, after: Db, i: Id) {
    && (i in db.jobs && i in after.jobs ==>
          && BlobRows(after, i) == BlobRowsAfter(db, c, i)
          && ErrorRows(after, i) == ErrorRowsAfter(db, c, i))
    && (i !in db.jobs && i in after.jobs ==> BlobRows(after, i) == map[] && ErrorRows(after, i) == [])
  }

  ghost function BlobRowsAfter(db: Db, c: Call, i: Id): Rows {
    var rows := BlobRows(db, i);
    if c.op.OpSaveSnapshot? && c.op.id == i
       && SaveSnapshot(db, c.now, i, c.op.token, c.op.snapshot).ret.True?
    then InsertBlobs(rows, c.op.snapshot.blobs, c.now).value
    else if c.op.OpProgress? && c.op.id == i && c.op.event.digest != "" && c.op.event.digest in rows
    then rows[c.op.event.digest := AdvancedBlob(rows[c.op.event.digest], c.now, c.op.event)]
    else rows
  }

  ghost function ErrorRowsAfter(db: Db, c: Call, i: Id): seq<ErrorRow> {
    if c.op.OpFailOrRetry? && c.op.id == i then ErrorRows(db, i) + [ErrorOf(c.now, c.op.failure)]
    else ErrorRows(db, i)
  }

  ghost predicate KeysAgree(db: Db) {
    db.blobs.Keys == db.jobs.Keys == db.errors.Keys
  }

  // ----- one lemma a call ------------------------------------------------------------------

  lemma ClaimFollows(db: Db, c: Call, i: Id)
    requires KeysAgree(db) && c.op.OpClaim?
    ensures RowFollows(db, c, Claim(db, c.now, c.op.claimer, c.op.lease, c.op.newToken).db, i)
  {
    FirstIsTheFirst(Sweep(db.jobs, c.now), c.now);
  }

  lemma EnqueueFollows(db: Db, c: Call, i: Id)
    requires KeysAgree(db) && c.op.OpEnqueue? && Callable(db, c.op)
    ensures RowFollows(db, c, Enqueue(db, c.now, c.op.newId, c.op.destination, c.op.request, c.op.pick).db, i)
  {
  }

  lemma HeartbeatFollows(db: Db, c: Call, i: Id)
    requires KeysAgree(db) && c.op.OpHeartbeat?
    ensures RowFollows(db, c, Heartbeat(db, c.now, c.op.id, c.op.token, c.op.lease).db, i)
  {
  }

  lemma SaveSnapshotFollows(db: Db, c: Call, i: Id)
    requires KeysAgree(db) && c.op.OpSaveSnapshot?
    ensures RowFollows(db, c, SaveSnapshot(db, c.now, c.op.id, c.op.token, c.op.snapshot).db, i)
  {
  }

  lemma ProgressFollows(db: Db, c: Call, i: Id)
    requires KeysAgree(db) && c.op.OpProgress?
    ensures RowFollows(db, c, Progress(db, c.now, c.op.id, c.op.token, c.op.event).db, i)
  {
  }

  lemma FinishFollows(db: Db, c: Call, i: Id)
    requires KeysAgree(db) && c.op.OpFinish? && Callable(db, c.op)
    ensures RowFollows(db, c, Finish(db, c.now, c.op.id, c.op.token, c.op.final, c.op.code, c.op.message).db, i)
  {
  }

  lemma FailOrRetryFollows(db: Db, c: Call, i: Id)
    requires KeysAgree(db) && c.op.OpFailOrRetry?
    ensures RowFollows(db, c, FailOrRetry(db, c.now, c.op.id, c.op.token, c.op.failure).db, i)
  {
  }

  lemma ReleaseClaimFollows(db: Db, c: Call, i: Id)
    requires KeysAgree(db) && c.op.OpReleaseClaim?
    ensures RowFollows(db, c, ReleaseClaim(db, c.now, c.op.id, c.op.token).db, i)
  {
  }

  lemma ReleaseFollows(db: Db, c: Call, i: Id)
    requires KeysAgree(db) && c.op.OpRelease?
    ensures RowFollows(db, c, Release(db, c.now, c.op.prefix).db, i)
  {
  }

  lemma CancelFollows(db: Db, c: Call, i: Id)
    requires KeysAgree(db) && c.op.OpCancel?
    ensures RowFollows(db, c, Cancel(db, c.now, c.op.id).db, i)
  {
  }

  lemma RetryFollows(db: Db, c: Call, i: Id)
    requires KeysAgree(db) && c.op.OpRetry?
    ensures RowFollows(db, c, Retry(db, c.now, c.op.id).db, i)
  {
  }

  lemma DismissFollows(db: Db, c: Call, i: Id)
    requires KeysAgree(db) && c.op.OpDismiss?
    ensures RowFollows(db, c, Dismiss(db, c.op.id).db, i)
  {
  }

  lemma PruneFollows(db: Db, c: Call, i: Id)
    requires KeysAgree(db) && c.op.OpPrune?
    ensures RowFollows(db, c, Prune(db, c.op.states, c.op.olderThan, c.op.dryRun).db, i)
  {
  }

  // ----- the dependent rows ----------------------------------------------------------------

  /** The calls that write no dependent row. */
  predicate WritesJobsOnly(op: Op) {
    || op.OpClaim? || op.OpHeartbeat? || op.OpFinish? || op.OpReleaseClaim? || op.OpDetails?
    || op.OpCancel? || op.OpRetry? || op.OpRelease?
  }

  lemma ClaimKeepsDependents(db: Db, now: Time, worker: string, lease: int, token: Token)
    ensures var after := Claim(db, now, worker, lease, token).db;
            after.jobs.Keys == db.jobs.Keys && after.blobs == db.blobs && after.errors == db.errors
  {
    FirstIsTheFirst(Sweep(db.jobs, now), now);
  }

  lemma JobCallsKeepDependents(db: Db, c: Call)
    requires Callable(db, c.op) && WritesJobsOnly(c.op)
    ensures var after := Do(db, c).db;
            after.jobs.Keys == db.jobs.Keys && after.blobs == db.blobs && after.errors == db.errors
  {
    if c.op.OpClaim? {
      ClaimKeepsDependents(db, c.now, c.op.claimer, c.op.lease, c.op.newToken);
    }
  }

  lemma EnqueueDependents(db: Db, c: Call, i: Id)
    requires KeysAgree(db) && Callable(db, c.op) && c.op.OpEnqueue?
    ensures var after := Enqueue(db, c.now, c.op.newId, c.op.destination, c.op.request, c.op.pick).db;
            KeysAgree(after) && DependentsFollow(db, c, after, i)
  {
  }

  lemma SaveSnapshotDependents(db: Db, c: Call, i: Id)
    requires KeysAgree(db) && c.op.OpSaveSnapshot?
    ensures var after := SaveSnapshot(db, c.now, c.op.id, c.op.token, c.op.snapshot).db;
            KeysAgree(after) && DependentsFollow(db, c, after, i)
  {
  }

  lemma ProgressDependents(db: Db, c: Call, i: Id)
    requires KeysAgree(db) && c.op.OpProgress?
    ensures var after := Progress(db, c.now, c.op.id, c.op.token, c.op.event).db;
            KeysAgree(after) && DependentsFollow(db, c, after, i)
  {
  }

  lemma FailOrRetryDependents(db: Db, c: Call, i: Id)
    requires KeysAgree(db) && c.op.OpFailOrRetry?
    ensures var after := FailOrRetry(db, c.now, c.op.id, c.op.token, c.op.failure).db;
            KeysAgree(after) && DependentsFollow(db, c, after, i)
  {
  }

  lemma DeletionDependents(db: Db, c: Call, ids: set<Id>, i: Id)
    requires KeysAgree(db) && (c.op.OpDismiss? || c.op.OpPrune?)
    ensures var after := Delete(db, ids); KeysAgree(after) && DependentsFollow(db, c, after, i)
  {
  }

  lemma CallDependents(db: Db, c: Call, i: Id)
    requires KeysAgree(db)
    ensures KeysAgree(Do(db, c).db) && DependentsFollow(db, c, Do(db, c).db, i)
  {
    if Callable(db, c.op) {
      if WritesJobsOnly(c.op) {
        JobCallsKeepDependents(db, c);
      } else {
        match c.op
        case OpEnqueue(_, _, _, _) => EnqueueDependents(db, c, i);
        case OpSaveSnapshot(_, _, _) => SaveSnapshotDependents(db, c, i);
        case OpProgress(_, _, _) => ProgressDependents(db, c, i);
        case OpFailOrRetry(_, _, _) => FailOrRetryDependents(db, c, i);
        case OpDismiss(k) => DeletionDependents(db, c, {k}, i);
        case OpPrune(states, olderThan, _) => DeletionDependents(db, c, PrunableIds(db, states, olderThan), i);
      }
    }
  }

  /** Every call moves every row by the move that `MoveOf` names, and nothing else. */
  lemma CallFollows(db: Db, c: Call, i: Id)
    requires KeysAgree(db)
    ensures RowFollows(db, c, Do(db, c).db, i)
  {
    if Callable(db, c.op) {
      match c.op
      case OpEnqueue(_, _, _, _) => EnqueueFollows(db, c, i);
      case OpClaim(_, _, _) => ClaimFollows(db, c, i);
      case OpHeartbeat(_, _, _) => HeartbeatFollows(db, c, i);
      case OpSaveSnapshot(_, _, _) => SaveSnapshotFollows(db, c, i);
      case OpProgress(_, _, _) => ProgressFollows(db, c, i);
      case OpFinish(_, _, _, _, _) => FinishFollows(db, c, i);
      case OpFailOrRetry(_, _, _) => FailOrRetryFollows(db, c, i);
      case OpReleaseClaim(_, _) => ReleaseClaimFollows(db, c, i);
      case OpDetails(_, _) => assert Do(db, c).db == db;
      case OpCancel(_) => CancelFollows(db, c, i);
      case OpRetry(_) => RetryFollows(db, c, i);
      case OpDismiss(_) => DismissFollows(db, c, i);
      case OpRelease(_) => ReleaseFollows(db, c, i);
      case OpPrune(_, _, _) => PruneFollows(db, c, i);
    }
  }
}
