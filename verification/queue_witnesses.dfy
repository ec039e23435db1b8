/** Concrete runs that show where the queue keeps less than it might: a late write of `retry`,
    and a superseded worker's progress event. */
module QueueWitnesses {
  import opened QueueTypes
  import opened RowSums
  import opened QueueSpec
  import opened QueueMoves
  import opened QueueRuns
  import opened QueueFencing
  import opened QueueLifecycle
  import opened QueueProgress
  import opened QueueEndings

  // ----- building runs with a single job ---------------------------------------------------

  /** After the run, `j` is the only job, and the run has drawn exactly these tokens. */
  ghost predicate Alone(run: Run, i: Id, j: Job, used: set<Token>) {
    && Legal(run) && run != []
    && Exec(run).jobs == map[i := j]
    && Tokens(run) == used
  }

  lemma Extended(run: Run, c: Call)
    requires Legal(run) && run != [] && Enabled(run, c)
    ensures Legal(run + [c]) && Last(run + [c]) == c && (run + [c])[..|run|] == run
    ensures Exec(run + [c]) == Do(Exec(run), c).db
    ensures Tokens(run + [c]) == Tokens(run) + if c.op.OpClaim? then {c.op.newToken} else {}
  {
    assert Front(run + [c]) == run;
  }

  lemma Enqueued(c: Call)
    requires c.op.OpEnqueue? && c.op.pick.None?
    ensures Alone([c], c.op.newId, NewJob(c.now, c.op.destination, c.op.request), {})
    ensures BlobRows(Exec([c]), c.op.newId) == map[]
  {
    assert Front([c]) == [] && Last([c]) == c;
    assert Legal([]) && Enabled([], c);
  }

  /** A claim by itself: it takes the only job, if that is claimable. */
  lemma ClaimsTheOnly(db: Db, now: Time, worker: string, lease: int, token: Token, i: Id, j: Job)
    requires db.jobs == map[i := j] && Claimable(j, now)
    ensures Claim(db, now, worker, lease, token)
         == Outcome(db.(jobs := map[i := ClaimedRow(j, now, worker, token, lease)]), Claimed(i))
  {
    var swept := Sweep(db.jobs, now);
    assert swept == db.jobs;
    assert IsFirst(swept, now, i);
    FirstIsTheFirst(swept, now);
  }

  lemma ThenClaimed(run: Run, i: Id, j: Job, used: set<Token>, c: Call)
    requires Alone(run, i, j, used) && c.op.OpClaim? && c.op.newToken !in used && Last(run).now <= c.now
    requires Claimable(j, c.now)
    ensures Alone(run + [c], i, ClaimedRow(j, c.now, c.op.claimer, c.op.newToken, c.op.lease), used + {c.op.newToken})
    ensures BlobRows(Exec(run + [c]), i) == BlobRows(Exec(run), i)
  {
    Extended(run, c);
    ClaimsTheOnly(Exec(run), c.now, c.op.claimer, c.op.lease, c.op.newToken, i, j);
  }

  lemma ThenFinished(run: Run, i: Id, j: Job, used: set<Token>, c: Call) returns (j': Job)
    requires Alone(run, i, j, used) && Last(run).now <= c.now
    requires c.op.OpFinish? && c.op.id == i && j.token == Some(c.op.token) && c.op.final.IsTerminal()
    ensures Alone(run + [c], i, j', used) && j'.state == c.op.final
  {
    Extended(run, c);
    j' := Exec(run + [c]).jobs[i];
  }

  lemma ThenRetried(run: Run, i: Id, j: Job, used: set<Token>, c: Call) returns (j': Job)
    requires Alone(run, i, j, used) && Last(run).now <= c.now && c.op == OpRetry(i) && j.state.Failed?
    ensures Alone(run + [c], i, j', used) && j'.state.Queued?
  {
    Extended(run, c);
    j' := Exec(run + [c]).jobs[i];
  }

  // ----- retry in two steps ----------------------------------------------------------------

  /** A job that failed, was retried and claimed again. */
  lemma RetriedAndClaimed(request: Request) returns (run: Run, j: Job)
    ensures Alone(run, 7, j, {1, 2}) && |run| == 5 && Last(run).now == 0
    ensures 7 in Exec(run[..3]).jobs && Exec(run[..3]).jobs[7].state.Failed?
    ensures j.token == Some(2) && j.leaseExpiresAt == Some(60 * SECOND) && j.state.IsWorking()
  {
    run := [Call(0, OpEnqueue(7, "d", request, None))];
    Enqueued(run[0]);
    j := NewJob(0, "d", request);
    var claim, again := Call(0, OpClaim("w", 60, 1)), Call(0, OpClaim("w", 60, 2));
    ThenClaimed(run, 7, j, {}, claim);
    run, j := run + [claim], ClaimedRow(j, 0, "w", 1, 60);
    var failed := Call(0, OpFinish(7, 1, Failed, None, None));
    j := ThenFinished(run, 7, j, {1}, failed);
    run := run + [failed];
    var third := run;
    var retried := Call(0, OpRetry(7));
    j := ThenRetried(run, 7, j, {1}, retried);
    run := run + [retried];
    ThenClaimed(run, 7, j, {1}, again);
    run, j := run + [again], ClaimedRow(j, 0, "w", 2, 60);
    assert run[..3] == third;
  }

  /** What goes wrong when a retry and a claim run between the read and the write of `retry`: the
      job is queued under its worker's unexpired lease, and the next claim hands it out again. */
  lemma SplitRetryBreaksLease(request: Request)
    ensures exists run: Run, i: Id, t: Token, u: Token ::
              && Legal(run) && |run| == 5 && i in Exec(run[..3]).jobs && Exec(run[..3]).jobs[i].state.Failed?
              && Holds(Exec(run), i, t) && u !in Tokens(run)
              && Exec(run).jobs[i].leaseExpiresAt.Some? && Last(run).now < Exec(run).jobs[i].leaseExpiresAt.value
              && Claim(RetryWrite(Exec(run), Last(run).now, i), Last(run).now, "v", 60, u).ret == Claimed(i)
  {
    var run, j := RetriedAndClaimed(request);
    var late := RetryWrite(Exec(run), 0, 7);
    assert late.jobs == map[7 := late.jobs[7]];
    ClaimsTheOnly(late, 0, "v", 60, 3, 7, late.jobs[7]);
    var u: Token := 3;
    assert Holds(Exec(run), 7, 2) && u !in Tokens(run);
    assert Claim(RetryWrite(Exec(run), Last(run).now, 7), Last(run).now, "v", 60, u).ret == Claimed(7);
  }

  /** And when that worker finishes before the late write: a completed job is queued again. */
  lemma SplitRetryUndoesCompletion(request: Request)
    ensures exists run: Run, i: Id ::
              && Legal(run) && |run| == 6 && i in Exec(run[..3]).jobs && Exec(run[..3]).jobs[i].state.Failed?
              && i in Exec(run).jobs && Exec(run).jobs[i].state.Completed?
              && RetryWrite(Exec(run), Last(run).now, i).jobs[i].state.Queued?
  {
    var run, j := RetriedAndClaimed(request);
    var done := Call(0, OpFinish(7, 2, Completed, None, None));
    var j' := ThenFinished(run, 7, j, {1, 2}, done);
    Extended(run, done);
    assert (run + [done])[..3] == run[..3];
    assert Exec(run + [done]).jobs[7].state.Completed?;
  }

  // ----- a lost cancellation ---------------------------------------------------------------

  lemma ThenCancelled(run: Run, i: Id, j: Job, used: set<Token>, c: Call) returns (j': Job)
    requires Alone(run, i, j, used) && Last(run).now <= c.now && c.op == OpCancel(i) && j.state.IsWorking()
    ensures Alone(run + [c], i, j', used) && j'.state.CancelRequested? && j'.token == j.token
  {
    Extended(run, c);
    j' := Exec(run + [c]).jobs[i];
  }

  lemma ThenReported(run: Run, i: Id, j: Job, used: set<Token>, c: Call) returns (j': Job)
    requires Alone(run, i, j, used) && Last(run).now <= c.now
    requires c.op.OpProgress? && j.token == Some(c.op.token) && ReportsPhase(c, i, c.op.token)
    ensures Alone(run + [c], i, j', used) && j'.state.IsWorking() && j'.token == j.token
  {
    Extended(run, c);
    j' := Exec(run + [c]).jobs[i];
  }

  /** A claimed job whose cancellation has been requested. */
  lemma CancelledInFlight(request: Request) returns (run: Run, j: Job)
    ensures Alone(run, 7, j, {1}) && |run| == 3 && Last(run).now == 0 && run[2].op == OpCancel(7)
    ensures forall k | 0 <= k < |run| :: !run[k].op.OpProgress?
    ensures j.state.CancelRequested? && j.token == Some(1)
  {
    run := [Call(0, OpEnqueue(7, "d", request, None))];
    Enqueued(run[0]);
    j := NewJob(0, "d", request);
    var claim, cancel := Call(0, OpClaim("w", 60, 1)), Call(0, OpCancel(7));
    ThenClaimed(run, 7, j, {}, claim);
    run, j := run + [claim], ClaimedRow(j, 0, "w", 1, 60);
    j := ThenCancelled(run, 7, j, {1}, cancel);
    run := run + [cancel];
  }

  /** Enqueue, claim, cancel, and a phase report of the worker that had asked just before: the
      request is gone, and the worker is told to go on. */
  lemma CancellationCanBeLost(request: Request)
    ensures exists run: Run, i: Id, t: Token ::
              && Legal(run) && |run| == 4 && run[2].op == OpCancel(i)
              && Holds(Exec(run[..3]), i, t) && Exec(run[..3]).jobs[i].state.CancelRequested?
              && GoesOn(Exec(run), i, t)
  {
    var start, j := CancelledInFlight(request);
    var report := Call(0, OpProgress(7, 1, ProgressEvent("", PhaseCopying, 0, None, Transferring, None)));
    j := ThenReported(start, 7, j, {1}, report);
    var run := start + [report];
    assert run[..3] == start;
    assert Holds(Exec(run[..3]), 7, 1) && GoesOn(Exec(run), 7, 1);
  }

  lemma ThenFailed(run: Run, i: Id, j: Job, used: set<Token>, c: Call) returns (j': Job)
    requires Alone(run, i, j, used) && Last(run).now <= c.now
    requires c.op.OpFailOrRetry? && c.op.id == i && j.token == Some(c.op.token)
    ensures Alone(run + [c], i, j', used) && j' == FailedRow(j, c.now, c.op.failure)
  {
    Extended(run, c);
    j' := Exec(run + [c]).jobs[i];
  }

  /** The same job after a retryable failure of its worker and a second claim. */
  lemma CancelledThenRetried(request: Request) returns (run: Run, j: Job)
    ensures Alone(run, 7, j, {1, 2}) && |run| == 5 && Last(run).now == 0 && run[2].op == OpCancel(7)
    ensures forall k | 0 <= k < |run| :: !run[k].op.OpProgress?
    ensures 7 in Exec(run[..3]).jobs && Exec(run[..3]).jobs[7].state.CancelRequested?
    ensures j.token == Some(2)
  {
    var start: Run;
    start, j := CancelledInFlight(request);
    var fail := Call(0, OpFailOrRetry(7, 1, Failure("timeout", "", true, None, None, false)));
    j := ThenFailed(start, 7, j, {1}, fail);
    run := start + [fail];
    var again := Call(0, OpClaim("w", 60, 2));
    ThenClaimed(run, 7, j, {1}, again);
    run, j := run + [again], ClaimedRow(j, 0, "w", 2, 60);
    assert run[..3] == start;
  }

  /** Enqueue, claim, cancel, a retryable failure of the worker, a second claim, and its finish:
      the request is gone without any phase report, and the job is completed. */
  lemma CancellationLostToRetry(request: Request)
    ensures exists run: Run, i: Id ::
              && Legal(run) && |run| == 6 && run[2].op == OpCancel(i)
              && i in Exec(run[..3]).jobs && Exec(run[..3]).jobs[i].state.CancelRequested?
              && (forall k | 0 <= k < |run| :: !run[k].op.OpProgress?)
              && i in Exec(run).jobs && Exec(run).jobs[i].state.Completed?
  {
    var start, j := CancelledThenRetried(request);
    var done := Call(0, OpFinish(7, 2, Completed, None, None));
    j := ThenFinished(start, 7, j, {1, 2}, done);
    var run := start + [done];
    assert run[..3] == start[..3];
    assert Exec(run).jobs[7].state.Completed?;
  }

  // ----- a race of two endings -------------------------------------------------------------

  lemma ThenReleased(run: Run, i: Id, j: Job, used: set<Token>, c: Call) returns (j': Job)
    requires Alone(run, i, j, used) && Last(run).now <= c.now
    requires c.op.OpReleaseClaim? && c.op.id == i && j.token == Some(c.op.token) && j.state.IsWorking()
    ensures Alone(run + [c], i, j', used) && j' == ReleasedRow(j, c.now)
  {
    Extended(run, c);
    j' := Exec(run + [c]).jobs[i];
  }

  /** A claimed job. */
  lemma InFlight(request: Request) returns (run: Run, j: Job)
    ensures Alone(run, 7, j, {1}) && |run| == 2 && Last(run).now == 0
    ensures j.state.IsWorking() && j.token == Some(1) && j.snapshot.None?
  {
    run := [Call(0, OpEnqueue(7, "d", request, None))];
    Enqueued(run[0]);
    var claim := Call(0, OpClaim("w", 60, 1));
    ThenClaimed(run, 7, NewJob(0, "d", request), {}, claim);
    run, j := run + [claim], ClaimedRow(NewJob(0, "d", request), 0, "w", 1, 60);
  }

  /** A second ending under the token leaves the job as the first one has left it. */
  lemma SecondEnding(start: Run, j: Job, first: Call, j': Job, second: Call)
    requires Alone(start, 7, j, {1}) && |start| == 2 && j.token == Some(1)
    requires Alone(start + [first], 7, j', {1}) && j'.token == None && first.now <= second.now
    requires IsEnding(second.op) && second.op.id == 7 && (second.op.OpFinish? ==> second.op.final.IsTerminal())
    ensures Alone(start + [first] + [second], 7, j', {1})
    ensures EndsAt(start + [first] + [second], 2, 7, 1)
  {
    var run := start + [first] + [second];
    Extended(start + [first], second);
    SupersededWritesNoJob(Exec(start + [first]), second);
    assert run[..2] == start && run[..3] == start + [first];
  }

  /** A worker's release and its final failure can come in either order, and the first one decides:
      the same two calls leave the job queued or failed. */
  lemma FirstWriteWins(request: Request)
    ensures exists run: Run, other: Run, i: Id, t: Token ::
              && Legal(run) && Legal(other) && |run| == |other| == 4 && run[..2] == other[..2]
              && run[2].op == other[3].op == OpReleaseClaim(i, t) && run[3].op == other[2].op
              && EndsAt(run, 2, i, t) && EndsAt(other, 2, i, t)
              && i in Exec(run).jobs && Exec(run).jobs[i].state.Queued?
              && i in Exec(other).jobs && Exec(other).jobs[i].state.Failed?
  {
    var start, j := InFlight(request);
    var release := Call(0, OpReleaseClaim(7, 1));
    var fail := Call(0, OpFailOrRetry(7, 1, Failure("cancelled", "", false, None, None, false)));
    var released := ThenReleased(start, 7, j, {1}, release);
    var failed := ThenFailed(start, 7, j, {1}, fail);
    SecondEnding(start, j, release, released, fail);
    SecondEnding(start, j, fail, failed, release);
    var run, other := start + [release] + [fail], start + [fail] + [release];
    assert run[..2] == start && other[..2] == start;
    assert Exec(run).jobs[7].state.Queued? && Exec(other).jobs[7].state.Failed?;
  }

  // ----- aggregates that lag behind --------------------------------------------------------

  function OneBlob(): ImageSnapshot {
    ImageSnapshot("s", "root", [Descriptor("blob", "layer", Some(5))], "plan")
  }

  lemma OneBlobRows(now: Time)
    ensures InsertBlobs(map[], OneBlob().blobs, now)
         == Some(map["blob" := NewBlob(Descriptor("blob", "layer", Some(5)), now)])
  {
    assert OneBlob().blobs[..0] == [];
  }

  lemma ThenPlanned(run: Run, i: Id, j: Job, used: set<Token>, c: Call)
    requires Alone(run, i, j, used) && Last(run).now <= c.now && BlobRows(Exec(run), i) == map[]
    requires c.op.OpSaveSnapshot? && c.op.id == i && c.op.snapshot == OneBlob()
    requires j.token == Some(c.op.token) && j.state.Planning?
    ensures Alone(run + [c], i, PlannedRow(j, c.now, OneBlob()), used)
    ensures BlobRows(Exec(run + [c]), i) == map["blob" := NewBlob(Descriptor("blob", "layer", Some(5)), c.now)]
  {
    Extended(run, c);
    OneBlobRows(c.now);
  }

  /** A plan saved by a first worker, whose lease then ran out, and a second claim. */
  lemma TakenOver(request: Request) returns (run: Run, j: Job)
    ensures Alone(run, 7, j, {1, 2}) && |run| == 4 && Last(run).now == 61 * SECOND
    ensures BlobRows(Exec(run), 7) == map["blob" := NewBlob(Descriptor("blob", "layer", Some(5)), 0)]
    ensures j.token == Some(2) && j.completedBytes == 0
  {
    run := [Call(0, OpEnqueue(7, "d", request, None))];
    Enqueued(run[0]);
    j := NewJob(0, "d", request);
    var claim, again := Call(0, OpClaim("w", 60, 1)), Call(61 * SECOND, OpClaim("v", 60, 2));
    var save := Call(0, OpSaveSnapshot(7, 1, OneBlob()));
    ThenClaimed(run, 7, j, {}, claim);
    run, j := run + [claim], ClaimedRow(j, 0, "w", 1, 60);
    ThenPlanned(run, 7, j, {1}, save);
    run, j := run + [save], PlannedRow(j, 0, OneBlob());
    ThenClaimed(run, 7, j, {1}, again);
    run, j := run + [again], ClaimedRow(j, 61 * SECOND, "v", 2, 60);
  }

  lemma SumOfOne(d: Digest, b: Blob)
    ensures Sum(map[d := b], Offset) == b.offset
  {
    SumTake(map[d := b], d, Offset);
    assert map[d := b] - {d} == map[];
  }

  /** Enqueue, claim, plan, lease expiry, second claim, and a late event of the first worker:
      after this legal run the cached byte count is not the sum of the offsets. */
  lemma AggregatesCanLag(request: Request)
    ensures exists run: Run, i: Id ::
              && Legal(run) && |run| == 5 && FencedOut(Exec(run[..4]), run[4], i)
              && i in Exec(run).jobs && !Synced(Exec(run).jobs[i], BlobRows(Exec(run), i))
              && Exec(run).jobs[i].completedBytes < Sum(BlobRows(Exec(run), i), Offset)
  {
    var start, j := TakenOver(request);
    var event := ProgressEvent("blob", NoPhase, 3, None, Transferring, None);
    var late := Call(61 * SECOND, OpProgress(7, 1, event));
    Extended(start, late);
    var run := start + [late];
    assert run[..4] == start;
    var b := AdvancedBlob(NewBlob(Descriptor("blob", "layer", Some(5)), 0), 61 * SECOND, event);
    assert BlobRows(Exec(run), 7) == map["blob" := b];
    SumOfOne("blob", b);
    assert FencedOut(Exec(start), late, 7);
  }
}
