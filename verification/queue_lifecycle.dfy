/** The life of a job over whole runs: its states, its deletion and its pinned plan. */
module QueueLifecycle {
  import opened QueueTypes
  import opened RowSums
  import opened QueueSpec
  import opened QueueMoves
  import opened QueueRuns
  import opened QueueFencing

  // ----- a job's row from one moment to a later one ----------------------------------------

  /** A job present at two moments of a run was present one call before the later one: ids
      are never reused. */
  lemma PresentBefore(run: Run, n: nat, i: Id)
    requires Legal(run) && n < |run|
    requires i in Exec(run[..n]).jobs && i in Exec(run).jobs
    ensures Front(run)[..n] == run[..n]
    ensures i in Exec(Front(run)).jobs && DbOk(Exec(Front(run))) && JobOk(Exec(Front(run)), i)
  {
    assert Front(run)[..n] == run[..n];
    LegalPrefix(run, n);
    RunsKeepTokens(run[..n]);
    UsedGrow(Front(run), n);
    IdAfter(run, i);
    RunsKeepDbOk(Front(run));
  }

  /** A deleted job stays deleted. */
  lemma {:induction false} DeletedForever(run: Run, n: nat, i: Id)
    requires Legal(run) && n <= |run|
    requires i in Ids(run[..n]) && i !in Exec(run[..n]).jobs
    ensures i !in Exec(run).jobs
    decreases |run|
  {
    if n == |run| {
      assert run[..n] == run;
    } else {
      assert Front(run)[..n] == run[..n];
      DeletedForever(Front(run), n, i);
      UsedGrow(Front(run), n);
      if i in Exec(run).jobs {
        IdAfter(run, i);
      }
    }
  }

  // ----- the state machine -----------------------------------------------------------------

  /** The arrows of the state machine. */
  predicate Arrow(s: JobState, s': JobState) {
    match s
    case Queued => s'.Planning? || s'.Copying? || s'.Cancelled?
    case RetryWait => s'.Planning? || s'.Copying? || s'.Cancelled?
    case Completed => false
    case Cancelled => false
    case Failed => s'.Queued?
    case CancelRequested => s'.IsTerminal() || s'.RetryWait? || s'.Copying? || s'.Publishing? || s'.Verifying?
    case _ => true
  }

  lemma MoveFollowsArrow(j: Job, now: Time, m: Move)
    requires RowOk(j) && CanMove(j, now, m)
    ensures var s' := Moved(j, now, m).state; s' == j.state || Arrow(j.state, s')
    ensures j.state.Completed? || j.state.Cancelled? ==> Moved(j, now, m) == j
    ensures j.state.Failed? && Moved(j, now, m) != j ==> m.Requeue?
  {
  }

  /** Every change of a job's state follows an arrow, and a failed job leaves only through `retry`. */
  lemma StateMachine(run: Run, i: Id)
    requires Legal(run) && run != []
    requires i in Exec(Front(run)).jobs && i in Exec(run).jobs
    ensures var s, s' := Exec(Front(run)).jobs[i].state, Exec(run).jobs[i].state;
            && (s' != s ==> Arrow(s, s'))
            && (s.Failed? && s' != s ==> Last(run).op == OpRetry(i))
  {
    RunsKeepDbOk(Front(run));
    var db, c := Exec(Front(run)), Last(run);
    assert JobOk(db, i);
    CallFollows(db, c, i);
    MoveFollowsArrow(db.jobs[i], c.now, MoveOf(db, c, i));
    RequeueIsRetry(db, c, i);
  }

  lemma RequeueIsRetry(db: Db, c: Call, i: Id)
    requires i in db.jobs
    ensures MoveOf(db, c, i).Requeue? ==> c.op == OpRetry(i)
  {
  }

  /** `completed` and `cancelled` are absorbing: the whole row is frozen until it is deleted. */
  lemma {:induction false} Absorbing(run: Run, n: nat, i: Id)
    requires Legal(run) && n <= |run|
    requires i in Exec(run[..n]).jobs && i in Exec(run).jobs
    requires Exec(run[..n]).jobs[i].state.Completed? || Exec(run[..n]).jobs[i].state.Cancelled?
    ensures Exec(run).jobs[i] == Exec(run[..n]).jobs[i]
    decreases |run|
  {
    if n == |run| {
      assert run[..n] == run;
    } else {
      PresentBefore(run, n, i);
      Absorbing(Front(run), n, i);
      var db, c := Exec(Front(run)), Last(run);
      CallFollows(db, c, i);
      MoveFollowsArrow(db.jobs[i], c.now, MoveOf(db, c, i));
    }
  }

  /** A job whose cancellation was requested is never handed out. It leaves that state only
      through a call under its current token, or through the sweep once the lease has expired. */
  lemma CancelRequestedHolds(db: Db, c: Call, i: Id)
    requires DbOk(db) && i in db.jobs && db.jobs[i].state.CancelRequested?
    ensures Do(db, c).ret != Claimed(i)
    ensures i in Do(db, c).db.jobs
    ensures !Do(db, c).db.jobs[i].state.CancelRequested? ==>
              || (IsFenced(c.op) && c.op.id == i && Holds(db, i, c.op.token))
              || (c.op.OpClaim? && db.jobs[i].leaseExpiresAt.value < c.now && Do(db, c).db.jobs[i].state.Cancelled?)
  {
    assert JobOk(db, i);
    CallFollows(db, c, i);
    CancelRequestedIsNotTaken(db, c, i);
    MoveOutOfCancelRequested(db, c, i);
  }

  lemma CancelRequestedIsNotTaken(db: Db, c: Call, i: Id)
    requires i in db.jobs && db.jobs[i].state.CancelRequested?
    ensures Do(db, c).ret != Claimed(i)
  {
    if c.op.OpClaim? {
      FirstIsTheFirst(Sweep(db.jobs, c.now), c.now);
    }
  }

  lemma MoveOutOfCancelRequested(db: Db, c: Call, i: Id)
    requires i in db.jobs && RowOk(db.jobs[i]) && db.jobs[i].state.CancelRequested?
    requires CanMove(db.jobs[i], c.now, MoveOf(db, c, i))
    ensures var m := MoveOf(db, c, i);
            || Moved(db.jobs[i], c.now, m).state.CancelRequested?
            || (IsFenced(c.op) && c.op.id == i && Holds(db, i, c.op.token))
            || (c.op.OpClaim? && m.SweepOut? && db.jobs[i].leaseExpiresAt.value < c.now)
  {
  }

  // ----- the pinned plan -------------------------------------------------------------------

  /** Once a plan is pinned, the plan, its totals and its set of blobs with their sizes are the
      same at every later moment of the job's life. */
  lemma {:induction false} PlanIsPinned(run: Run, n: nat, i: Id)
    requires Legal(run) && n <= |run|
    requires i in Exec(run[..n]).jobs && i in Exec(run).jobs
    requires Exec(run[..n]).jobs[i].snapshot.Some?
    ensures Exec(run).jobs[i].snapshot == Exec(run[..n]).jobs[i].snapshot
    ensures Exec(run).jobs[i].expectedBytes == Exec(run[..n]).jobs[i].expectedBytes
    ensures Exec(run).jobs[i].totalBlobs == Exec(run[..n]).jobs[i].totalBlobs
    ensures SameBlobs(BlobRows(Exec(run[..n]), i), BlobRows(Exec(run), i))
    decreases |run|
  {
    if n == |run| {
      assert run[..n] == run;
    } else {
      PresentBefore(run, n, i);
      PlanIsPinned(Front(run), n, i);
      PlanStays(Exec(Front(run)), Last(run), i);
    }
  }

  predicate SameBlobs(rows: Rows, rows': Rows) {
    && rows'.Keys == rows.Keys
    && forall d | d in rows :: rows'[d].size == rows[d].size && rows'[d].mediaType == rows[d].mediaType
  }

  lemma PlanStays(db: Db, c: Call, i: Id)
    requires DbOk(db) && i in db.jobs && i in Do(db, c).db.jobs && db.jobs[i].snapshot.Some?
    ensures Do(db, c).db.jobs[i].snapshot == db.jobs[i].snapshot
    ensures Do(db, c).db.jobs[i].expectedBytes == db.jobs[i].expectedBytes
    ensures Do(db, c).db.jobs[i].totalBlobs == db.jobs[i].totalBlobs
    ensures SameBlobs(BlobRows(db, i), BlobRows(Do(db, c).db, i))
  {
    assert JobOk(db, i);
    CallFollows(db, c, i);
    CallDependents(db, c, i);
    MoveKeepsPlan(db.jobs[i], c.now, MoveOf(db, c, i));
    CallKeepsRow(db, c, i);
    RowsStay(db, c, i);
  }

  lemma RowsStay(db: Db, c: Call, i: Id)
    requires i in db.jobs && !MoveOf(db, c, i).Plan?
    ensures SameBlobs(BlobRows(db, i), BlobRowsAfter(db, c, i))
  {
  }

  /** Planning succeeds at most once in a job's life, and a claim after it resumes the copy. */
  lemma PlansOnce(run: Run, a: nat, b: nat, i: Id)
    requires Legal(run) && a < b < |run|
    requires run[a].op.OpSaveSnapshot? && run[a].op.id == i && Answer(run, a).True?
    ensures run[b].op.OpSaveSnapshot? && run[b].op.id == i ==> !Answer(run, b).True?
    ensures run[b].op.OpClaim? && Answer(run, b) == Claimed(i) ==>
              i in Exec(run[..b + 1]).jobs && Exec(run[..b + 1]).jobs[i].state.Copying?
  {
    StepAt(run, b);
    PlannedSince(run, a, b, i);
    NextPlan(Exec(run[..b]), run[b], i);
  }

  lemma PlannedSince(run: Run, a: nat, b: nat, i: Id)
    requires Legal(run) && a < b < |run|
    requires run[a].op.OpSaveSnapshot? && run[a].op.id == i && Answer(run, a).True?
    ensures i in Exec(run[..b]).jobs ==> RowOk(Exec(run[..b]).jobs[i]) && Exec(run[..b]).jobs[i].snapshot.Some?
  {
    StepAt(run, a);
    SavedPlan(Exec(run[..a]), run[a]);
    LegalPrefix(run, b);
    RunsKeepDbOk(run[..b]);
    if i in Exec(run[..b]).jobs {
      assert run[..b][..a + 1] == run[..a + 1];
      PlanIsPinned(run[..b], a + 1, i);
      assert JobOk(Exec(run[..b]), i);
    }
  }

  lemma SavedPlan(db: Db, c: Call)
    requires c.op.OpSaveSnapshot? && Do(db, c).ret.True?
    ensures c.op.id in Do(db, c).db.jobs && Do(db, c).db.jobs[c.op.id].snapshot.Some?
  {
  }

  lemma NextPlan(db: Db, c: Call, i: Id)
    requires i in db.jobs ==> RowOk(db.jobs[i]) && db.jobs[i].snapshot.Some?
    ensures c.op.OpSaveSnapshot? && c.op.id == i ==> !Do(db, c).ret.True?
    ensures c.op.OpClaim? && Do(db, c).ret == Claimed(i) ==> i in Do(db, c).db.jobs && Do(db, c).db.jobs[i].state.Copying?
  {
    if c.op.OpClaim? {
      FirstIsTheFirst(Sweep(db.jobs, c.now), c.now);
    }
  }

  // ----- cancel and retry in two steps -----------------------------------------------------

  predicate Waiting(s: JobState) {
    s.Queued? || s.RetryWait?
  }

  /** The write of `cancel`, made after the row has changed since the read, leaves the row the
      atomic call would leave exactly when the row is still active and still on the same side of
      the waiting/claimed divide as the state that was read; or when the job was cancelled
      meanwhile at this very instant, so that writing it again shows nothing. */
  lemma LateCancelWrite(db: Db, now: Time, i: Id, readState: JobState)
    requires i in db.jobs && !readState.IsTerminal()
    ensures CancelWrite(db, now, i, readState).jobs[i] == Cancel(db, now, i).db.jobs[i]
       <==> var row := db.jobs[i];
            if row.state.IsTerminal() then
              row.state.Cancelled? && Waiting(readState) && row.updatedAt == now && row.completedAt == Some(now)
            else
              Waiting(row.state) <==> Waiting(readState)
  {
  }

  /** The write of `retry`, made after the row has changed since it was read as failed, leaves the
      row the atomic call would leave exactly when the job is still failed, or when it was queued
      meanwhile at this very instant. */
  lemma LateRetryWrite(db: Db, now: Time, i: Id)
    requires i in db.jobs
    ensures RetryWrite(db, now, i).jobs[i] == Retry(db, now, i).db.jobs[i]
       <==> var row := db.jobs[i];
            || row.state.Failed?
            || (row.state.Queued? && row.updatedAt == now && row.errorCode.None? && row.errorMessage.None?
                && row.completedAt.None? && row.nextRetryAt.None?)
  {
    var row := db.jobs[i];
    var written := RetryWrite(db, now, i).jobs[i];
    assert written.state.Queued? && written.updatedAt == now && written.errorCode.None? && written.errorMessage.None?
           && written.completedAt.None? && written.nextRetryAt.None?;
  }

  /** What goes wrong when a claim and a finish run between the read and the write of `cancel`:
      a completed job turns cancelled. */
  lemma SplitCancelUndoesCompletion(request: Request)
    ensures exists run: Run, i: Id, now: Time ::
              && Legal(run) && |run| == 3 && i in Exec(run[..1]).jobs && Exec(run[..1]).jobs[i].state.Queued?
              && i in Exec(run).jobs && Exec(run).jobs[i].state.Completed?
              && i in CancelWrite(Exec(run), now, i, Queued).jobs
              && CancelWrite(Exec(run), now, i, Queued).jobs[i].state.Cancelled?
  {
    var c0 := Call(0, OpEnqueue(7, "d", request, None));
    var c1 := Call(0, OpClaim("w", 60, 1));
    var c2 := Call(0, OpFinish(7, 1, Completed, None, None));
    var run := [c0, c1, c2];
    FinishFirst(c0, c1, c2);
    assert run[..1] == [c0];
    FirstClaim(c0, c1);
    assert CancelWrite(Exec(run), 0, 7, Queued).jobs[7].state.Cancelled?;
  }

  /** A run that enqueues a job and claims it. */
  lemma FirstClaim(c0: Call, c1: Call)
    requires c0.op.OpEnqueue? && c0.op.pick.None? && c1.op.OpClaim? && c0.now <= c1.now
    ensures Legal([c0]) && Legal([c0, c1]) && Result([c0]) == Created(c0.op.newId)
    ensures Exec([c0]).jobs == map[c0.op.newId := NewJob(c0.now, c0.op.destination, c0.op.request)]
    ensures Result([c0, c1]) == Claimed(c0.op.newId)
    ensures Exec([c0, c1]).jobs
         == map[c0.op.newId := ClaimedRow(NewJob(c0.now, c0.op.destination, c0.op.request),
                                          c1.now, c1.op.claimer, c1.op.newToken, c1.op.lease)]
  {
    var i := c0.op.newId;
    assert Front([c0]) == [] && Last([c0]) == c0 && Front([c0, c1]) == [c0] && Last([c0, c1]) == c1;
    assert Legal([]) && Enabled([], c0);
    assert Legal([c0]);
    assert Enabled([c0], c1);
    assert Exec([c0]) == Enqueue(EMPTY_DB, c0.now, i, c0.op.destination, c0.op.request, None).db;
    var jobs := Sweep(Exec([c0]).jobs, c1.now);
    assert jobs == Exec([c0]).jobs;
    assert IsFirst(jobs, c1.now, i);
    FirstIsTheFirst(jobs, c1.now);
  }

  /** A run that enqueues a job, claims it and finishes it. */
  lemma FinishFirst(c0: Call, c1: Call, c2: Call)
    requires c0.op.OpEnqueue? && c0.op.pick.None? && c1.op.OpClaim? && c0.now <= c1.now <= c2.now
    requires c2.op.OpFinish? && c2.op.id == c0.op.newId && c2.op.token == c1.op.newToken && c2.op.final.IsTerminal()
    ensures Legal([c0, c1, c2])
    ensures Exec([c0, c1, c2]).jobs.Keys == {c0.op.newId}
    ensures Exec([c0, c1, c2]).jobs[c0.op.newId].state == c2.op.final
    ensures Exec([c0, c1, c2]).jobs[c0.op.newId].destination == c0.op.destination
    ensures Ids([c0, c1, c2]) == {c0.op.newId}
  {
    FirstClaim(c0, c1);
    assert Front([c0]) == [] && Front([c0, c1]) == [c0] && Front([c0, c1, c2]) == [c0, c1];
    assert Ids([c0]) == {c0.op.newId} && Ids([c0, c1]) == {c0.op.newId};
    assert Enabled([c0, c1], c2);
    assert Exec([c0, c1, c2]) == Finish(Exec([c0, c1]), c2.now, c2.op.id, c2.op.token, c2.op.final, c2.op.code, c2.op.message).db;
  }
}
