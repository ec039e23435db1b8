/** How a job ends: which call completed it, and when a requested cancellation reaches its worker. */
module QueueEndings {
  import opened QueueTypes
  import opened QueueSpec
  import opened QueueMoves
  import opened QueueRuns
  import opened QueueFencing
  import opened QueueLifecycle

  // ----- how a row becomes completed -------------------------------------------------------

  predicate CompletingFinish(c: Call) {
    c.op.OpFinish? && c.op.final.Completed?
  }

  lemma MoveToCompleted(j: Job, now: Time, m: Move)
    requires CanMove(j, now, m) && Moved(j, now, m).state.Completed? && !j.state.Completed?
    ensures m.End?
  {
  }

  lemma EndIsFinish(db: Db, c: Call, i: Id)
    requires i in db.jobs && MoveOf(db, c, i).End? && Moved(db.jobs[i], c.now, MoveOf(db, c, i)).state.Completed?
    ensures CompletingFinish(c) && c.op.id == i && Do(db, c).ret.True?
  {
  }

  /** The call that completed a job, if it is completed at the end of a run. */
  lemma {:induction false} CompletedBy(run: Run, i: Id) returns (w: nat)
    requires Legal(run) && i in Exec(run).jobs && Exec(run).jobs[i].state.Completed?
    ensures w < |run| && CompletingFinish(run[w]) && run[w].op.id == i && Answer(run, w).True?
    decreases |run|
  {
    var front := Front(run);
    if i in Exec(front).jobs && Exec(front).jobs[i].state.Completed? {
      w := CompletedBy(front, i);
      assert front[..w] == run[..w];
    } else {
      w := |run| - 1;
      CompletedNow(run, i);
    }
  }

  lemma CompletedNow(run: Run, i: Id)
    requires run != [] && i in Exec(run).jobs && Exec(run).jobs[i].state.Completed?
    requires i in Exec(Front(run)).jobs ==> !Exec(Front(run)).jobs[i].state.Completed?
    ensures CompletingFinish(Last(run)) && Last(run).op.id == i && Result(run).True?
  {
    var db, c := Exec(Front(run)), Last(run);
    RunsKeepDbOk(Front(run));
    CallFollows(db, c, i);
    if i in db.jobs {
      MoveToCompleted(db.jobs[i], c.now, MoveOf(db, c, i));
      EndIsFinish(db, c, i);
    }
  }

  lemma MoveKeepsDestination(j: Job, now: Time, m: Move)
    requires CanMove(j, now, m)
    ensures Moved(j, now, m).destination == j.destination
  {
  }

  lemma {:induction false} DestinationStays(run: Run, n: nat, i: Id)
    requires Legal(run) && n <= |run|
    requires i in Exec(run[..n]).jobs && i in Exec(run).jobs
    ensures Exec(run).jobs[i].destination == Exec(run[..n]).jobs[i].destination
    decreases |run|
  {
    if n == |run| {
      assert run[..n] == run;
    } else {
      PresentBefore(run, n, i);
      DestinationStays(Front(run), n, i);
      CallFollows(Exec(Front(run)), Last(run), i);
      MoveKeepsDestination(Exec(Front(run)).jobs[i], Last(run).now, MoveOf(Exec(Front(run)), Last(run), i));
    }
  }

  // ----- cancellation ----------------------------------------------------------------------

  /** What `cancellation_requested` must answer for the worker to go on. */
  ghost predicate GoesOn(db: Db, i: Id, t: Token) {
    Holds(db, i, t) && !db.jobs[i].state.CancelRequested?
  }

  /** A phase report under the token. */
  predicate ReportsPhase(c: Call, i: Id, t: Token) {
    c.op.OpProgress? && c.op.id == i && c.op.token == t && c.op.event.digest == "" && !c.op.event.phase.NoPhase?
  }

  lemma MoveOverwrites(j: Job, now: Time, m: Move, t: Token)
    requires CanMove(j, now, m) && j.token == Some(t) && j.state.CancelRequested?
    ensures Moved(j, now, m).token == Some(t) && !Moved(j, now, m).state.CancelRequested? <==> m.SetPhase?
  {
  }

  lemma PhaseMoveIff(db: Db, c: Call, i: Id, t: Token)
    requires Holds(db, i, t)
    ensures MoveOf(db, c, i).SetPhase? <==> ReportsPhase(c, i, t)
  {
  }

  /** The only call after which the worker of a job to be cancelled would be told to go on is a
      phase report of its own: it overwrites the request. */
  lemma OverwrittenIff(db: Db, c: Call, i: Id, t: Token)
    requires DbOk(db) && Holds(db, i, t) && db.jobs[i].state.CancelRequested?
    ensures GoesOn(Do(db, c).db, i, t) <==> ReportsPhase(c, i, t)
  {
    CallFollows(db, c, i);
    MoveOverwrites(db.jobs[i], c.now, MoveOf(db, c, i), t);
    PhaseMoveIff(db, c, i, t);
  }

  /** A requested cancellation is seen at every later check, as long as the worker reports no
      phase in between. */
  lemma {:induction false} CancellationIsSeen(run: Run, n: nat, i: Id, t: Token)
    requires Legal(run) && n <= |run|
    requires Holds(Exec(run[..n]), i, t) && Exec(run[..n]).jobs[i].state.CancelRequested?
    requires forall k | n <= k < |run| :: !ReportsPhase(run[k], i, t)
    ensures !GoesOn(Exec(run), i, t)
    decreases |run|
  {
    if n == |run| {
      assert run[..n] == run;
    } else {
      var front := Front(run);
      assert front[..n] == run[..n];
      CancellationIsSeen(front, n, i, t);
      RunsKeepDbOk(front);
      if Holds(Exec(front), i, t) {
        OverwrittenIff(Exec(front), Last(run), i, t);
      } else {
        LostForGood(run, n, i, t);
      }
    }
  }

  lemma LostAfter(run: Run, n: nat, i: Id, t: Token)
    requires Legal(run) && n < |run| && t in Tokens(run[..n])
    requires !Holds(Exec(Front(run)), i, t)
    ensures !Holds(Exec(run), i, t)
  {
    assert Front(run)[..n] == run[..n];
    UsedGrow(Front(run), n);
    SupersededForever(run, |run| - 1, i, t);
  }

  lemma LostForGood(run: Run, n: nat, i: Id, t: Token)
    requires Legal(run) && n < |run|
    requires Holds(Exec(run[..n]), i, t) && !Holds(Exec(Front(run)), i, t)
    ensures !Holds(Exec(run), i, t)
  {
    LegalPrefix(run, n);
    RunsKeepTokens(run[..n]);
    LostAfter(run, n, i, t);
  }

  // ----- the fate of a request -------------------------------------------------------------

  /** The calls under the job's token that drop a requested cancellation: a phase report, a
      recorded failure, and a `finish` that says completed or failed. */
  predicate DropsRequest(c: Call, i: Id, t: Token) {
    || ReportsPhase(c, i, t)
    || (c.op.OpFailOrRetry? && c.op.id == i && c.op.token == t)
    || (c.op.OpFinish? && c.op.id == i && c.op.token == t && (c.op.final.Completed? || c.op.final.Failed?))
  }

  predicate ToBeCancelled(s: JobState) {
    s.CancelRequested? || s.Cancelled?
  }

  predicate DroppingMove(m: Move) {
    m.SetPhase? || m.Fail? || (m.End? && (m.final.Completed? || m.final.Failed?))
  }

  lemma MoveDropsIff(j: Job, now: Time, m: Move)
    requires RowOk(j) && CanMove(j, now, m) && j.state.CancelRequested?
    ensures !ToBeCancelled(Moved(j, now, m).state) <==> DroppingMove(m)
  {
  }

  lemma DroppingMoveIff(db: Db, c: Call, i: Id, t: Token)
    requires Holds(db, i, t)
    ensures DroppingMove(MoveOf(db, c, i)) <==> DropsRequest(c, i, t)
  {
  }

  /** Exactly which calls drop a requested cancellation; after any other the row is still to be
      cancelled, or is cancelled. */
  lemma RequestIsDroppedIff(db: Db, c: Call, i: Id, t: Token)
    requires DbOk(db) && Holds(db, i, t) && db.jobs[i].state.CancelRequested?
    ensures i in Do(db, c).db.jobs
    ensures !ToBeCancelled(Do(db, c).db.jobs[i].state) <==> DropsRequest(c, i, t)
  {
    assert JobOk(db, i);
    CallFollows(db, c, i);
    MoveDropsIff(db.jobs[i], c.now, MoveOf(db, c, i));
    DroppingMoveIff(db, c, i, t);
  }

  lemma MoveKeepsRequest(j: Job, now: Time, m: Move)
    requires RowOk(j) && CanMove(j, now, m) && j.state.CancelRequested? && Moved(j, now, m).state.CancelRequested?
    ensures Moved(j, now, m).token == j.token
  {
  }

  lemma TokenOfRequest(db: Db, c: Call, i: Id, t: Token)
    requires DbOk(db) && Holds(db, i, t) && db.jobs[i].state.CancelRequested?
    requires i in Do(db, c).db.jobs && Do(db, c).db.jobs[i].state.CancelRequested?
    ensures Holds(Do(db, c).db, i, t)
  {
    assert JobOk(db, i);
    CallFollows(db, c, i);
    MoveKeepsRequest(db.jobs[i], c.now, MoveOf(db, c, i));
  }

  /** Over runs: a requested cancellation stands, and ends in the job being cancelled or deleted
      after that, unless one of those calls is made under the token that was current. */
  lemma {:induction false} RequestStands(run: Run, n: nat, i: Id, t: Token)
    requires Legal(run) && n <= |run|
    requires Holds(Exec(run[..n]), i, t) && Exec(run[..n]).jobs[i].state.CancelRequested?
    requires forall k | n <= k < |run| :: !DropsRequest(run[k], i, t)
    ensures i in Exec(run).jobs ==>
              && ToBeCancelled(Exec(run).jobs[i].state)
              && (Exec(run).jobs[i].state.CancelRequested? ==> Holds(Exec(run), i, t))
    decreases |run|
  {
    if n == |run| {
      assert run[..n] == run;
    } else if i in Exec(run).jobs {
      var front := Front(run);
      PresentBefore(run, n, i);
      assert front[..n] == run[..n];
      RequestStands(front, n, i, t);
      RequestStep(run, i, t);
    }
  }

  lemma RequestStep(run: Run, i: Id, t: Token)
    requires Legal(run) && run != [] && DbOk(Exec(Front(run)))
    requires i in Exec(Front(run)).jobs && i in Exec(run).jobs
    requires ToBeCancelled(Exec(Front(run)).jobs[i].state)
    requires Exec(Front(run)).jobs[i].state.CancelRequested? ==> Holds(Exec(Front(run)), i, t)
    requires !DropsRequest(Last(run), i, t)
    ensures ToBeCancelled(Exec(run).jobs[i].state)
    ensures Exec(run).jobs[i].state.CancelRequested? ==> Holds(Exec(run), i, t)
  {
    var db, c := Exec(Front(run)), Last(run);
    if db.jobs[i].state.CancelRequested? {
      RequestIsDroppedIff(db, c, i, t);
      if Exec(run).jobs[i].state.CancelRequested? {
        TokenOfRequest(db, c, i, t);
      }
    } else {
      assert JobOk(db, i);
      CallFollows(db, c, i);
      MoveFollowsArrow(db.jobs[i], c.now, MoveOf(db, c, i));
    }
  }

  // ----- the end of a claim ----------------------------------------------------------------

  /** Call `m` of the run is the one with which token `t` stops being current for job `i`. */
  ghost predicate EndsAt(run: Run, m: nat, i: Id, t: Token) {
    m < |run| && Holds(Exec(run[..m]), i, t) && !Holds(Exec(run[..m + 1]), i, t)
  }

  /** A call that hands the job back. */
  predicate HandsBack(c: Call) {
    c.op.OpReleaseClaim? || c.op.OpRelease? || (c.op.OpFailOrRetry? && c.op.failure.retryable)
  }

  lemma MoveHandsBackIff(j: Job, now: Time, m: Move)
    requires RowOk(j) && CanMove(j, now, m) && j.token.Some? && Moved(j, now, m).token != j.token
    ensures var s := Moved(j, now, m).state;
            && (s.Queued? || s.RetryWait? <==> m.LetGo? || (m.Fail? && m.failure.retryable))
            && (s.Failed? <==> (m.Fail? && !m.failure.retryable) || (m.End? && m.final.Failed?))
    ensures m.LetGo? || m.Fail? || m.End? || m.Take? || m.SweepOut?
  {
  }

  lemma EndingMove(db: Db, c: Call, i: Id, t: Token)
    requires Holds(db, i, t)
    ensures MoveOf(db, c, i).LetGo? ==> c.op.OpReleaseClaim? || c.op.OpRelease?
    ensures MoveOf(db, c, i).Fail? ==> c.op.OpFailOrRetry? && c.op.id == i && c.op.token == t
                                       && MoveOf(db, c, i).failure == c.op.failure
    ensures MoveOf(db, c, i).End? ==> c.op.OpFinish? && c.op.id == i && c.op.token == t && MoveOf(db, c, i).final == c.op.final
    ensures MoveOf(db, c, i).Take? || MoveOf(db, c, i).SweepOut? ==> c.op.OpClaim?
    ensures c.op.OpReleaseClaim? || c.op.OpRelease? ==> MoveOf(db, c, i).LetGo? || MoveOf(db, c, i).Still?
    ensures c.op.OpFailOrRetry? ==> MoveOf(db, c, i).Fail? || MoveOf(db, c, i).Still?
  {
  }

  lemma EndingStep(db: Db, c: Call, i: Id, t: Token)
    requires DbOk(db) && Holds(db, i, t) && !Holds(Do(db, c).db, i, t)
    ensures i in Do(db, c).db.jobs
    ensures var s := Do(db, c).db.jobs[i].state;
            && (s.Queued? || s.RetryWait? <==> HandsBack(c))
            && (s.Failed? <==> (c.op.OpFailOrRetry? && !c.op.failure.retryable) || (c.op.OpFinish? && c.op.final.Failed?))
    ensures c.op.OpReleaseClaim? || c.op.OpRelease? || c.op.OpFailOrRetry? || c.op.OpFinish? || c.op.OpClaim?
    ensures c.op.OpFailOrRetry? || c.op.OpFinish? ==> c.op.id == i && c.op.token == t
  {
    assert JobOk(db, i);
    CallFollows(db, c, i);
    var m := MoveOf(db, c, i);
    EndingMove(db, c, i, t);
    MoveHandsBackIff(db.jobs[i], c.now, m);
  }

  lemma NeverHeldAfter(run: Run, m: nat, k: nat, i: Id, t: Token)
    requires Legal(run) && EndsAt(run, m, i, t) && m < k <= |run|
    ensures !Holds(Exec(run[..k]), i, t)
  {
    LegalPrefix(run, m);
    RunsKeepTokens(run[..m]);
    LegalPrefix(run, k);
    assert run[..m + 1][..m] == run[..m] && run[..k][..m + 1] == run[..m + 1];
    UsedGrow(run[..m + 1], m);
    SupersededForever(run[..k], m + 1, i, t);
  }

  lemma NothingWrittenAfter(run: Run, m: nat, k: nat, i: Id, t: Token)
    requires Legal(run) && EndsAt(run, m, i, t) && m < k < |run|
    requires IsFenced(run[k].op) && run[k].op.id == i && run[k].op.token == t
    ensures Exec(run[..k + 1]).jobs == Exec(run[..k]).jobs
  {
    NeverHeldAfter(run, m, k, i, t);
    StepAt(run, k);
    SupersededWritesNoJob(Exec(run[..k]), run[k]);
  }

  lemma EndingAt(run: Run, m: nat, i: Id, t: Token)
    requires Legal(run) && EndsAt(run, m, i, t)
    ensures i in Exec(run[..m + 1]).jobs
    ensures var s := Exec(run[..m + 1]).jobs[i].state;
            && (s.Queued? || s.RetryWait? <==> HandsBack(run[m]))
            && (s.Failed? <==> || (run[m].op.OpFailOrRetry? && !run[m].op.failure.retryable)
                               || (run[m].op.OpFinish? && run[m].op.final.Failed?))
    ensures run[m].op.OpFailOrRetry? || run[m].op.OpFinish? ==> run[m].op.id == i && run[m].op.token == t
  {
    StepAt(run, m);
    LegalPrefix(run, m);
    RunsKeepDbOk(run[..m]);
    EndingStep(Exec(run[..m]), run[m], i, t);
  }

  /** The one call that ends a claim decides what becomes of the job: it is queued or waits for a
      retry exactly if that call hands it back. No later call under the token changes anything in
      the job table, whatever it is. */
  lemma FirstEndingDecides(run: Run, m: nat, i: Id, t: Token)
    requires Legal(run) && EndsAt(run, m, i, t)
    ensures i in Exec(run[..m + 1]).jobs
    ensures var s := Exec(run[..m + 1]).jobs[i].state;
            && (s.Queued? || s.RetryWait? <==> HandsBack(run[m]))
            && (s.Failed? <==> || (run[m].op.OpFailOrRetry? && !run[m].op.failure.retryable)
                               || (run[m].op.OpFinish? && run[m].op.final.Failed?))
    ensures forall k | m < k < |run| && IsFenced(run[k].op) && run[k].op.id == i && run[k].op.token == t ::
              Exec(run[..k + 1]).jobs == Exec(run[..k]).jobs
    ensures forall k | m < k < |run| :: !EndsAt(run, k, i, t)
  {
    EndingAt(run, m, i, t);
    forall k | m < k < |run|
      ensures !EndsAt(run, k, i, t)
    {
      NeverHeldAfter(run, m, k, i, t);
    }
    forall k | m < k < |run| && IsFenced(run[k].op) && run[k].op.id == i && run[k].op.token == t
      ensures Exec(run[..k + 1]).jobs == Exec(run[..k]).jobs
    {
      NothingWrittenAfter(run, m, k, i, t);
    }
  }
}
