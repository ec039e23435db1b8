/** Time over whole runs: what a job has to wait for, in which order jobs are served, and what the
    stored times mean. */
module QueueWaits {
  import opened QueueTypes
  import opened QueueSpec
  import opened QueueMoves
  import opened QueueRuns
  import opened QueueFencing
  import opened QueueLifecycle
  import opened QueueLaws

  // ----- a retry waits out its delay -------------------------------------------------------

  predicate WaitsUntil(j: Job, due: Time) {
    j.state.RetryWait? && j.nextRetryAt == Some(due)
  }

  lemma MoveOfWaiting(j: Job, now: Time, m: Move, due: Time)
    requires CanMove(j, now, m) && WaitsUntil(j, due) && j.token.None? && !m.Take?
    ensures Moved(j, now, m).state.Cancelled? || Moved(j, now, m) == j
  {
  }

  lemma WaitingStep(db: Db, c: Call, i: Id, due: Time)
    requires DbOk(db) && i in db.jobs && i in Do(db, c).db.jobs && WaitsUntil(db.jobs[i], due)
    requires !(c.op.OpClaim? && Do(db, c).ret == Claimed(i))
    ensures Do(db, c).db.jobs[i].state.Cancelled? || WaitsUntil(Do(db, c).db.jobs[i], due)
  {
    assert JobOk(db, i);
    CallFollows(db, c, i);
    TakenByClaim(db, c, i);
    MoveOfWaiting(db.jobs[i], c.now, MoveOf(db, c, i), due);
  }

  /** Call `k` of the run is a claim that hands out job `i`. */
  ghost predicate ClaimsAt(run: Run, k: nat, i: Id)
    requires k < |run|
  {
    run[k].op.OpClaim? && Answer(run, k) == Claimed(i)
  }

  /** No claim after the first `n` calls hands out job `i`. */
  ghost predicate UnclaimedSince(run: Run, n: nat, i: Id) {
    |run| <= n
    || (UnclaimedSince(Front(run), n, i) && !(Last(run).op.OpClaim? && Result(run) == Claimed(i)))
  }

  predicate Waits(j: Job, due: Time) {
    j.state.Cancelled? || WaitsUntil(j, due)
  }

  lemma WaitingLast(run: Run, i: Id, due: Time)
    requires Legal(run) && run != [] && !(Last(run).op.OpClaim? && Result(run) == Claimed(i))
    requires i in Exec(Front(run)).jobs && i in Exec(run).jobs && Waits(Exec(Front(run)).jobs[i], due)
    ensures Waits(Exec(run).jobs[i], due)
  {
    RunsKeepDbOk(Front(run));
    if Exec(Front(run)).jobs[i].state.Cancelled? {
      Absorbing(run, |run| - 1, i);
    } else {
      WaitingStep(Exec(Front(run)), Last(run), i, due);
    }
  }

  /** A job that waits for a retry waits until its due time, is cancelled, or is claimed. */
  lemma {:induction false} WaitingStays(run: Run, n: nat, i: Id, due: Time)
    requires Legal(run) && n <= |run| && UnclaimedSince(run, n, i)
    requires i in Exec(run[..n]).jobs && i in Exec(run).jobs && Waits(Exec(run[..n]).jobs[i], due)
    ensures Waits(Exec(run).jobs[i], due)
    decreases |run|
  {
    if n == |run| {
      assert run[..n] == run;
    } else {
      PresentBefore(run, n, i);
      WaitingStays(Front(run), n, i, due);
      WaitingLast(run, i, due);
    }
  }

  /** Call `w` of the run records a failure of job `i` that is to be retried after `delay`. */
  ghost predicate DelaysAt(run: Run, w: nat, i: Id, delay: int)
    requires w < |run|
  {
    && run[w].op.OpFailOrRetry? && run[w].op.id == i && Answer(run, w).True?
    && run[w].op.failure.retryable && run[w].op.failure.delay == Some(delay)
  }

  lemma DueAfterFailure(run: Run, w: nat, i: Id, delay: int)
    requires w < |run| && DelaysAt(run, w, i, delay)
    ensures i in Exec(run[..w + 1]).jobs && WaitsUntil(Exec(run[..w + 1]).jobs[i], run[w].now + delay)
  {
    StepAt(run, w);
    EndingNeedsToken(Exec(run[..w]), run[w]);
    FailLeaves(Exec(run[..w]), run[w]);
  }

  lemma ClaimIsDue(run: Run, k: nat, i: Id, due: Time)
    requires k < |run| && ClaimsAt(run, k, i)
    ensures i in Exec(run[..k]).jobs
    ensures Waits(Exec(run[..k]).jobs[i], due) ==> due <= run[k].now
  {
    ClaimLeaves(Exec(run[..k]), run[k], i);
  }

  /** Backoff is served: after a failure recorded with a delay, the next claim that hands the job
      out does so no earlier than the delay after it. */
  lemma RetryWaitsOutDelay(run: Run, w: nat, k: nat, i: Id, delay: int)
    requires Legal(run) && w < k < |run| && DelaysAt(run, w, i, delay)
    requires ClaimsAt(run, k, i) && UnclaimedSince(run[..k], w + 1, i)
    ensures run[w].now + delay <= run[k].now
  {
    DueAfterFailure(run, w, i, delay);
    DueWhenClaimed(run, w + 1, k, i, run[w].now + delay);
  }

  lemma DueWhenClaimed(run: Run, n: nat, k: nat, i: Id, due: Time)
    requires Legal(run) && n <= k < |run| && i in Exec(run[..n]).jobs && WaitsUntil(Exec(run[..n]).jobs[i], due)
    requires ClaimsAt(run, k, i) && UnclaimedSince(run[..k], n, i)
    ensures due <= run[k].now
  {
    ClaimIsDue(run, k, i, due);
    LegalPrefix(run, k);
    assert run[..k][..n] == run[..n];
    WaitingStays(run[..k], n, i, due);
  }

  // ----- a lease lasts ---------------------------------------------------------------------

  /** Call `n` gave token `t` a lease on job `i` for `lease` seconds: a claim or a heartbeat. */
  ghost predicate Leases(run: Run, n: nat, i: Id, t: Token, lease: int)
    requires n < |run|
  {
    || (run[n].op.OpClaim? && run[n].op.newToken == t && run[n].op.lease == lease && Answer(run, n) == Claimed(i))
    || (run[n].op == OpHeartbeat(i, t, lease) && Answer(run, n).True?)
  }

  lemma LeaseBegins(run: Run, n: nat, i: Id, t: Token, lease: int)
    requires n < |run| && Leases(run, n, i, t, lease)
    ensures Holds(Exec(run[..n + 1]), i, t)
    ensures Exec(run[..n + 1]).jobs[i].leaseExpiresAt == Some(run[n].now + lease * 1_000_000)
  {
    StepAt(run, n);
    if run[n].op.OpClaim? {
      ClaimLeaves(Exec(run[..n]), run[n], i);
    } else {
      HeartbeatLeaves(Exec(run[..n]), run[n]);
    }
  }

  lemma MoveKeepsLease(j: Job, now: Time, m: Move, t: Token)
    requires CanMove(j, now, m) && j.token == Some(t) && Moved(j, now, m).token == Some(t)
    requires !m.Beat? && (m.Take? ==> m.newToken != t)
    ensures Moved(j, now, m).leaseExpiresAt == j.leaseExpiresAt
  {
  }

  lemma LeaseStep(db: Db, c: Call, i: Id, t: Token)
    requires DbOk(db) && Holds(db, i, t) && Holds(Do(db, c).db, i, t)
    requires c.op.OpClaim? ==> c.op.newToken != t
    requires !(c.op.OpHeartbeat? && c.op.id == i && c.op.token == t && Do(db, c).ret.True?)
    ensures Do(db, c).db.jobs[i].leaseExpiresAt == db.jobs[i].leaseExpiresAt
  {
    CallFollows(db, c, i);
    TakenByClaim(db, c, i);
    MoveTellsCall(db, c, i);
    if MoveOf(db, c, i).Beat? {
      HeartbeatLeaves(db, c);
    }
    MoveKeepsLease(db.jobs[i], c.now, MoveOf(db, c, i), t);
  }

  /** Call `k` of the run is a heartbeat that renews the lease of `t` on `i`. */
  ghost predicate RenewsAt(run: Run, k: nat, i: Id, t: Token)
    requires k < |run|
  {
    run[k].op.OpHeartbeat? && run[k].op.id == i && run[k].op.token == t && Answer(run, k).True?
  }

  lemma RenewsAtPrefix(run: Run, n: nat, k: nat, i: Id, t: Token)
    requires k < n <= |run|
    ensures RenewsAt(run[..n], k, i, t) <==> RenewsAt(run, k, i, t)
  {
    assert run[..n][..k] == run[..k];
  }

  lemma LeaseLast(run: Run, n: nat, i: Id, t: Token)
    requires Legal(run) && n < |run| && t in Tokens(run[..n]) && !RenewsAt(run, |run| - 1, i, t)
    requires Holds(Exec(Front(run)), i, t) && Holds(Exec(run), i, t)
    ensures Exec(run).jobs[i].leaseExpiresAt == Exec(Front(run)).jobs[i].leaseExpiresAt
  {
    assert Front(run)[..n] == run[..n];
    UsedGrow(Front(run), n);
    RunsKeepDbOk(Front(run));
    LeaseStep(Exec(Front(run)), Last(run), i, t);
  }

  lemma {:induction false} LeaseStays(run: Run, n: nat, i: Id, t: Token)
    requires Legal(run) && n <= |run| && t in Tokens(run[..n])
    requires Holds(Exec(run[..n]), i, t) && Holds(Exec(run), i, t)
    requires forall k | n <= k < |run| :: !RenewsAt(run, k, i, t)
    ensures Exec(run).jobs[i].leaseExpiresAt == Exec(run[..n]).jobs[i].leaseExpiresAt
    decreases |run|
  {
    if n == |run| {
      assert run[..n] == run;
    } else {
      HeldBefore(run, n, i, t);
      forall k | n <= k < |Front(run)|
        ensures !RenewsAt(Front(run), k, i, t)
      {
        RenewsAtPrefix(run, |run| - 1, k, i, t);
      }
      LeaseStays(Front(run), n, i, t);
      LeaseLast(run, n, i, t);
    }
  }

  lemma HeldBefore(run: Run, n: nat, i: Id, t: Token)
    requires Legal(run) && n < |run| && t in Tokens(run[..n]) && Holds(Exec(run), i, t)
    ensures Front(run)[..n] == run[..n] && Holds(Exec(Front(run)), i, t)
  {
    var front := Front(run);
    assert front[..n] == run[..n] && run[..|front|] == front;
    UsedGrow(front, n);
    HeldSinceIssued(run, |front|, i, t);
  }

  lemma LeaseBetween(run: Run, n: nat, k: nat, i: Id, t: Token)
    requires Legal(run) && n <= k <= |run| && Holds(Exec(run[..n]), i, t) && Holds(Exec(run[..k]), i, t)
    requires forall m | n <= m < k :: !RenewsAt(run, m, i, t)
    ensures Exec(run[..k]).jobs[i].leaseExpiresAt == Exec(run[..n]).jobs[i].leaseExpiresAt
  {
    LegalPrefix(run, n);
    RunsKeepTokens(run[..n]);
    LegalPrefix(run, k);
    assert run[..k][..n] == run[..n];
    forall m | n <= m < k
      ensures !RenewsAt(run[..k], m, i, t)
    {
      RenewsAtPrefix(run, k, m, i, t);
    }
    LeaseStays(run[..k], n, i, t);
  }

  lemma ClaimIsAfterLease(run: Run, k: nat, i: Id, t: Token)
    requires Legal(run) && k < |run| && ClaimsAt(run, k, i) && Holds(Exec(run[..k]), i, t)
    ensures Exec(run[..k]).jobs[i].leaseExpiresAt.Some? && Exec(run[..k]).jobs[i].leaseExpiresAt.value < run[k].now
  {
    LegalPrefix(run, k);
    RunsKeepDbOk(run[..k]);
    assert JobOk(Exec(run[..k]), i);
    ClaimRespectsLeases(Exec(run[..k]), run[k], i);
  }

  /** A lease lasts: as long as the token stays current and no heartbeat changes the lease, no claim
      hands the job out before the lease that a claim or a heartbeat gave has run out. */
  lemma LeaseLasts(run: Run, n: nat, k: nat, i: Id, t: Token, lease: int)
    requires Legal(run) && n < k < |run| && Leases(run, n, i, t, lease)
    requires forall m | n < m < k :: !RenewsAt(run, m, i, t)
    requires Holds(Exec(run[..k]), i, t) && ClaimsAt(run, k, i)
    ensures run[n].now + lease * 1_000_000 < run[k].now
  {
    LeaseBegins(run, n, i, t, lease);
    LeaseBetween(run, n + 1, k, i, t);
    ClaimIsAfterLease(run, k, i, t);
  }

  // ----- first come, first served ----------------------------------------------------------

  /** The call that created a job, and that its row still says so. */
  lemma {:induction false} CreatedBy(run: Run, i: Id) returns (w: nat)
    requires Legal(run) && i in Exec(run).jobs
    ensures w < |run| && run[w].op.OpEnqueue? && run[w].op.newId == i && Answer(run, w) == Created(i)
    ensures var j := Exec(run).jobs[i];
            j.createdAt == run[w].now && j.destination == run[w].op.destination && j.request == run[w].op.request
    decreases |run|
  {
    var front := Front(run);
    RunsKeepDbOk(front);
    CallFollows(Exec(front), Last(run), i);
    if i in Exec(front).jobs {
      w := CreatedBy(front, i);
      assert front[..w] == run[..w];
      WhoChangesWhat(Exec(front), Last(run), i);
    } else {
      w := |run| - 1;
      CreatesQueued(Exec(front), Last(run), i);
    }
  }

  lemma CreatesQueued(db: Db, c: Call, i: Id)
    requires DbOk(db) && i !in db.jobs && i in Do(db, c).db.jobs
    ensures c.op.OpEnqueue? && c.op.newId == i && Do(db, c).ret == Created(i)
    ensures var j := Do(db, c).db.jobs[i];
            j.createdAt == c.now && j.destination == c.op.destination && j.request == c.op.request
  {
    CallFollows(db, c, i);
  }

  /** Jobs are claimed in the order in which they were enqueued: if a claim hands out one job while
      another is due as well, the other one was enqueued later, or at the same instant under a
      greater id. */
  lemma FirstComeFirstServed(run: Run, k: nat, i: Id, other: Id) returns (w: nat, v: nat)
    requires Legal(run) && k < |run| && run[k].op.OpClaim? && Answer(run, k) == Claimed(i)
    requires other != i && other in Exec(run[..k]).jobs
    requires var j := Exec(run[..k]).jobs[other];
             || j.state.Queued?
             || (j.state.RetryWait? && j.nextRetryAt.Some? && j.nextRetryAt.value <= run[k].now)
             || (j.state in {Planning, Copying, Publishing, Verifying}
                 && j.leaseExpiresAt.Some? && j.leaseExpiresAt.value < run[k].now)
    ensures w < k && run[w].op.OpEnqueue? && Answer(run, w) == Created(i)
    ensures v < k && run[v].op.OpEnqueue? && Answer(run, v) == Created(other)
    ensures run[w].now < run[v].now || (run[w].now == run[v].now && i < other)
  {
    LegalPrefix(run, k);
    ClaimsTheEarliest(Exec(run[..k]), run[k], i, other);
    w := CreatedBy(run[..k], i);
    v := CreatedBy(run[..k], other);
    assert run[..k][..w] == run[..w] && run[..k][..v] == run[..v];
  }

  lemma ClaimsTheEarliest(db: Db, c: Call, i: Id, other: Id)
    requires c.op.OpClaim? && Do(db, c).ret == Claimed(i) && other != i && other in db.jobs
    requires var j := db.jobs[other];
             || j.state.Queued?
             || (j.state.RetryWait? && j.nextRetryAt.Some? && j.nextRetryAt.value <= c.now)
             || (j.state in {Planning, Copying, Publishing, Verifying}
                 && j.leaseExpiresAt.Some? && j.leaseExpiresAt.value < c.now)
    ensures i in db.jobs
    ensures db.jobs[i].createdAt < db.jobs[other].createdAt
            || (db.jobs[i].createdAt == db.jobs[other].createdAt && i < other)
  {
    FirstIsTheFirst(Sweep(db.jobs, c.now), c.now);
    assert Sweep(db.jobs, c.now)[other] == db.jobs[other];
  }

  // ----- stored times ----------------------------------------------------------------------

  /** Call `w` of the run made job `i` terminal, in state `s`. */
  ghost predicate MadeTerminal(run: Run, w: nat, i: Id, s: JobState)
    requires w < |run|
  {
    && i in Exec(run[..w]).jobs && !Exec(run[..w]).jobs[i].state.IsTerminal()
    && i in Exec(run[..w + 1]).jobs && Exec(run[..w + 1]).jobs[i].state == s
  }

  lemma MadeTerminalPrefix(run: Run, n: nat, w: nat, i: Id, s: JobState)
    requires w < n <= |run| && MadeTerminal(run[..n], w, i, s)
    ensures MadeTerminal(run, w, i, s)
  {
    assert run[..n][..w] == run[..w] && run[..n][..w + 1] == run[..w + 1];
  }

  lemma MadeTerminalLast(run: Run, i: Id)
    requires run != [] && i in Exec(run).jobs && Exec(run).jobs[i].state.IsTerminal()
    requires i in Exec(Front(run)).jobs ==> !Exec(Front(run)).jobs[i].state.IsTerminal()
    ensures MadeTerminal(run, |run| - 1, i, Exec(run).jobs[i].state)
    ensures Exec(run).jobs[i].completedAt == Some(Last(run).now)
  {
    RunsKeepDbOk(Front(run));
    BecomesTerminal(Exec(Front(run)), Last(run), i);
    assert run[..|run|] == run;
  }

  /** A terminal row's completion time is the time of the call that made it terminal. */
  lemma {:induction false} EndedBy(run: Run, i: Id) returns (w: nat)
    requires Legal(run) && i in Exec(run).jobs && Exec(run).jobs[i].state.IsTerminal()
    ensures w < |run| && Exec(run).jobs[i].completedAt == Some(run[w].now)
    ensures MadeTerminal(run, w, i, Exec(run).jobs[i].state)
    decreases |run|
  {
    var front := Front(run);
    if i in Exec(front).jobs && Exec(front).jobs[i].state.IsTerminal() {
      w := EndedBy(front, i);
      RunsKeepDbOk(front);
      TerminalStays(Exec(front), Last(run), i);
      MadeTerminalPrefix(run, |run| - 1, w, i, Exec(run).jobs[i].state);
    } else {
      w := |run| - 1;
      MadeTerminalLast(run, i);
    }
  }

  lemma TerminalStays(db: Db, c: Call, i: Id)
    requires DbOk(db) && i in db.jobs && i in Do(db, c).db.jobs
    requires db.jobs[i].state.IsTerminal() && Do(db, c).db.jobs[i].state.IsTerminal()
    ensures Do(db, c).db.jobs[i].completedAt == db.jobs[i].completedAt && Do(db, c).db.jobs[i].state == db.jobs[i].state
  {
    assert JobOk(db, i);
    CallFollows(db, c, i);
    MoveFollowsArrow(db.jobs[i], c.now, MoveOf(db, c, i));
  }

  lemma MoveToTerminal(j: Job, now: Time, m: Move)
    requires CanMove(j, now, m) && !j.state.IsTerminal() && Moved(j, now, m).state.IsTerminal()
    ensures Moved(j, now, m).completedAt == Some(now)
  {
  }

  lemma BecomesTerminal(db: Db, c: Call, i: Id)
    requires DbOk(db) && i in Do(db, c).db.jobs && Do(db, c).db.jobs[i].state.IsTerminal()
    requires i in db.jobs ==> !db.jobs[i].state.IsTerminal()
    ensures i in db.jobs && Do(db, c).db.jobs[i].completedAt == Some(c.now)
  {
    CallFollows(db, c, i);
    if i in db.jobs {
      MoveToTerminal(db.jobs[i], c.now, MoveOf(db, c, i));
    }
  }

  /** Call `w` of the run is the claim that hands out job `i` for the first time. */
  ghost predicate FirstClaimAt(run: Run, w: nat, i: Id)
    requires w < |run|
  {
    ClaimsAt(run, w, i) && i in Exec(run[..w]).jobs && Exec(run[..w]).jobs[i].runCount == 0
  }

  /** What the first claim of a job says of its start. */
  ghost predicate StartIs(run: Run, w: nat, i: Id) {
    w < |run| && FirstClaimAt(run, w, i) && i in Exec(run).jobs && Exec(run).jobs[i].startedAt == Some(run[w].now)
  }

  lemma StartIsKept(run: Run, w: nat, i: Id)
    requires Legal(run) && run != [] && StartIs(Front(run), w, i) && i in Exec(run).jobs
    ensures StartIs(run, w, i)
  {
    RunsKeepDbOk(Front(run));
    StartStays(Exec(Front(run)), Last(run), i);
    assert Front(run)[..w] == run[..w];
  }

  lemma StartIsNow(run: Run, i: Id)
    requires run != [] && i in Exec(run).jobs && Exec(run).jobs[i].startedAt.Some?
    requires i in Exec(Front(run)).jobs ==> Exec(Front(run)).jobs[i].startedAt.None?
    ensures StartIs(run, |run| - 1, i)
  {
    RunsKeepDbOk(Front(run));
    Starts(Exec(Front(run)), Last(run), i);
  }

  /** A job's start is the time of its first claim. */
  lemma {:induction false} StartedBy(run: Run, i: Id) returns (w: nat)
    requires Legal(run) && i in Exec(run).jobs && Exec(run).jobs[i].startedAt.Some?
    ensures StartIs(run, w, i)
    decreases |run|
  {
    if i in Exec(Front(run)).jobs && Exec(Front(run)).jobs[i].startedAt.Some? {
      w := StartedBy(Front(run), i);
      StartIsKept(run, w, i);
    } else {
      w := |run| - 1;
      StartIsNow(run, i);
    }
  }

  lemma StartStays(db: Db, c: Call, i: Id)
    requires DbOk(db) && i in db.jobs && i in Do(db, c).db.jobs && db.jobs[i].startedAt.Some?
    ensures Do(db, c).db.jobs[i].startedAt == db.jobs[i].startedAt
  {
    if c.op.OpClaim? && Do(db, c).ret == Claimed(i) {
      ClaimLeaves(db, c, i);
    } else {
      NotTakenKeepsStart(db, c, i);
    }
  }

  lemma NotTakenKeepsStart(db: Db, c: Call, i: Id)
    requires DbOk(db) && i in db.jobs && i in Do(db, c).db.jobs
    requires !(c.op.OpClaim? && Do(db, c).ret == Claimed(i))
    ensures Do(db, c).db.jobs[i].startedAt == db.jobs[i].startedAt
  {
    CallFollows(db, c, i);
    TakenByClaim(db, c, i);
    MoveFrame(db.jobs[i], c.now, MoveOf(db, c, i));
  }

  lemma Starts(db: Db, c: Call, i: Id)
    requires DbOk(db) && i in Do(db, c).db.jobs && Do(db, c).db.jobs[i].startedAt.Some?
    requires i in db.jobs ==> db.jobs[i].startedAt.None?
    ensures c.op.OpClaim? && Do(db, c).ret == Claimed(i) && Do(db, c).db.jobs[i].startedAt == Some(c.now)
    ensures i in db.jobs && db.jobs[i].runCount == 0
  {
    CallFollows(db, c, i);
    if i in db.jobs {
      assert JobOk(db, i);
      if c.op.OpClaim? && Do(db, c).ret == Claimed(i) {
        ClaimLeaves(db, c, i);
      } else {
        NotTakenKeepsStart(db, c, i);
      }
    }
  }
}
