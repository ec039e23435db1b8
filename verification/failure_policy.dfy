/** The manager's failure policy: what it decides from a row it has read, and why deciding on
    a row read earlier is safe under fencing. */
module FailurePolicy {
  import opened QueueTypes
  import opened QueueSpec
  import opened QueueMoves
  import opened QueueRuns
  import opened QueueFencing
  import opened QueueLifecycle
  import opened QueueLaws

  /** The manager's settings; durations in microseconds, an overall timeout of 0 means none. */
  datatype Config = Config(
    initialBackoff: int,
    maxBackoff: int,
    noProgressTimeout: int,
    overallTimeout: int,
    integrityRetries: int
  )
  {
    predicate Valid() {
      && 0 < initialBackoff <= maxBackoff
      && 0 < noProgressTimeout && 0 <= overallTimeout && 0 <= integrityRetries
    }
  }

  datatype TransferError = TransferError(code: string, message: string, retryable: bool, retryAfter: Option<int>)

  const MILLISECOND: int := 1000

  const DIGEST_MISMATCH := "digest_mismatch"

  function Pow2(n: nat): int {
    if n == 0 then 1 else 2 * Pow2(n - 1)
  }

  function Min(a: int, b: int): int {
    if a < b then a else b
  }

  /** The ceiling of the exponential backoff. */
  function BackoffCap(cfg: Config, failures: nat): int {
    Min(cfg.maxBackoff, cfg.initialBackoff * Pow2(Min(failures, 16)))
  }

  /** What `randbelow` may draw: a whole number of milliseconds up to the cap. */
  predicate IsJitter(cfg: Config, failures: nat, jitter: int) {
    0 <= jitter <= BackoffCap(cfg, failures) / MILLISECOND
  }

  predicate BudgetSpent(row: Job, e: TransferError, cfg: Config) {
    e.code == DIGEST_MISMATCH && row.integrityFailures >= cfg.integrityRetries
  }

  predicate NoProgress(row: Job, clock: Time, cfg: Config) {
    clock - row.lastProgressAt >= cfg.noProgressTimeout
  }

  predicate Overdue(row: Job, clock: Time, cfg: Config) {
    cfg.overallTimeout != 0 && row.startedAt.Some? && clock - row.startedAt.value >= cfg.overallTimeout
  }

  /** The error that is recorded in the end: the last check that rejects names it. */
  function RecordedError(row: Job, e: TransferError, clock1: Time, clock2: Time, cfg: Config): TransferError {
    if Overdue(row, clock2, cfg) then
      TransferError("overall_timeout", "Copy exceeded the configured overall timeout: " + e.message, false, None)
    else if BudgetSpent(row, e, cfg) then
      TransferError("integrity_retries_exhausted", "Copy failed repeated integrity verification: " + e.message, false, None)
    else if e.retryable && NoProgress(row, clock1, cfg) then
      TransferError("no_progress_timeout", "Copy made no progress before the configured timeout: " + e.message, false, None)
    else e
  }

  function Delay(e: TransferError, cfg: Config, jitter: int): int {
    if e.retryAfter.Some? then Min(cfg.maxBackoff, Max(0, e.retryAfter.value)) else jitter * MILLISECOND
  }

  /** The arguments `_record_failure` passes to `fail_or_retry`. */
  function Decision(row: Job, e: TransferError, clock1: Time, clock2: Time, jitter: int, cfg: Config): Failure {
    var recorded := RecordedError(row, e, clock1, clock2, cfg);
    Failure(recorded.code, recorded.message, recorded.retryable, Some(Delay(recorded, cfg, jitter)), None,
            e.code == DIGEST_MISMATCH)
  }

  /** The decision as the manager makes it, reassigning the error and the verdict check by check. */
  method Decide(row: Job, failure: TransferError, clock1: Time, clock2: Time, jitter: int, cfg: Config)
    returns (f: Failure)
    requires 0 <= row.consecutiveFailures
    ensures f == Decision(row, failure, clock1, clock2, jitter, cfg)
  {
    var e := failure;
    var retryable := e.retryable;
    var detail := e.message;
    var integrityFailure := e.code == DIGEST_MISMATCH;
    if integrityFailure && row.integrityFailures >= cfg.integrityRetries {
      retryable := false;
      e := TransferError("integrity_retries_exhausted", "Copy failed repeated integrity verification: " + detail, false, None);
    }
    if retryable && clock1 - row.lastProgressAt >= cfg.noProgressTimeout {
      retryable := false;
      e := TransferError("no_progress_timeout", "Copy made no progress before the configured timeout: " + detail, false, None);
    }
    if cfg.overallTimeout != 0 && row.startedAt.Some? {
      if clock2 - row.startedAt.value >= cfg.overallTimeout {
        retryable := false;
        e := TransferError("overall_timeout", "Copy exceeded the configured overall timeout: " + detail, false, None);
      }
    }
    var delay := jitter * MILLISECOND;
    if e.retryAfter.Some? {
      delay := Min(cfg.maxBackoff, Max(0, e.retryAfter.value));
    }
    f := Failure(e.code, e.message, retryable, Some(delay), None, integrityFailure);
  }

  /** A failure is retried exactly when it is retryable, its integrity budget is not spent, and
      the job is strictly within both timeouts. */
  lemma RetriedIff(row: Job, e: TransferError, clock1: Time, clock2: Time, jitter: int, cfg: Config)
    ensures Decision(row, e, clock1, clock2, jitter, cfg).retryable
       <==> && e.retryable
            && !(e.code == DIGEST_MISMATCH && cfg.integrityRetries <= row.integrityFailures)
            && clock1 < row.lastProgressAt + cfg.noProgressTimeout
            && (cfg.overallTimeout != 0 && row.startedAt.Some? ==> clock2 < row.startedAt.value + cfg.overallTimeout)
  {
  }

  lemma {:induction false} Pow2Positive(n: nat)
    ensures 0 < Pow2(n)
  {
    if n > 0 {
      Pow2Positive(n - 1);
    }
  }

  /** The delay lies within the configured bounds, for any failure count and any Retry-After. */
  lemma DelayWithinBounds(row: Job, e: TransferError, clock1: Time, clock2: Time, jitter: int, cfg: Config)
    requires cfg.Valid() && 0 <= row.consecutiveFailures && IsJitter(cfg, row.consecutiveFailures, jitter)
    ensures var delay := Decision(row, e, clock1, clock2, jitter, cfg).delay;
            delay.Some? && 0 <= delay.value <= cfg.maxBackoff
  {
    var cap := BackoffCap(cfg, row.consecutiveFailures);
    Pow2Positive(Min(row.consecutiveFailures, 16));
    assert cap / MILLISECOND * MILLISECOND <= cap;
  }

  /** The ceiling of the backoff is the initial one after no failure, doubles with each failure up
      to the sixteenth, and never exceeds the maximum; any whole number of milliseconds up to it may
      be drawn. */
  lemma BackoffDoubles(cfg: Config, failures: nat, jitter: int)
    requires cfg.Valid()
    ensures BackoffCap(cfg, 0) == cfg.initialBackoff
    ensures var cap := BackoffCap(cfg, failures);
            failures < 16 ==> BackoffCap(cfg, failures + 1) == if 2 * cap < cfg.maxBackoff then 2 * cap else cfg.maxBackoff
    ensures failures >= 16 ==> BackoffCap(cfg, failures) == BackoffCap(cfg, 16)
    ensures IsJitter(cfg, failures, jitter) <==> 0 <= jitter && jitter * 1000 <= BackoffCap(cfg, failures)
  {
    Pow2Positive(failures);
    if failures < 16 {
      DoublesBelow(cfg.initialBackoff, Pow2(failures), cfg.maxBackoff);
    }
  }

  lemma DoublesBelow(a: int, p: int, most: int)
    requires 0 < a <= most && 0 < p
    ensures Min(most, a * (2 * p)) == Min(most, 2 * Min(most, a * p))
  {
    assert a * (2 * p) == 2 * (a * p);
  }

  /** A retry waits as long as the registry asked for, within 0 and the maximum, and as long as the
      draw says if it asked for nothing. */
  lemma RetryAfterIsServed(row: Job, e: TransferError, clock1: Time, clock2: Time, jitter: int, cfg: Config)
    requires cfg.Valid() && Decision(row, e, clock1, clock2, jitter, cfg).retryable
    ensures var d := Decision(row, e, clock1, clock2, jitter, cfg).delay;
            && (e.retryAfter.None? ==> d == Some(jitter * 1000))
            && (e.retryAfter.Some? && e.retryAfter.value < 0 ==> d == Some(0))
            && (e.retryAfter.Some? && 0 <= e.retryAfter.value <= cfg.maxBackoff ==> d == e.retryAfter)
            && (e.retryAfter.Some? && cfg.maxBackoff < e.retryAfter.value ==> d == Some(cfg.maxBackoff))
  {
  }

  /** What a failure is called: an overall timeout, then a spent integrity budget, then a lack of
      progress of an otherwise retryable failure, and else what it was. */
  lemma FailureIsNamed(row: Job, e: TransferError, clock1: Time, clock2: Time, cfg: Config)
    ensures var f := RecordedError(row, e, clock1, clock2, cfg);
            var overdue := cfg.overallTimeout != 0 && row.startedAt.Some? && row.startedAt.value + cfg.overallTimeout <= clock2;
            var spent := e.code == DIGEST_MISMATCH && cfg.integrityRetries <= row.integrityFailures;
            var stalled := e.retryable && row.lastProgressAt + cfg.noProgressTimeout <= clock1;
            if overdue then f.code == "overall_timeout" && !f.retryable
            else if spent then f.code == "integrity_retries_exhausted" && !f.retryable
            else if stalled then f.code == "no_progress_timeout" && !f.retryable
            else f == e
  {
  }

  /** That is what is written, and a mismatch counts as one under any name. */
  lemma DecisionCarriesName(row: Job, e: TransferError, clock1: Time, clock2: Time, jitter: int, cfg: Config)
    ensures var f, n := Decision(row, e, clock1, clock2, jitter, cfg), RecordedError(row, e, clock1, clock2, cfg);
            && f.code == n.code && f.message == n.message && f.retryable == n.retryable && f.httpStatus == None
            && (f.integrityFailure <==> e.code == DIGEST_MISMATCH)
    ensures DIGEST_MISMATCH == "digest_mismatch"
  {
  }

  // ----- read, then write ------------------------------------------------------------------

  /** Call `w` records a failure decided from the row that call `r` read: the same worker, under
      a token it already held, and with no progress report of its own in between. */
  ghost predicate DecidedFrom(run: Run, r: nat, w: nat, e: TransferError, clock1: Time, clock2: Time,
                              jitter: int, cfg: Config)
  {
    && r < w < |run| && run[w].op.OpFailOrRetry?
    && run[r].op == OpDetails(run[w].op.id, run[w].op.token)
    && run[w].op.token in Tokens(run[..r])
    && run[w].op.id in Exec(run[..r]).jobs
    && run[r].now <= clock1 <= clock2 <= run[w].now
    && cfg.Valid()
    && var row := Exec(run[..r]).jobs[run[w].op.id];
       && 0 <= row.consecutiveFailures && IsJitter(cfg, row.consecutiveFailures, jitter)
       && run[w].op.failure == Decision(row, e, clock1, clock2, jitter, cfg)
  }

  ghost predicate NoReportBetween(run: Run, r: nat, w: nat)
    requires r < w < |run| && run[w].op.OpFailOrRetry?
  {
    forall k | r < k < w :: !(run[k].op.OpProgress? && run[k].op.token == run[w].op.token)
  }

  /** What a move leaves alone on a row that stays under the same token. */
  lemma MoveUnderToken(j: Job, now: Time, m: Move, t: Token)
    requires CanMove(j, now, m) && j.token == Some(t) && Moved(j, now, m).token == Some(t)
    requires m.Take? ==> m.newToken != t
    ensures var j' := Moved(j, now, m);
            && j'.integrityFailures == j.integrityFailures && j'.consecutiveFailures == j.consecutiveFailures
            && j'.startedAt == j.startedAt
            && (!m.Count? ==> j'.lastProgressAt == j.lastProgressAt)
  {
  }

  /** The columns a failure decision reads, before and after a call that leaves `t` current. */
  predicate SameBasis(j: Job, j': Job, reported: bool) {
    && j'.integrityFailures == j.integrityFailures && j'.consecutiveFailures == j.consecutiveFailures
    && j'.startedAt == j.startedAt
    && (!reported ==> j'.lastProgressAt == j.lastProgressAt)
  }

  lemma CallUnderToken(db: Db, c: Call, i: Id, t: Token)
    requires KeysAgree(db) && Holds(db, i, t) && Holds(Do(db, c).db, i, t)
    requires c.op.OpClaim? ==> c.op.newToken != t
    ensures SameBasis(db.jobs[i], Do(db, c).db.jobs[i], c.op.OpProgress? && c.op.token == t)
  {
    CallFollows(db, c, i);
    TakenByClaim(db, c, i);
    MoveUnderToken(db.jobs[i], c.now, MoveOf(db, c, i), t);
    if MoveOf(db, c, i).Count? {
      CountIsReport(db, c, i);
    }
  }

  lemma CountIsReport(db: Db, c: Call, i: Id)
    requires i in db.jobs && MoveOf(db, c, i).Count?
    ensures c.op.OpProgress? && db.jobs[i].token == Some(c.op.token)
  {
  }

  /** While one token stays current, the columns a failure decision reads do not change. */
  lemma {:induction false} StableUnderToken(run: Run, n: nat, i: Id, t: Token)
    requires Legal(run) && n <= |run| && t in Tokens(run[..n]) && Holds(Exec(run), i, t)
    ensures Holds(Exec(run[..n]), i, t)
    ensures SameBasis(Exec(run[..n]).jobs[i], Exec(run).jobs[i],
                      exists k | n <= k < |run| :: run[k].op.OpProgress? && run[k].op.token == t)
    decreases |run|
  {
    if n == |run| {
      assert run[..n] == run;
    } else {
      var front := Front(run);
      assert front[..n] == run[..n];
      UsedGrow(front, n);
      assert run[..|front|] == front;
      HeldSinceIssued(run, |front|, i, t);
      StableUnderToken(front, n, i, t);
      RunsKeepDbOk(front);
      CallUnderToken(Exec(front), Last(run), i, t);
    }
  }

  lemma StableBetween(run: Run, r: nat, w: nat, i: Id, t: Token)
    requires Legal(run) && r <= w <= |run| && t in Tokens(run[..r]) && Holds(Exec(run[..w]), i, t)
    ensures Holds(Exec(run[..r]), i, t)
    ensures SameBasis(Exec(run[..r]).jobs[i], Exec(run[..w]).jobs[i],
                      exists k | r <= k < w :: run[k].op.OpProgress? && run[k].op.token == t)
  {
    LegalPrefix(run, w);
    assert run[..w][..r] == run[..r];
    StableUnderToken(run[..w], r, i, t);
  }

  /** A successful fenced write implies that the row read before the decision was still current. */
  lemma ReadWasCurrent(run: Run, r: nat, w: nat, e: TransferError, clock1: Time, clock2: Time, jitter: int, cfg: Config)
    requires Legal(run) && DecidedFrom(run, r, w, e, clock1, clock2, jitter, cfg)
    requires Answer(run, w).True?
    ensures var i := run[w].op.id;
            && Holds(Exec(run[..w]), i, run[w].op.token)
            && SameBasis(Exec(run[..r]).jobs[i], Exec(run[..w]).jobs[i], !NoReportBetween(run, r, w))
  {
    EndingNeedsToken(Exec(run[..w]), run[w]);
    StableBetween(run, r, w, run[w].op.id, run[w].op.token);
  }

  // ----- what only advances ----------------------------------------------------------------

  lemma MoveProgressClock(j: Job, now: Time, m: Move)
    requires CanMove(j, now, m)
    ensures Moved(j, now, m).lastProgressAt == j.lastProgressAt || Moved(j, now, m).lastProgressAt == now
  {
  }

  /** No row's last progress lies in the future. */
  lemma {:induction false} LastProgressIsPast(run: Run, i: Id)
    requires Legal(run) && i in Exec(run).jobs
    ensures run != [] && Exec(run).jobs[i].lastProgressAt <= Last(run).now
    decreases |run|
  {
    var front := Front(run);
    RunsKeepDbOk(front);
    CallFollows(Exec(front), Last(run), i);
    if i in Exec(front).jobs {
      LastProgressIsPast(front, i);
      MoveProgressClock(Exec(front).jobs[i], Last(run).now, MoveOf(Exec(front), Last(run), i));
    }
  }

  /** What no call takes back: the start, the failure counts and the last progress. */
  predicate Since(j: Job, j': Job) {
    && (j.startedAt.Some? ==> j'.startedAt == j.startedAt)
    && j.integrityFailures <= j'.integrityFailures && j.consecutiveFailures <= j'.consecutiveFailures
    && j.lastProgressAt <= j'.lastProgressAt
  }

  lemma MoveSince(j: Job, now: Time, m: Move)
    requires CanMove(j, now, m) && j.lastProgressAt <= now
    ensures Since(j, Moved(j, now, m))
  {
  }

  /** Over runs, user retries included. */
  lemma {:induction false} NothingIsRenewed(run: Run, n: nat, i: Id)
    requires Legal(run) && n <= |run|
    requires i in Exec(run[..n]).jobs && i in Exec(run).jobs
    ensures Since(Exec(run[..n]).jobs[i], Exec(run).jobs[i])
    decreases |run|
  {
    if n == |run| {
      assert run[..n] == run;
    } else {
      PresentBefore(run, n, i);
      var front := Front(run);
      NothingIsRenewed(front, n, i);
      LastProgressIsPast(front, i);
      CallFollows(Exec(front), Last(run), i);
      MoveSince(Exec(front).jobs[i], Last(run).now, MoveOf(Exec(front), Last(run), i));
    }
  }

  lemma NothingIsRenewedBetween(run: Run, n: nat, m: nat, i: Id)
    requires Legal(run) && n <= m <= |run|
    requires i in Exec(run[..n]).jobs && i in Exec(run[..m]).jobs
    ensures Since(Exec(run[..n]).jobs[i], Exec(run[..m]).jobs[i])
  {
    LegalPrefix(run, m);
    assert run[..m][..n] == run[..n];
    NothingIsRenewed(run[..m], n, i);
  }

  /** A user's `retry` renews neither the clocks nor the budget: once a job is past its overall
      timeout, every later failure is final, and once its integrity budget is spent every later
      mismatch is, whatever calls come in between. */
  lemma ExhaustedForever(run: Run, n: nat, r: nat, w: nat, e: TransferError, clock1: Time, clock2: Time, jitter: int, cfg: Config)
    requires Legal(run) && DecidedFrom(run, r, w, e, clock1, clock2, jitter, cfg)
    requires n <= r && run[w].op.id in Exec(run[..n]).jobs
    requires var row := Exec(run[..n]).jobs[run[w].op.id];
             || (cfg.overallTimeout != 0 && row.startedAt.Some? && row.startedAt.value + cfg.overallTimeout <= clock2)
             || (e.code == DIGEST_MISMATCH && cfg.integrityRetries <= row.integrityFailures)
    ensures !run[w].op.failure.retryable
    ensures run[w].op.failure.code in {"overall_timeout", "integrity_retries_exhausted"}
  {
    NothingIsRenewedBetween(run, n, r, run[w].op.id);
  }

  /** Progress is rewarded: a failure that is decided less than the no-progress timeout after the
      token holder reported news is not final for lack of progress. */
  lemma ProgressPostponesTimeout(run: Run, p: nat, r: nat, w: nat, e: TransferError, clock1: Time, clock2: Time,
                                 jitter: int, cfg: Config)
    requires Legal(run) && DecidedFrom(run, r, w, e, clock1, clock2, jitter, cfg) && p < r
    requires run[p].op.OpProgress? && run[p].op.id == run[w].op.id && run[p].op.event.digest != "" && Answer(run, p).True?
    requires run[p].op.event.digest in BlobRows(Exec(run[..p]), run[p].op.id)
    requires IsNews(BlobRows(Exec(run[..p]), run[p].op.id)[run[p].op.event.digest], run[p].op.event)
    requires clock1 < run[p].now + cfg.noProgressTimeout
    ensures var row := Exec(run[..r]).jobs[run[w].op.id];
            && run[p].now <= row.lastProgressAt
            && (run[w].op.failure.retryable
                <==> && e.retryable
                     && !(e.code == DIGEST_MISMATCH && cfg.integrityRetries <= row.integrityFailures)
                     && (cfg.overallTimeout != 0 && row.startedAt.Some? ==> clock2 < row.startedAt.value + cfg.overallTimeout))
  {
    var i := run[w].op.id;
    ClockAfterNews(run, p, i);
    NothingIsRenewedBetween(run, p + 1, r, i);
    RetriedIff(Exec(run[..r]).jobs[i], e, clock1, clock2, jitter, cfg);
  }

  lemma ClockAfterNews(run: Run, p: nat, i: Id)
    requires p < |run| && run[p].op.OpProgress? && run[p].op.id == i && run[p].op.event.digest != "" && Answer(run, p).True?
    requires run[p].op.event.digest in BlobRows(Exec(run[..p]), i)
    requires IsNews(BlobRows(Exec(run[..p]), i)[run[p].op.event.digest], run[p].op.event)
    ensures i in Exec(run[..p + 1]).jobs && Exec(run[..p + 1]).jobs[i].lastProgressAt == run[p].now
  {
    StepAt(run, p);
    ProgressClock(Exec(run[..p]), run[p]);
  }

  /** Whenever a recorded failure leaves a job in `retry_wait`, it waits no longer than the
      maximum backoff; and by the row as it stood at the write, the job was strictly within the
      no-progress timeout and any overall timeout at decision time. */
  lemma RetryWaitIsBounded(run: Run, r: nat, w: nat, e: TransferError, clock1: Time, clock2: Time, jitter: int, cfg: Config)
    requires Legal(run) && DecidedFrom(run, r, w, e, clock1, clock2, jitter, cfg)
    requires Answer(run, w).True? && run[w].op.failure.retryable
    ensures var i := run[w].op.id;
            && i in Exec(run[..w]).jobs && i in Exec(run[..w + 1]).jobs
            && var row, after := Exec(run[..w]).jobs[i], Exec(run[..w + 1]).jobs[i];
               && after.state.RetryWait? && after.nextRetryAt.Some?
               && run[w].now <= after.nextRetryAt.value <= run[w].now + cfg.maxBackoff
               && clock1 < row.lastProgressAt + cfg.noProgressTimeout
               && (cfg.overallTimeout != 0 && row.startedAt.Some? ==> clock2 < row.startedAt.value + cfg.overallTimeout)
  {
    ReadWasCurrent(run, r, w, e, clock1, clock2, jitter, cfg);
    var read := Exec(run[..r]).jobs[run[w].op.id];
    RetriedIff(read, e, clock1, clock2, jitter, cfg);
    DelayWithinBounds(read, e, clock1, clock2, jitter, cfg);
    NothingIsRenewedBetween(run, r, w, run[w].op.id);
    StepAt(run, w);
    RecordedFailure(Exec(run[..w]), run[w]);
  }

  lemma RecordedFailure(db: Db, c: Call)
    requires c.op.OpFailOrRetry? && Holds(db, c.op.id, c.op.token)
    ensures c.op.id in Do(db, c).db.jobs && Do(db, c).db.jobs[c.op.id] == FailedRow(db.jobs[c.op.id], c.now, c.op.failure)
  {
  }

  // ----- the integrity budget --------------------------------------------------------------

  /** Every failure of the run was recorded through the policy, by managers with budget `budget`. */
  ghost predicate Disciplined(run: Run, budget: int) {
    forall w | 0 <= w < |run| && run[w].op.OpFailOrRetry? ::
      exists r: nat, e, clock1, clock2, jitter, cfg ::
        DecidedFrom(run, r, w, e, clock1, clock2, jitter, cfg) && cfg.integrityRetries == budget
  }

  /** The last call put the job back into `retry_wait` after an integrity failure. */
  ghost predicate IntegrityRetry(run: Run, i: Id)
    requires run != []
  {
    && Last(run).op.OpFailOrRetry? && Last(run).op.id == i && Result(run).True?
    && Last(run).op.failure.integrityFailure && Last(run).op.failure.retryable
  }

  ghost function IntegrityRetries(run: Run, i: Id): nat {
    if run == [] then 0
    else IntegrityRetries(Front(run), i) + if IntegrityRetry(run, i) then 1 else 0
  }

  lemma DecidedInFront(run: Run, r: nat, w: nat, e: TransferError, clock1: Time, clock2: Time, jitter: int, cfg: Config)
    requires DecidedFrom(run, r, w, e, clock1, clock2, jitter, cfg) && w < |run| - 1
    ensures DecidedFrom(Front(run), r, w, e, clock1, clock2, jitter, cfg)
  {
    var front := Front(run);
    assert front[..r] == run[..r] && front[r] == run[r] && front[w] == run[w];
  }

  lemma DisciplinedPrefix(run: Run, budget: int)
    requires Disciplined(run, budget) && run != []
    ensures Disciplined(Front(run), budget)
  {
    var front := Front(run);
    forall w | 0 <= w < |front| && front[w].op.OpFailOrRetry?
      ensures exists r: nat, e, clock1, clock2, jitter, cfg ::
                DecidedFrom(front, r, w, e, clock1, clock2, jitter, cfg) && cfg.integrityRetries == budget
    {
      assert front[w] == run[w];
      var r: nat, e, clock1, clock2, jitter, cfg :|
        DecidedFrom(run, r, w, e, clock1, clock2, jitter, cfg) && cfg.integrityRetries == budget;
      DecidedInFront(run, r, w, e, clock1, clock2, jitter, cfg);
    }
  }

  lemma MoveKeepsIntegrity(j: Job, now: Time, m: Move)
    requires CanMove(j, now, m)
    ensures Moved(j, now, m).integrityFailures
         == j.integrityFailures + if m.Fail? && m.failure.integrityFailure then 1 else 0
  {
  }

  lemma CallKeepsIntegrity(run: Run, i: Id)
    requires run != [] && i in Exec(Front(run)).jobs && i in Exec(run).jobs
    ensures Exec(run).jobs[i].integrityFailures
         >= Exec(Front(run)).jobs[i].integrityFailures + if IntegrityRetry(run, i) then 1 else 0
  {
    var db, c := Exec(Front(run)), Last(run);
    RunsKeepDbOk(Front(run));
    CallFollows(db, c, i);
    MoveKeepsIntegrity(db.jobs[i], c.now, MoveOf(db, c, i));
    if IntegrityRetry(run, i) {
      EndingNeedsToken(db, c);
    }
  }

  lemma {:induction false} NoRetryUnseen(run: Run, i: Id)
    requires Legal(run) && i !in Ids(run)
    ensures IntegrityRetries(run, i) == 0
    decreases |run|
  {
    if run != [] {
      NoRetryUnseen(Front(run), i);
      RunsKeepTokens(Front(run));
      if IntegrityRetry(run, i) {
        EndingNeedsToken(Exec(Front(run)), Last(run));
      }
    }
  }

  /** Each such retry has left its mark on the row, as long as the row lives. */
  lemma {:induction false} RetriesAreCounted(run: Run, i: Id)
    requires Legal(run) && i in Exec(run).jobs
    ensures IntegrityRetries(run, i) <= Exec(run).jobs[i].integrityFailures
    decreases |run|
  {
    if i in Exec(Front(run)).jobs {
      RetriesAreCounted(Front(run), i);
      CallKeepsIntegrity(run, i);
    } else {
      IdAfter(run, i);
      NoRetryUnseen(Front(run), i);
      RunsKeepDbOk(run);
      assert JobOk(Exec(run), i);
    }
  }

  /** A digest mismatch is retried only while the row shows budget left. */
  lemma RetryNeedsBudget(run: Run, i: Id, budget: int)
    requires Legal(run) && Disciplined(run, budget) && run != [] && IntegrityRetry(run, i)
    ensures i in Exec(Front(run)).jobs && Exec(Front(run)).jobs[i].integrityFailures < budget
  {
    var w := |run| - 1;
    var r: nat, e, clock1, clock2, jitter, cfg :|
      DecidedFrom(run, r, w, e, clock1, clock2, jitter, cfg) && cfg.integrityRetries == budget;
    assert Answer(run, w).True?;
    ReadWasCurrent(run, r, w, e, clock1, clock2, jitter, cfg);
    RetriedIff(Exec(run[..r]).jobs[i], e, clock1, clock2, jitter, cfg);
  }

  /** The integrity budget: across any interleaving of workers, takeovers and user retries, at
      most `budget` digest mismatches ever put a given job back into `retry_wait`. */
  lemma {:induction false} IntegrityBudget(run: Run, i: Id, budget: nat)
    requires Legal(run) && Disciplined(run, budget)
    ensures IntegrityRetries(run, i) <= budget
    decreases |run|
  {
    if run != [] {
      DisciplinedPrefix(run, budget);
      IntegrityBudget(Front(run), i, budget);
      if IntegrityRetry(run, i) {
        RetryNeedsBudget(run, i, budget);
        RetriesAreCounted(Front(run), i);
      }
    }
  }
}
