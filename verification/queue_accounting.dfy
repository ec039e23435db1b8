/** Claim accounting over whole runs: every claim of a job is still held or has ended in exactly
    one way, and the failure counters count what they say. */
module QueueAccounting {
  import opened QueueTypes
  import opened QueueSpec
  import opened QueueMoves
  import opened QueueRuns
  import opened QueueFencing

  datatype Tally = Tally(
    claims: nat,
    finished: nat,
    failed: nat,
    integrity: nat,
    released: nat,
    takenOver: nat,
    swept: nat
  )
  {
    /** Claims that are over, by whatever way. */
    function Ended(): nat {
      finished + failed + released + takenOver + swept
    }
  }

  const NOTHING := Tally(0, 0, 0, 0, 0, 0, 0)

  predicate HasToken(db: Db, i: Id) {
    i in db.jobs && db.jobs[i].token.Some?
  }

  /** Counts one call by what it was and what it answered. */
  ghost function Counted(t: Tally, db: Db, c: Call, i: Id): Tally {
    var ret, after := Do(db, c).ret, Do(db, c).db;
    match c.op
    case OpClaim(_, _, _) =>
      if ret == Claimed(i) then t.(claims := t.claims + 1, takenOver := t.takenOver + if HasToken(db, i) then 1 else 0)
      else if HasToken(db, i) && !HasToken(after, i) then t.(swept := t.swept + 1)
      else t
    case OpFinish(k, _, _, _, _) => if k == i && ret.True? then t.(finished := t.finished + 1) else t
    case OpFailOrRetry(k, _, f) =>
      if k == i && ret.True? then
        t.(failed := t.failed + 1, integrity := t.integrity + if f.integrityFailure then 1 else 0)
      else t
    case OpReleaseClaim(k, _) => if k == i && ret.True? then t.(released := t.released + 1) else t
    case OpRelease(_) => if HasToken(db, i) && !HasToken(after, i) then t.(released := t.released + 1) else t
    case _ => t
  }

  ghost function TallyOf(run: Run, i: Id): Tally {
    if run == [] then NOTHING else Counted(TallyOf(Front(run), i), Exec(Front(run)), Last(run), i)
  }

  /** The counters of a row agree with a tally. */
  predicate Balanced(j: Job, t: Tally) {
    && j.runCount == t.claims
    && t.claims == t.Ended() + (if j.token.Some? then 1 else 0)
    && j.consecutiveFailures == t.failed
    && j.integrityFailures == t.integrity
  }

  /** What a move does to the counters. */
  function CountedMove(t: Tally, j: Job, m: Move): Tally {
    match m
    case Take(_, _, _) => t.(claims := t.claims + 1, takenOver := t.takenOver + if j.token.Some? then 1 else 0)
    case SweepOut => t.(swept := t.swept + 1)
    case End(_, _, _, _) => t.(finished := t.finished + 1)
    case Fail(_, f) => t.(failed := t.failed + 1, integrity := t.integrity + if f.integrityFailure then 1 else 0)
    case LetGo => t.(released := t.released + 1)
    case _ => t
  }

  lemma MoveKeepsBalance(j: Job, now: Time, m: Move, t: Tally)
    requires RowOk(j) && CanMove(j, now, m) && Balanced(j, t)
    ensures Balanced(Moved(j, now, m), CountedMove(t, j, m))
  {
  }

  lemma ClaimCounted(db: Db, c: Call, i: Id, t: Tally)
    requires DbOk(db) && i in db.jobs && c.op.OpClaim?
    ensures Counted(t, db, c, i) == CountedMove(t, db.jobs[i], MoveOf(db, c, i))
  {
    assert JobOk(db, i);
    CallFollows(db, c, i);
    TakenByClaim(db, c, i);
    JobCallsKeepDependents(db, c);
    MoveToken(db.jobs[i], c.now, MoveOf(db, c, i));
  }

  lemma ReleasedRowToken(j: Job, now: Time, prefix: string)
    requires RowOk(j)
    ensures j.token.Some? && ReleaseRow(j, now, prefix).token.None? <==> OwnedBy(j, prefix) && j.state.IsWorking()
  {
  }

  lemma ReleaseCounted(db: Db, c: Call, i: Id, t: Tally)
    requires DbOk(db) && i in db.jobs && c.op.OpRelease?
    ensures Counted(t, db, c, i) == CountedMove(t, db.jobs[i], MoveOf(db, c, i))
  {
    assert JobOk(db, i);
    ReleasedRowToken(db.jobs[i], c.now, c.op.prefix);
    assert Do(db, c).db.jobs[i] == ReleaseRow(db.jobs[i], c.now, c.op.prefix);
  }

  lemma EndingCounted(db: Db, c: Call, i: Id, t: Tally)
    requires i in db.jobs && IsEnding(c.op) && Callable(db, c.op)
    ensures Counted(t, db, c, i) == CountedMove(t, db.jobs[i], MoveOf(db, c, i))
  {
  }

  lemma OtherCounted(db: Db, c: Call, i: Id, t: Tally)
    requires i in db.jobs && !c.op.OpClaim? && !c.op.OpRelease? && !IsEnding(c.op)
    ensures Counted(t, db, c, i) == t && CountedMove(t, db.jobs[i], MoveOf(db, c, i)) == t
  {
  }

  lemma CallCounted(db: Db, c: Call, i: Id, t: Tally)
    requires DbOk(db) && i in db.jobs && Callable(db, c.op)
    ensures Counted(t, db, c, i) == CountedMove(t, db.jobs[i], MoveOf(db, c, i))
  {
    if c.op.OpClaim? {
      ClaimCounted(db, c, i, t);
    } else if c.op.OpRelease? {
      ReleaseCounted(db, c, i, t);
    } else if IsEnding(c.op) {
      EndingCounted(db, c, i, t);
    } else {
      OtherCounted(db, c, i, t);
    }
  }

  /** A call on an unknown job counts nothing for it. */
  lemma UnknownCounted(db: Db, c: Call, i: Id, t: Tally)
    requires i !in db.jobs
    ensures Counted(t, db, c, i) == t
  {
    if c.op.OpClaim? {
      FirstIsTheFirst(Sweep(db.jobs, c.now), c.now);
    }
  }

  lemma {:induction false} NeverSeen(run: Run, i: Id)
    requires Legal(run) && i !in Ids(run)
    ensures TallyOf(run, i) == NOTHING
    decreases |run|
  {
    if run != [] {
      NeverSeen(Front(run), i);
      RunsKeepTokens(Front(run));
      UnknownCounted(Exec(Front(run)), Last(run), i, NOTHING);
    }
  }

  lemma BalanceStep(db: Db, c: Call, i: Id, t: Tally)
    requires DbOk(db) && i in db.jobs && i in Do(db, c).db.jobs && Callable(db, c.op) && Balanced(db.jobs[i], t)
    ensures Balanced(Do(db, c).db.jobs[i], Counted(t, db, c, i))
  {
    assert JobOk(db, i);
    CallFollows(db, c, i);
    CallCounted(db, c, i, t);
    MoveKeepsBalance(db.jobs[i], c.now, MoveOf(db, c, i), t);
  }

  lemma NewIsBalanced(j: Job)
    requires j.runCount == 0 && j.consecutiveFailures == 0 && j.integrityFailures == 0 && j.token == None
    ensures Balanced(j, NOTHING)
  {
  }

  /** Claim conservation: `run_count` is the number of claims, and each of them was ended by
      exactly one of `finish`, `fail_or_retry`, a release, a lease takeover or the cancel sweep,
      except the one that may still be held. `consecutive_failures` is the number of failures
      recorded over the job's whole life (nothing ever resets it), and `integrity_failures` the
      number of those that were integrity failures. */
  lemma {:induction false} ClaimsBalance(run: Run, i: Id)
    requires Legal(run) && i in Exec(run).jobs
    ensures Balanced(Exec(run).jobs[i], TallyOf(run, i))
    decreases |run|
  {
    var db, c := Exec(Front(run)), Last(run);
    RunsKeepDbOk(Front(run));
    if i in db.jobs {
      ClaimsBalance(Front(run), i);
      BalanceStep(db, c, i, TallyOf(Front(run), i));
    } else {
      IdAfter(run, i);
      NeverSeen(Front(run), i);
      CallFollows(db, c, i);
      NewIsBalanced(Do(db, c).db.jobs[i]);
      UnknownCounted(db, c, i, NOTHING);
    }
  }

  /** The order of the counters: integrity failures, failures, claims; and every failure that
      counted left an error row. */
  lemma CountersAreOrdered(run: Run, i: Id)
    requires Legal(run) && i in Exec(run).jobs
    ensures var j := Exec(run).jobs[i];
            && 0 <= j.integrityFailures <= j.consecutiveFailures <= j.runCount
            && (j.token.Some? ==> j.consecutiveFailures < j.runCount)
            && i in Exec(run).errors && j.consecutiveFailures <= |Exec(run).errors[i]|
  {
    RunsKeepDbOk(run);
    assert JobOk(Exec(run), i);
  }
}
