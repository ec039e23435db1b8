/** Leases and fencing tokens over whole runs: who may write a job row, and for how long. */
module QueueFencing {
  import opened QueueTypes
  import opened QueueSpec
  import opened QueueMoves
  import opened QueueRuns

  // ----- tokens ----------------------------------------------------------------------------

  /** The token column after a move: only a claim sets it. */
  lemma MoveToken(j: Job, now: Time, m: Move)
    requires CanMove(j, now, m)
    ensures Moved(j, now, m).token
         == if m.Take? then Some(m.newToken)
            else if m.SweepOut? || m.End? || m.Fail? || m.LetGo? then None
            else j.token
  {
  }

  /** A row is taken only by a claim, only when it is claimable, and the claim returns its id. */
  lemma TakenByClaim(db: Db, c: Call, i: Id)
    requires i in db.jobs
    ensures MoveOf(db, c, i).Take? <==> c.op.OpClaim? && Do(db, c).ret == Claimed(i)
    ensures MoveOf(db, c, i).Take? ==> MoveOf(db, c, i).newToken == c.op.newToken
  {
    FirstIsTheFirst(Sweep(db.jobs, c.now), c.now);
  }

  /** Every token in the table was drawn by a claim of the run, and no two jobs share one. */
  ghost predicate TokensOk(run: Run) {
    var jobs := Exec(run).jobs;
    && jobs.Keys <= Ids(run)
    && (forall i | i in jobs :: jobs[i].token.Some? ==> jobs[i].token.value in Tokens(run))
    && forall i, k | i in jobs && k in jobs :: i != k && jobs[i].token.Some? ==> jobs[i].token != jobs[k].token
  }

  lemma TokenAfter(run: Run, i: Id)
    requires run != [] && i in Exec(run).jobs
    ensures var t := Exec(run).jobs[i].token;
            || t.None?
            || (Last(run).op.OpClaim? && t == Some(Last(run).op.newToken) && Result(run) == Claimed(i))
            || (i in Exec(Front(run)).jobs && t == Exec(Front(run)).jobs[i].token)
  {
    var db, c := Exec(Front(run)), Last(run);
    RunsKeepDbOk(Front(run));
    CallFollows(db, c, i);
    if i in db.jobs {
      MoveToken(db.jobs[i], c.now, MoveOf(db, c, i));
      TakenByClaim(db, c, i);
    }
  }

  lemma {:induction false} RunsKeepTokens(run: Run)
    requires Legal(run)
    ensures TokensOk(run)
    decreases |run|
  {
    if run != [] {
      RunsKeepTokens(Front(run));
      var jobs := Exec(run).jobs;
      forall i | i in jobs
        ensures i in Ids(run) && (jobs[i].token.Some? ==> jobs[i].token.value in Tokens(run))
      {
        TokenAfter(run, i);
        IdAfter(run, i);
      }
      forall i, k | i in jobs && k in jobs && i != k && jobs[i].token.Some?
        ensures jobs[i].token != jobs[k].token
      {
        TokenAfter(run, i);
        TokenAfter(run, k);
      }
    }
  }

  lemma IdAfter(run: Run, i: Id)
    requires run != [] && i in Exec(run).jobs
    ensures i in Exec(Front(run)).jobs || (Last(run).op.OpEnqueue? && Last(run).op.newId == i)
  {
    RunsKeepDbOk(Front(run));
    CallFollows(Exec(Front(run)), Last(run), i);
  }

  // ----- the current token -----------------------------------------------------------------

  /** The token of the last claim in the run that returned job `i`. */
  ghost function LastClaimToken(run: Run, i: Id): Option<Token> {
    if run == [] then None
    else if Last(run).op.OpClaim? && Result(run) == Claimed(i) then Some(Last(run).op.newToken)
    else LastClaimToken(Front(run), i)
  }

  /** At most one token is current for a job: the last one a claim issued for it. */
  lemma {:induction false} CurrentTokenIsLastIssued(run: Run, i: Id, t: Token)
    requires Legal(run) && Holds(Exec(run), i, t)
    ensures LastClaimToken(run, i) == Some(t)
    decreases |run|
  {
    TokenAfter(run, i);
    if !(Last(run).op.OpClaim? && Result(run) == Claimed(i)) {
      CurrentTokenIsLastIssued(Front(run), i, t);
    }
  }

  /** A claim hands out only a job that nobody holds under an unexpired lease and whose
      cancellation nobody has asked for. */
  lemma ClaimRespectsLeases(db: Db, c: Call, i: Id)
    requires DbOk(db) && c.op.OpClaim? && Do(db, c).ret == Claimed(i)
    ensures i in db.jobs && !db.jobs[i].state.CancelRequested?
    ensures db.jobs[i].token.Some? ==> db.jobs[i].leaseExpiresAt.value < c.now
    ensures Holds(Do(db, c).db, i, c.op.newToken)
  {
    FirstIsTheFirst(Sweep(db.jobs, c.now), c.now);
    assert JobOk(db, i);
  }

  /** A job held under an unexpired lease is left exactly as it is by every claim. */
  lemma LeaseProtects(db: Db, c: Call, i: Id)
    requires DbOk(db) && c.op.OpClaim? && i in db.jobs
    requires db.jobs[i].token.Some? && c.now <= db.jobs[i].leaseExpiresAt.value
    ensures i in Do(db, c).db.jobs && Do(db, c).db.jobs[i] == db.jobs[i]
  {
    FirstIsTheFirst(Sweep(db.jobs, c.now), c.now);
    assert JobOk(db, i);
    assert Sweep(db.jobs, c.now)[i] == db.jobs[i];
  }

  // ----- superseded tokens -----------------------------------------------------------------

  /** A token that was issued and is not current for a job is never current for it again. */
  lemma {:induction false} SupersededForever(run: Run, n: nat, i: Id, t: Token)
    requires Legal(run) && n <= |run|
    requires t in Tokens(run[..n]) && !Holds(Exec(run[..n]), i, t)
    ensures !Holds(Exec(run), i, t)
    decreases |run|
  {
    if n == |run| {
      assert run[..n] == run;
    } else {
      assert Front(run)[..n] == run[..n];
      SupersededForever(Front(run), n, i, t);
      UsedGrow(Front(run), n);
      if i in Exec(run).jobs {
        TokenAfter(run, i);
      }
    }
  }

  /** A token held at the end of a run was held at every moment since it was issued. */
  lemma HeldSinceIssued(run: Run, n: nat, i: Id, t: Token)
    requires Legal(run) && n <= |run| && t in Tokens(run[..n])
    requires Holds(Exec(run), i, t)
    ensures Holds(Exec(run[..n]), i, t)
  {
    if !Holds(Exec(run[..n]), i, t) {
      SupersededForever(run, n, i, t);
    }
  }

  /** The calls a worker makes under its token, which are the calls fenced by it. */
  predicate IsFenced(op: Op) {
    op.OpHeartbeat? || op.OpSaveSnapshot? || op.OpProgress? || op.OpFinish? || op.OpFailOrRetry? || op.OpReleaseClaim?
  }

  /** A call under a token that is not current changes no job row at all. Two tables are not
      fenced: a digest event may move one blob row, and a failure appends one error row. */
  lemma SupersededWritesNoJob(db: Db, c: Call)
    requires IsFenced(c.op) && !Holds(db, c.op.id, c.op.token)
    ensures Do(db, c).db.jobs == db.jobs
    ensures !c.op.OpProgress? ==> Do(db, c).db.blobs == db.blobs
    ensures !c.op.OpFailOrRetry? ==> Do(db, c).db.errors == db.errors
    ensures forall k | k in db.blobs && k != c.op.id :: k in Do(db, c).db.blobs && Do(db, c).db.blobs[k] == db.blobs[k]
    ensures forall k | k in db.errors && k != c.op.id :: k in Do(db, c).db.errors && Do(db, c).db.errors[k] == db.errors[k]
    ensures Do(db, c).ret.True? ==> c.op.OpProgress? && c.op.event.digest == "" && c.op.event.phase.NoPhase?
  {
  }

  /** Over a whole run: a superseded token never writes a job row again. */
  lemma SupersededNeverWrites(run: Run, n: nat, k: nat)
    requires Legal(run) && n <= k < |run| && IsFenced(run[k].op)
    requires run[k].op.token in Tokens(run[..n]) && !Holds(Exec(run[..n]), run[k].op.id, run[k].op.token)
    ensures Exec(run[..k + 1]).jobs == Exec(run[..k]).jobs
  {
    LegalPrefix(run, k);
    StepAt(run, k);
    assert run[..k][..n] == run[..n];
    SupersededForever(run[..k], n, run[k].op.id, run[k].op.token);
    SupersededWritesNoJob(Exec(run[..k]), run[k]);
  }

  // ----- one end a token -------------------------------------------------------------------

  predicate IsEnding(op: Op) {
    op.OpFinish? || op.OpFailOrRetry? || op.OpReleaseClaim?
  }

  /** Call `n` of the run ended a claim held under `t`. */
  ghost predicate EndsToken(run: Run, n: nat, t: Token)
    requires n < |run|
  {
    IsEnding(run[n].op) && run[n].op.token == t && Answer(run, n).True?
  }

  lemma EndingNeedsToken(db: Db, c: Call)
    requires IsEnding(c.op) && Do(db, c).ret.True?
    ensures Holds(db, c.op.id, c.op.token)
    ensures c.op.id in Do(db, c).db.jobs && Do(db, c).db.jobs[c.op.id].token.None?
  {
  }

  /** Each token obtains a true answer from `finish`, `fail_or_retry` or `release_claim` at
      most once, whatever job ids it is presented with. */
  lemma EndsAtMostOnce(run: Run, a: nat, b: nat, t: Token)
    requires Legal(run) && a < b < |run|
    requires EndsToken(run, a, t)
    ensures !EndsToken(run, b, t)
  {
    StepAt(run, a);
    EndingNeedsToken(Exec(run[..a]), run[a]);
    LegalPrefix(run, a);
    LegalPrefix(run, a + 1);
    LegalPrefix(run, b);
    RunsKeepTokens(run[..a]);
    if EndsToken(run, b, t) {
      EndingNeedsToken(Exec(run[..b]), run[b]);
      var i := run[b].op.id;
      assert run[..b][..a] == run[..a] && run[..b][..a + 1] == run[..a + 1];
      UsedGrow(run[..a + 1], a);
      assert run[..a + 1][..a] == run[..a];
      HeldSinceIssued(run[..b], a, i, t);
      HeldSinceIssued(run[..b], a + 1, i, t);
    }
  }
}
