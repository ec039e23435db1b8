/** Runs: arbitrary interleavings of store calls by any number of workers, processes and users. */
module QueueRuns {
  import opened QueueTypes
  import opened RowSums
  import opened QueueSpec
  import opened QueueMoves

  type Run = seq<Call>

  function Front(run: Run): Run
    requires run != []
  {
    run[..|run| - 1]
  }

  function Last(run: Run): Call
    requires run != []
  {
    run[|run| - 1]
  }

  /** The tables after a run from an empty database. */
  ghost function Exec(run: Run): Db {
    if run == [] then EMPTY_DB else Do(Exec(Front(run)), Last(run)).db
  }

  /** What the last call of a run returned. */
  ghost function Result(run: Run): Ret
    requires run != []
  {
    Do(Exec(Front(run)), Last(run)).ret
  }

  /** What call `n` of a run returned. */
  ghost function Answer(run: Run, n: nat): Ret
    requires n < |run|
  {
    Do(Exec(run[..n]), run[n]).ret
  }

  ghost function Tokens(run: Run): set<Token> {
    if run == [] then {}
    else Tokens(Front(run)) + if Last(run).op.OpClaim? then {Last(run).op.newToken} else {}
  }

  ghost function Ids(run: Run): set<Id> {
    if run == [] then {}
    else Ids(Front(run)) + if Last(run).op.OpEnqueue? then {Last(run).op.newId} else {}
  }

  /** A call that may extend a run: time does not go back, and UUIDs are never drawn twice. */
  ghost predicate Enabled(run: Run, c: Call) {
    && Callable(Exec(run), c.op)
    && (run != [] ==> Last(run).now <= c.now)
    && (c.op.OpClaim? ==> c.op.newToken !in Tokens(run))
    && (c.op.OpEnqueue? ==> c.op.newId !in Ids(run))
  }

  ghost predicate Legal(run: Run) {
    run == [] || (Legal(Front(run)) && Enabled(Front(run), Last(run)))
  }

  // ----- prefixes --------------------------------------------------------------------------

  /** One call further. */
  lemma StepAt(run: Run, n: nat)
    requires n < |run|
    ensures Front(run[..n + 1]) == run[..n] && Last(run[..n + 1]) == run[n]
    ensures Exec(run[..n + 1]) == Do(Exec(run[..n]), run[n]).db
  {
  }

  lemma {:induction false} LegalPrefix(run: Run, n: nat)
    requires Legal(run) && n <= |run|
    ensures Legal(run[..n])
    decreases |run|
  {
    if n == |run| {
      assert run[..n] == run;
    } else {
      assert Front(run)[..n] == run[..n];
      LegalPrefix(Front(run), n);
    }
  }

  lemma {:induction false} UsedGrow(run: Run, n: nat)
    requires n <= |run|
    ensures Tokens(run[..n]) <= Tokens(run) && Ids(run[..n]) <= Ids(run)
    decreases |run|
  {
    if n == |run| {
      assert run[..n] == run;
    } else {
      assert Front(run)[..n] == run[..n];
      UsedGrow(Front(run), n);
    }
  }

  // ----- what every row satisfies ----------------------------------------------------------

  predicate LeaseColumnsAgree(j: Job) {
    && (j.token.Some? <==> j.worker.Some?)
    && (j.token.Some? <==> j.leaseExpiresAt.Some?)
    && (j.token.Some? <==> j.state.IsWorking() || j.state.CancelRequested?)
  }

  predicate PlanColumnsAgree(j: Job) {
    && (j.snapshot.None? ==> j.expectedBytes.None? && j.totalBlobs.None?)
    && (j.snapshot.Some? ==>
          && !j.state.Planning?
          && j.expectedBytes == j.snapshot.value.ExpectedBytes()
          && j.totalBlobs == Some(|j.snapshot.value.blobs|))
  }

  /** Columns that hold together in one job row. */
  predicate RowOk(j: Job) {
    && LeaseColumnsAgree(j)
    && PlanColumnsAgree(j)
    && (j.completedAt.Some? <==> j.state.IsTerminal())
    && (j.state.RetryWait? ==> j.nextRetryAt.Some?)
    && (j.startedAt.Some? <==> j.runCount > 0)
    && 0 <= j.integrityFailures <= j.consecutiveFailures
    && j.consecutiveFailures + (if j.token.Some? then 1 else 0) <= j.runCount
  }

  /** The blob rows are exactly the pinned plan's blobs, with their pinned sizes. */
  predicate RowsMatchPlan(j: Job, rows: Rows) {
    match j.snapshot
    case None => rows == map[]
    case Some(s) =>
      && Distinct(s.blobs)
      && rows.Keys == Digests(s.blobs)
      && forall k | 0 <= k < |s.blobs| ::
           && s.blobs[k].digest in rows
           && rows[s.blobs[k].digest].size == s.blobs[k].size
           && rows[s.blobs[k].digest].mediaType == s.blobs[k].mediaType
  }

  /** The invariant of one job with its dependent rows. */
  ghost predicate JobOk(db: Db, i: Id)
    requires i in db.jobs
  {
    && RowOk(db.jobs[i])
    && RowsMatchPlan(db.jobs[i], BlobRows(db, i))
    && db.jobs[i].consecutiveFailures <= |ErrorRows(db, i)|
  }

  /** The invariant of the tables. */
  ghost predicate DbOk(db: Db) {
    KeysAgree(db) && forall i | i in db.jobs :: JobOk(db, i)
  }

  predicate Distinct(ds: seq<Descriptor>) {
    forall a, b | 0 <= a < b < |ds| :: ds[a].digest != ds[b].digest
  }

  function Digests(ds: seq<Descriptor>): set<Digest> {
    if ds == [] then {} else Digests(ds[..|ds| - 1]) + {ds[|ds| - 1].digest}
  }

  lemma {:induction false} DigestAt(ds: seq<Descriptor>, k: nat)
    requires k < |ds|
    ensures ds[k].digest in Digests(ds)
    decreases |ds|
  {
    if k < |ds| - 1 {
      DigestAt(ds[..|ds| - 1], k);
    }
  }

  lemma {:induction false} DigestIndex(ds: seq<Descriptor>, d: Digest) returns (k: nat)
    requires d in Digests(ds)
    ensures k < |ds| && ds[k].digest == d
    decreases |ds|
  {
    if ds[|ds| - 1].digest == d {
      k := |ds| - 1;
    } else {
      k := DigestIndex(ds[..|ds| - 1], d);
    }
  }

  /** A successful insert leaves rows for exactly the plan's digests. */
  lemma {:induction false} InsertedKeys(ds: seq<Descriptor>, now: Time)
    requires InsertBlobs(map[], ds, now).Some?
    ensures InsertBlobs(map[], ds, now).value.Keys == Digests(ds)
    decreases |ds|
  {
    if ds != [] {
      InsertedKeys(ds[..|ds| - 1], now);
    }
  }

  /** Each inserted row is fresh and carries its descriptor's size. */
  lemma {:induction false} InsertedRow(ds: seq<Descriptor>, now: Time, k: nat)
    requires InsertBlobs(map[], ds, now).Some? && k < |ds|
    ensures ds[k].digest in InsertBlobs(map[], ds, now).value
    ensures InsertBlobs(map[], ds, now).value[ds[k].digest] == NewBlob(ds[k], now)
    decreases |ds|
  {
    var n := |ds| - 1;
    if k < n {
      InsertedRow(ds[..n], now, k);
    }
  }

  /** Inserting a plan's blobs into an empty table succeeds exactly for distinct digests. */
  lemma {:induction false} InsertSucceeds(ds: seq<Descriptor>, now: Time)
    ensures InsertBlobs(map[], ds, now).Some? <==> Distinct(ds)
    decreases |ds|
  {
    if ds != [] {
      var n := |ds| - 1;
      var front := ds[..n];
      InsertSucceeds(front, now);
      assert forall k | 0 <= k < n :: front[k] == ds[k];
      if InsertBlobs(map[], front, now).Some? {
        InsertedKeys(front, now);
        if ds[n].digest in Digests(front) {
          var k := DigestIndex(front, ds[n].digest);
          assert ds[k].digest == ds[n].digest;
        } else {
          forall k | 0 <= k < n ensures ds[k].digest != ds[n].digest {
            DigestAt(front, k);
          }
        }
      }
    }
  }

  lemma PlannedRows(ds: seq<Descriptor>, now: Time)
    requires InsertBlobs(map[], ds, now).Some?
    ensures var rows := InsertBlobs(map[], ds, now).value;
            && Distinct(ds)
            && rows.Keys == Digests(ds)
            && forall k | 0 <= k < |ds| :: ds[k].digest in rows && rows[ds[k].digest] == NewBlob(ds[k], now)
  {
    InsertSucceeds(ds, now);
    InsertedKeys(ds, now);
    forall k | 0 <= k < |ds|
      ensures ds[k].digest in InsertBlobs(map[], ds, now).value
      ensures InsertBlobs(map[], ds, now).value[ds[k].digest] == NewBlob(ds[k], now)
    {
      InsertedRow(ds, now, k);
    }
  }

  lemma MoveKeepsRow(j: Job, now: Time, m: Move)
    requires RowOk(j) && CanMove(j, now, m)
    ensures RowOk(Moved(j, now, m))
  {
  }

  /** Only the move that pins a plan touches the plan. */
  lemma MoveKeepsPlan(j: Job, now: Time, m: Move)
    requires RowOk(j) && CanMove(j, now, m)
    ensures Moved(j, now, m).snapshot == if m.Plan? then Some(m.snapshot) else j.snapshot
    ensures m.Plan? ==> j.snapshot.None?
  {
  }

  /** A newly enqueued job satisfies the invariant. */
  lemma NewJobOk(db: Db, c: Call, i: Id)
    requires KeysAgree(db) && i !in db.jobs && i in Do(db, c).db.jobs
    ensures JobOk(Do(db, c).db, i)
  {
    CallFollows(db, c, i);
    CallDependents(db, c, i);
  }

  lemma CallKeepsRow(db: Db, c: Call, i: Id)
    requires DbOk(db) && i in db.jobs && i in Do(db, c).db.jobs
    ensures RowOk(Do(db, c).db.jobs[i])
  {
    CallFollows(db, c, i);
    assert JobOk(db, i);
    MoveKeepsRow(db.jobs[i], c.now, MoveOf(db, c, i));
  }

  lemma MoveCountsFailures(j: Job, now: Time, m: Move)
    requires CanMove(j, now, m)
    ensures Moved(j, now, m).consecutiveFailures == j.consecutiveFailures + if m.Fail? then 1 else 0
  {
  }

  lemma CallKeepsErrors(db: Db, c: Call, i: Id)
    requires DbOk(db) && i in db.jobs && i in Do(db, c).db.jobs
    ensures Do(db, c).db.jobs[i].consecutiveFailures <= |ErrorRows(Do(db, c).db, i)|
  {
    CallFollows(db, c, i);
    CallDependents(db, c, i);
    assert JobOk(db, i);
    MoveCountsFailures(db.jobs[i], c.now, MoveOf(db, c, i));
    FailuresAreLogged(db, c, i);
  }

  lemma FailuresAreLogged(db: Db, c: Call, i: Id)
    requires i in db.jobs
    ensures |ErrorRowsAfter(db, c, i)| >= |ErrorRows(db, i)| + if MoveOf(db, c, i).Fail? then 1 else 0
  {
  }

  lemma CallKeepsBlobs(db: Db, c: Call, i: Id)
    requires DbOk(db) && i in db.jobs && i in Do(db, c).db.jobs
    ensures RowsMatchPlan(Do(db, c).db.jobs[i], BlobRows(Do(db, c).db, i))
  {
    CallFollows(db, c, i);
    CallDependents(db, c, i);
    assert JobOk(db, i);
    MoveKeepsPlan(db.jobs[i], c.now, MoveOf(db, c, i));
    if MoveOf(db, c, i).Plan? {
      PlannedRows(c.op.snapshot.blobs, c.now);
    } else {
      RowsKeepPlan(db, c, i);
    }
  }

  /** A progress event changes offsets and dispositions, never which blobs there are. */
  lemma RowsKeepPlan(db: Db, c: Call, i: Id)
    requires i in db.jobs && RowsMatchPlan(db.jobs[i], BlobRows(db, i)) && !MoveOf(db, c, i).Plan?
    ensures RowsMatchPlan(db.jobs[i], BlobRowsAfter(db, c, i))
  {
  }

  /** Every call keeps the invariant of the tables. */
  lemma CallKeepsDbOk(db: Db, c: Call)
    requires DbOk(db)
    ensures DbOk(Do(db, c).db)
  {
    CallDependents(db, c, 0);
    forall i | i in Do(db, c).db.jobs
      ensures JobOk(Do(db, c).db, i)
    {
      if i in db.jobs {
        CallKeepsRow(db, c, i);
        CallKeepsBlobs(db, c, i);
        CallKeepsErrors(db, c, i);
      } else {
        NewJobOk(db, c, i);
      }
    }
  }

  /** The invariant holds after every run. */
  lemma {:induction false} RunsKeepDbOk(run: Run)
    ensures DbOk(Exec(run))
    decreases |run|
  {
    if run != [] {
      RunsKeepDbOk(Front(run));
      CallKeepsDbOk(Exec(Front(run)), Last(run));
    }
  }
}
