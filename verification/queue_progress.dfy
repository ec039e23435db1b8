/** Progress over whole runs: the aggregate columns of a job row against the blob rows they
    summarise, across retries, takeovers and superseded workers. */
module QueueProgress {
  import opened QueueTypes
  import opened RowSums
  import opened QueueSpec
  import opened QueueMoves
  import opened QueueRuns
  import opened QueueFencing
  import opened QueueLifecycle

  // ----- one blob row ----------------------------------------------------------------------

  /** The exact case in which an event takes a blob's offset back: a finishing event for a blob
      whose recorded offset has overrun its size. */
  lemma OffsetGoesBack(b: Blob, now: Time, e: ProgressEvent)
    ensures AdvancedBlob(b, now, e).offset < b.offset
       <==> e.disposition.IsDone() && b.size.Some? && b.size.value < b.offset
  {
  }

  /** It does happen: a transfer event beyond the size, then the finishing event. */
  lemma OverrunExample(now: Time)
    ensures var start := NewBlob(Descriptor("sha256:b", "layer", Some(5)), now);
            var over := AdvancedBlob(start, now, ProgressEvent("sha256:b", NoPhase, 9, None, Transferring, None));
            var done := AdvancedBlob(over, now, ProgressEvent("sha256:b", NoPhase, 9, None, Finished, None));
            over.offset == 9 && done.offset == 5
  {
  }

  /** An event that can lead there: a digest event beyond the blob's known size. */
  predicate Overruns(b: Blob, e: ProgressEvent) {
    b.size.Some? && b.size.value < e.offset
  }

  predicate BlobOk(b: Blob) {
    && (b.size.Some? ==> b.offset <= b.size.value)
    && (b.size.Some? && b.completedAt.Some? ==> b.offset == b.size.value)
    && (b.disposition.IsDone() ==> b.completedAt.Some?)
  }

  lemma BlobAdvances(b: Blob, now: Time, e: ProgressEvent)
    requires BlobOk(b) && !Overruns(b, e)
    ensures var after := AdvancedBlob(b, now, e);
            && BlobOk(after)
            && b.offset <= after.offset && b.networkOffset <= after.networkOffset
            && (b.completedAt.Some? ==> after.completedAt == b.completedAt)
  {
  }

  // ----- runs without overruns -------------------------------------------------------------

  predicate IsDigestEvent(c: Call, i: Id) {
    c.op.OpProgress? && c.op.id == i && c.op.event.digest != ""
  }

  ghost predicate OverrunsIn(db: Db, c: Call) {
    && c.op.OpProgress? && c.op.event.digest != ""
    && c.op.event.digest in BlobRows(db, c.op.id)
    && Overruns(BlobRows(db, c.op.id)[c.op.event.digest], c.op.event)
  }

  /** No digest event of the run goes beyond the known size of its blob. */
  ghost predicate NoOverruns(run: Run) {
    run == [] || (NoOverruns(Front(run)) && !OverrunsIn(Exec(Front(run)), Last(run)))
  }

  lemma {:induction false} NoOverrunsPrefix(run: Run, n: nat)
    requires NoOverruns(run) && n <= |run|
    ensures NoOverruns(run[..n])
    decreases |run|
  {
    if n == |run| {
      assert run[..n] == run;
    } else {
      assert Front(run)[..n] == run[..n];
      NoOverrunsPrefix(Front(run), n);
    }
  }

  predicate RowsOk(rows: Rows) {
    forall d | d in rows :: BlobOk(rows[d])
  }

  /** Rowwise progress. */
  predicate Advanced(rows: Rows, rows': Rows) {
    && rows.Keys == rows'.Keys
    && forall d | d in rows ::
         && rows[d].offset <= rows'[d].offset
         && rows[d].networkOffset <= rows'[d].networkOffset
         && (rows[d].completedAt.Some? ==> rows'[d].completedAt == rows[d].completedAt)
  }

  lemma FreshRowsOk(ds: seq<Descriptor>, now: Time)
    requires InsertBlobs(map[], ds, now).Some?
    ensures RowsOk(InsertBlobs(map[], ds, now).value)
  {
    PlannedRows(ds, now);
    var rows := InsertBlobs(map[], ds, now).value;
    forall d | d in rows
      ensures BlobOk(rows[d])
    {
      var k := DigestIndex(ds, d);
    }
  }

  lemma EventKeepsRows(db: Db, c: Call, i: Id)
    requires IsDigestEvent(c, i) && !OverrunsIn(db, c) && RowsOk(BlobRows(db, i))
    ensures RowsOk(BlobRowsAfter(db, c, i)) && Advanced(BlobRows(db, i), BlobRowsAfter(db, c, i))
  {
    if c.op.event.digest in BlobRows(db, i) {
      BlobAdvances(BlobRows(db, i)[c.op.event.digest], c.now, c.op.event);
    }
  }

  lemma CallKeepsRowsOk(db: Db, c: Call, i: Id)
    requires DbOk(db) && i in db.jobs && RowsOk(BlobRows(db, i)) && !OverrunsIn(db, c)
    ensures RowsOk(BlobRowsAfter(db, c, i))
    ensures db.jobs[i].snapshot.Some? ==> Advanced(BlobRows(db, i), BlobRowsAfter(db, c, i))
  {
    assert JobOk(db, i);
    if IsDigestEvent(c, i) {
      EventKeepsRows(db, c, i);
    } else if c.op.OpSaveSnapshot? && c.op.id == i && SaveSnapshot(db, c.now, i, c.op.token, c.op.snapshot).ret.True? {
      FreshRowsOk(c.op.snapshot.blobs, c.now);
    }
  }

  // ----- the aggregates --------------------------------------------------------------------

  /** The cached sums and counts agree with the rows they summarise. */
  ghost predicate Synced(j: Job, rows: Rows) {
    && j.completedBytes == Sum(rows, Offset)
    && j.networkBytes == Sum(rows, Network)
    && j.completedBlobs == Sum(rows, DoneCount)
  }

  /** A digest event that answered false after moving a blob row: a superseded worker. */
  ghost predicate FencedOut(db: Db, c: Call, i: Id) {
    IsDigestEvent(c, i) && !Holds(db, i, c.op.token) && c.op.event.digest in BlobRows(db, i)
  }

  lemma MoveAndTotals(j: Job, now: Time, m: Move)
    requires CanMove(j, now, m)
    ensures var j' := Moved(j, now, m);
            if m.Count? then Synced(j', m.rows)
            else j'.completedBytes == j.completedBytes && j'.networkBytes == j.networkBytes
                 && j'.completedBlobs == j.completedBlobs
  {
  }

  lemma CountedRows(db: Db, c: Call, i: Id)
    requires i in db.jobs
    ensures MoveOf(db, c, i).Count? ==> MoveOf(db, c, i).rows == BlobRowsAfter(db, c, i)
    ensures MoveOf(db, c, i).Count? <==>
              IsDigestEvent(c, i) && Holds(db, i, c.op.token) && c.op.event.digest in BlobRows(db, i)
  {
  }

  /** Inserting a plan's rows adds nothing to any total. */
  lemma {:induction false} FreshSums(ds: seq<Descriptor>, now: Time, m: Metric)
    requires InsertBlobs(map[], ds, now).Some? && m != Size
    ensures Sum(InsertBlobs(map[], ds, now).value, m) == 0
    decreases |ds|
  {
    if ds != [] {
      var n := |ds| - 1;
      FreshSums(ds[..n], now, m);
      SumUpdate(InsertBlobs(map[], ds[..n], now).value, ds[n].digest, NewBlob(ds[n], now), m);
    }
  }

  lemma PlannedSums(db: Db, c: Call, i: Id)
    requires DbOk(db) && i in db.jobs && Synced(db.jobs[i], BlobRows(db, i))
    requires c.op.OpSaveSnapshot? && c.op.id == i && SaveSnapshot(db, c.now, i, c.op.token, c.op.snapshot).ret.True?
    ensures Synced(db.jobs[i], BlobRowsAfter(db, c, i))
  {
    assert JobOk(db, i);
    FreshSums(c.op.snapshot.blobs, c.now, Offset);
    FreshSums(c.op.snapshot.blobs, c.now, Network);
    FreshSums(c.op.snapshot.blobs, c.now, DoneCount);
  }

  /** Every true digest event leaves the aggregates equal to the rows, and every other call
      except a fenced-out digest event keeps them equal. */
  lemma CallSyncs(db: Db, c: Call, i: Id)
    requires DbOk(db) && i in db.jobs && i in Do(db, c).db.jobs
    ensures IsDigestEvent(c, i) && Do(db, c).ret.True? ==> Synced(Do(db, c).db.jobs[i], BlobRows(Do(db, c).db, i))
    ensures Synced(db.jobs[i], BlobRows(db, i)) && !FencedOut(db, c, i)
        ==> Synced(Do(db, c).db.jobs[i], BlobRows(Do(db, c).db, i))
  {
    assert JobOk(db, i);
    CallFollows(db, c, i);
    CallDependents(db, c, i);
    CountedRows(db, c, i);
    MoveAndTotals(db.jobs[i], c.now, MoveOf(db, c, i));
    if Synced(db.jobs[i], BlobRows(db, i)) && c.op.OpSaveSnapshot? && c.op.id == i
       && SaveSnapshot(db, c.now, i, c.op.token, c.op.snapshot).ret.True? {
      PlannedSums(db, c, i);
    }
    if IsDigestEvent(c, i) {
      TrueDigestEvent(db, c, i);
    }
  }

  lemma TrueDigestEvent(db: Db, c: Call, i: Id)
    requires i in db.jobs && IsDigestEvent(c, i)
    ensures Do(db, c).ret.True? <==> Holds(db, i, c.op.token) && c.op.event.digest in BlobRows(db, i)
  {
  }

  /** An event that says nothing new about a blob's totals: no offset above the row's (for a
      finishing event of a blob of known size, a row that is there already), no network count
      above the row's, and no change between done and not done. */
  predicate SaysNothingNew(b: Blob, e: ProgressEvent) {
    && (if e.disposition.IsDone() && b.size.Some? then b.offset == b.size.value else e.offset <= b.offset)
    && (if e.network.Some? then e.network.value <= b.networkOffset
        else e.disposition.Transferring? ==> e.offset <= b.networkOffset)
    && (e.disposition.IsDone() <==> b.disposition.IsDone())
  }

  /** A fenced-out digest event leaves the aggregates equal exactly when it says nothing new. */
  lemma FencedOutSyncs(db: Db, c: Call, i: Id)
    requires DbOk(db) && i in db.jobs && i in Do(db, c).db.jobs
    requires Synced(db.jobs[i], BlobRows(db, i)) && FencedOut(db, c, i)
    ensures Synced(Do(db, c).db.jobs[i], BlobRows(Do(db, c).db, i))
       <==> SaysNothingNew(BlobRows(db, i)[c.op.event.digest], c.op.event)
  {
    CallFollows(db, c, i);
    CallDependents(db, c, i);
    CountedRows(db, c, i);
    MoveAndTotals(db.jobs[i], c.now, MoveOf(db, c, i));
    var rows, d := BlobRows(db, i), c.op.event.digest;
    var after := AdvancedBlob(rows[d], c.now, c.op.event);
    SumUpdate(rows, d, after, Offset);
    SumUpdate(rows, d, after, Network);
    SumUpdate(rows, d, after, DoneCount);
  }

  /** Over a run: aggregates that agree at one moment agree at every later one, as long as no
      superseded worker's digest event has come in between. */
  lemma {:induction false} StaysSynced(run: Run, n: nat, i: Id)
    requires Legal(run) && n <= |run|
    requires i in Exec(run[..n]).jobs && i in Exec(run).jobs
    requires Synced(Exec(run[..n]).jobs[i], BlobRows(Exec(run[..n]), i))
    requires forall k | n <= k < |run| :: !FencedOut(Exec(run[..k]), run[k], i)
    ensures Synced(Exec(run).jobs[i], BlobRows(Exec(run), i))
    decreases |run|
  {
    if n == |run| {
      assert run[..n] == run;
    } else {
      PresentBefore(run, n, i);
      var front := Front(run);
      forall k | n <= k < |front|
        ensures !FencedOut(Exec(front[..k]), front[k], i)
      {
        assert front[..k] == run[..k];
      }
      StaysSynced(front, n, i);
      assert run[..|front|] == front;
      CallSyncs(Exec(front), Last(run), i);
    }
  }

  // ----- progress never goes back ----------------------------------------------------------

  /** In a run without overruns: every blob row is within its size, and the cached byte
      counts never exceed the sums they cache. */
  ghost predicate ProgressOk(db: Db, i: Id)
    requires i in db.jobs
  {
    && RowsOk(BlobRows(db, i))
    && 0 <= db.jobs[i].completedBytes <= Sum(BlobRows(db, i), Offset)
    && 0 <= db.jobs[i].networkBytes <= Sum(BlobRows(db, i), Network)
  }

  lemma AdvancedSums(rows: Rows, rows': Rows)
    requires Advanced(rows, rows')
    ensures Sum(rows, Offset) <= Sum(rows', Offset) && Sum(rows, Network) <= Sum(rows', Network)
  {
    SumMonotone(rows, Offset, rows', Offset);
    SumMonotone(rows, Network, rows', Network);
  }

  lemma SumOfNone()
    ensures Sum(map[], Offset) == 0 && Sum(map[], Network) == 0
  {
  }

  lemma {:induction false} SumNonnegative(rows: Rows)
    ensures 0 <= Sum(rows, Offset) && 0 <= Sum(rows, Network)
    decreases |rows|
  {
    if rows != map[] {
      var d :| d in rows;
      SumTake(rows, d, Offset);
      SumTake(rows, d, Network);
      SumNonnegative(rows - {d});
    }
  }

  /** One call: the rows advance, and the cached byte count does not go back. */
  lemma CallAdvances(db: Db, c: Call, i: Id)
    requires DbOk(db) && i in db.jobs && i in Do(db, c).db.jobs
    requires ProgressOk(db, i) && !OverrunsIn(db, c)
    ensures ProgressOk(Do(db, c).db, i)
    ensures db.jobs[i].completedBytes <= Do(db, c).db.jobs[i].completedBytes
    ensures db.jobs[i].networkBytes <= Do(db, c).db.jobs[i].networkBytes
    ensures db.jobs[i].snapshot.Some? ==> Advanced(BlobRows(db, i), BlobRows(Do(db, c).db, i))
  {
    assert JobOk(db, i);
    CallFollows(db, c, i);
    CallDependents(db, c, i);
    CountedRows(db, c, i);
    MoveAndTotals(db.jobs[i], c.now, MoveOf(db, c, i));
    CallKeepsRowsOk(db, c, i);
    SumNonnegative(BlobRowsAfter(db, c, i));
    if db.jobs[i].snapshot.Some? {
      AdvancedSums(BlobRows(db, i), BlobRowsAfter(db, c, i));
    } else {
      SumOfNone();
    }
  }

  lemma NewJobProgress(run: Run, i: Id)
    requires run != [] && i in Exec(run).jobs && i !in Exec(Front(run)).jobs
    ensures ProgressOk(Exec(run), i)
  {
    RunsKeepDbOk(Front(run));
    CallFollows(Exec(Front(run)), Last(run), i);
    CallDependents(Exec(Front(run)), Last(run), i);
    SumOfNone();
  }

  lemma {:induction false} RunsKeepProgress(run: Run, i: Id)
    requires NoOverruns(run) && i in Exec(run).jobs
    ensures ProgressOk(Exec(run), i)
    decreases |run|
  {
    if i in Exec(Front(run)).jobs {
      RunsKeepDbOk(Front(run));
      RunsKeepProgress(Front(run), i);
      CallAdvances(Exec(Front(run)), Last(run), i);
    } else {
      NewJobProgress(run, i);
    }
  }

  /** High-water progress: across retries, takeovers and superseded workers no blob offset and
      neither byte count of a job ever goes back, and a completion time, once set, stays. */
  lemma {:induction false} ProgressNeverGoesBack(run: Run, n: nat, i: Id)
    requires Legal(run) && NoOverruns(run) && n <= |run|
    requires i in Exec(run[..n]).jobs && i in Exec(run).jobs
    ensures Exec(run[..n]).jobs[i].completedBytes <= Exec(run).jobs[i].completedBytes
    ensures Exec(run[..n]).jobs[i].networkBytes <= Exec(run).jobs[i].networkBytes
    ensures Exec(run[..n]).jobs[i].snapshot.Some? ==>
              Advanced(BlobRows(Exec(run[..n]), i), BlobRows(Exec(run), i))
    decreases |run|
  {
    if n == |run| {
      assert run[..n] == run;
    } else {
      PresentBefore(run, n, i);
      ProgressNeverGoesBack(Front(run), n, i);
      RunsKeepProgress(Front(run), i);
      CallAdvances(Exec(Front(run)), Last(run), i);
      if Exec(run[..n]).jobs[i].snapshot.Some? {
        PlanIsPinned(Front(run), n, i);
      }
    }
  }

  // ----- the denominator -------------------------------------------------------------------

  /** The byte total of a plan is the sum of its rows' sizes. */
  lemma {:induction false} KnownBytesAreRowSizes(ds: seq<Descriptor>, rows: Rows)
    requires Distinct(ds) && rows.Keys == Digests(ds)
    requires forall k | 0 <= k < |ds| :: ds[k].digest in rows && rows[ds[k].digest].size == ds[k].size
    ensures KnownBytes(ds) == Sum(rows, Size)
    decreases |ds|
  {
    if ds != [] {
      var n := |ds| - 1;
      var front, d := ds[..n], ds[n].digest;
      SumTake(rows, d, Size);
      assert forall k | 0 <= k < n :: front[k] == ds[k];
      forall x | x in Digests(front)
        ensures x != d
      {
        var k := DigestIndex(front, x);
      }
      assert (rows - {d}).Keys == Digests(front);
      KnownBytesAreRowSizes(front, rows - {d});
    }
  }

  /** The total of a plan is known exactly if every size is. */
  lemma ExpectedKnownIff(s: ImageSnapshot)
    ensures s.ExpectedBytes().Some? <==> forall k | 0 <= k < |s.blobs| :: s.blobs[k].size.Some?
  {
  }

  lemma ExpectedIsRowSizes(db: Db, i: Id)
    requires i in db.jobs && JobOk(db, i) && db.jobs[i].expectedBytes.Some?
    ensures db.jobs[i].snapshot.Some?
    ensures db.jobs[i].expectedBytes.value == Sum(BlobRows(db, i), Size)
    ensures forall d | d in BlobRows(db, i) :: BlobRows(db, i)[d].size.Some?
  {
    var rows, ds := BlobRows(db, i), db.jobs[i].snapshot.value.blobs;
    KnownBytesAreRowSizes(ds, rows);
    forall d | d in rows
      ensures rows[d].size.Some?
    {
      var k := DigestIndex(ds, d);
    }
  }

  /** With a known total, cached bytes, offsets and total are in this order; and once every blob
      has its completion time, the offsets add up to the whole. */
  lemma BytesWithinExpected(run: Run, i: Id)
    requires NoOverruns(run) && i in Exec(run).jobs && Exec(run).jobs[i].expectedBytes.Some?
    ensures var j, rows := Exec(run).jobs[i], BlobRows(Exec(run), i);
            && 0 <= j.completedBytes <= Sum(rows, Offset) <= j.expectedBytes.value
            && ((forall d | d in rows :: rows[d].completedAt.Some?) ==> Sum(rows, Offset) == j.expectedBytes.value)
  {
    RunsKeepDbOk(run);
    assert JobOk(Exec(run), i);
    RunsKeepProgress(run, i);
    ExpectedIsRowSizes(Exec(run), i);
    var rows := BlobRows(Exec(run), i);
    SumMonotone(rows, Offset, rows, Size);
    if forall d | d in rows :: rows[d].completedAt.Some? {
      SumMonotone(rows, Size, rows, Offset);
    }
  }

  // ----- the percentage --------------------------------------------------------------------

  function Percent(j: Job): Option<real> {
    if j.expectedBytes.None? then None
    else if j.expectedBytes.value == 0 then Some(if j.state.Completed? then 100.0 else 0.0)
    else
      var p := 100.0 * j.completedBytes as real / j.expectedBytes.value as real;
      Some(if p < 100.0 then p else 100.0)
  }

  /** The percentage is unknown exactly while the total is, the exact share as long as it does not
      exceed the whole, and the whole from then on; an empty plan is at 0 until it is completed. */
  lemma PercentIs(j: Job)
    requires j.expectedBytes.Some? ==> 0 <= j.expectedBytes.value
    ensures Percent(j).None? <==> j.expectedBytes.None?
    ensures j.expectedBytes.Some? && 0 < j.expectedBytes.value && j.completedBytes <= j.expectedBytes.value ==>
              Percent(j).value * j.expectedBytes.value as real == 100.0 * j.completedBytes as real
    ensures j.expectedBytes.Some? && 0 < j.expectedBytes.value && j.expectedBytes.value <= j.completedBytes ==>
              Percent(j).value == 100.0
    ensures j.expectedBytes == Some(0) ==> Percent(j).value == if j.state.Completed? then 100.0 else 0.0
  {
    if j.expectedBytes.Some? && 0 < j.expectedBytes.value {
      ShareIs(j.completedBytes as real, j.expectedBytes.value as real);
    }
  }

  lemma ShareIs(a: real, e: real)
    requires 0.0 < e
    ensures (100.0 * a / e) * e == 100.0 * a
    ensures a <= e ==> 100.0 * a / e <= 100.0
    ensures e <= a ==> 100.0 <= 100.0 * a / e
  {
  }

  lemma PercentGrows(j: Job, j': Job)
    requires j.expectedBytes == j'.expectedBytes && j.expectedBytes.Some? && 0 <= j.expectedBytes.value
    requires 0 <= j.completedBytes <= j'.completedBytes
    requires j.state.Completed? ==> j'.state.Completed?
    ensures 0.0 <= Percent(j).value <= Percent(j').value <= 100.0
  {
    if j.expectedBytes.value != 0 {
      var e, a, b := j.expectedBytes.value as real, 100.0 * j.completedBytes as real, 100.0 * j'.completedBytes as real;
      assert 0.0 <= a <= b && 0.0 < e;
      assert 0.0 <= a / e <= b / e;
    }
  }

  lemma CompletedStays(run: Run, n: nat, i: Id)
    requires Legal(run) && n <= |run|
    requires i in Exec(run[..n]).jobs && i in Exec(run).jobs
    ensures Exec(run[..n]).jobs[i].state.Completed? ==> Exec(run).jobs[i].state.Completed?
  {
    if Exec(run[..n]).jobs[i].state.Completed? {
      Absorbing(run, n, i);
    }
  }

  lemma BytesAtFirst(run: Run, n: nat, i: Id)
    requires Legal(run) && NoOverruns(run) && n <= |run|
    requires i in Exec(run[..n]).jobs && Exec(run[..n]).jobs[i].expectedBytes.Some?
    ensures var j := Exec(run[..n]).jobs[i];
            0 <= j.completedBytes <= j.expectedBytes.value && j.snapshot.Some?
  {
    NoOverrunsPrefix(run, n);
    BytesWithinExpected(run[..n], i);
    RunsKeepDbOk(run[..n]);
    assert JobOk(Exec(run[..n]), i);
  }

  /** From planning on the percentage lies in 0..100 and never goes back. */
  lemma PercentNeverGoesBack(run: Run, n: nat, i: Id)
    requires Legal(run) && NoOverruns(run) && n <= |run|
    requires i in Exec(run[..n]).jobs && i in Exec(run).jobs && Exec(run[..n]).jobs[i].expectedBytes.Some?
    ensures var p, q := Percent(Exec(run[..n]).jobs[i]), Percent(Exec(run).jobs[i]);
            q.Some? && 0.0 <= p.value <= q.value <= 100.0
  {
    BytesAtFirst(run, n, i);
    PlanIsPinned(run, n, i);
    ProgressNeverGoesBack(run, n, i);
    CompletedStays(run, n, i);
    PercentGrows(Exec(run[..n]).jobs[i], Exec(run).jobs[i]);
  }
}
