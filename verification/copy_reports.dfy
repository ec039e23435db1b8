/** What the streamed callbacks of a copy leave in the queue. */
module CopyReports {
  import opened QueueTypes
  import opened RowSums
  import opened QueueSpec
  import opened QueueMoves
  import opened QueueRuns
  import opened QueueProgress
  import opened QueueLaws
  import EventStream

  type Event = EventStream.Event

  /** What the worker passes to `progress` for a blob event. */
  function StoreEvent(e: Event): ProgressEvent
    requires e.BlobEvent?
  {
    ProgressEvent(e.digest, NoPhase, e.offset, e.network, e.disposition, e.rate)
  }

  /** Blob events for blobs of the job, and a time for each. */
  predicate AreReports(rows: Rows, events: seq<Event>, times: seq<Time>) {
    && |times| == |events|
    && forall n | 0 <= n < |events| :: events[n].BlobEvent? && events[n].digest != "" && events[n].digest in rows
  }

  /** The tables after the holder of `t` has reported the events in order. */
  ghost function Reported(db: Db, i: Id, t: Token, events: seq<Event>, times: seq<Time>): Db
    requires |times| == |events| && forall n | 0 <= n < |events| :: events[n].BlobEvent?
    decreases |events|
  {
    if events == [] then db
    else
      var n := |events| - 1;
      Do(Reported(db, i, t, events[..n], times[..n]), Call(times[n], OpProgress(i, t, StoreEvent(events[n])))).db
  }

  /** The last of the events about `d`, or -1. */
  function LastAbout(events: seq<Event>, d: Digest): int
    requires forall n | 0 <= n < |events| :: events[n].BlobEvent?
    decreases |events|
  {
    if events == [] then -1
    else if events[|events| - 1].digest == d then |events| - 1
    else LastAbout(events[..|events| - 1], d)
  }

  predicate SaysDone(e: Event) {
    e.BlobEvent? && e.disposition in {Finished, Reused, Mounted}
  }

  /** A row that is done, and full if its size is known. */
  predicate IsFull(b: Blob) {
    b.disposition in {Finished, Reused, Mounted} && (b.size.Some? ==> b.offset == b.size.value)
  }

  /** The last event about every blob has said that it is done. */
  predicate EachDone(rows: Rows, events: seq<Event>)
    requires forall n | 0 <= n < |events| :: events[n].BlobEvent?
  {
    forall d | d in rows :: 0 <= LastAbout(events, d) < |events| && SaysDone(events[LastAbout(events, d)])
  }

  // ----- one report ------------------------------------------------------------------------

  /** What stays as it was while a holder reports. */
  ghost predicate SameJob(db: Db, after: Db, i: Id, t: Token)
    requires Holds(db, i, t)
  {
    && DbOk(after) && Holds(after, i, t)
    && after.jobs[i].snapshot == db.jobs[i].snapshot && after.jobs[i].totalBlobs == db.jobs[i].totalBlobs
    && after.jobs[i].expectedBytes == db.jobs[i].expectedBytes
    && BlobRows(after, i).Keys == BlobRows(db, i).Keys
    && forall d | d in BlobRows(db, i) :: BlobRows(after, i)[d].size == BlobRows(db, i)[d].size
  }

  /** The report of a holder about one of its blobs. */
  ghost predicate IsReport(db: Db, c: Call, i: Id, t: Token) {
    && c.op.OpProgress? && c.op.id == i && c.op.token == t && Holds(db, i, t)
    && c.op.event.digest != "" && c.op.event.digest in BlobRows(db, i)
  }

  lemma ReportOfJob(db: Db, c: Call, i: Id, t: Token)
    requires IsReport(db, c, i, t)
    ensures Do(db, c).ret.True? && Holds(Do(db, c).db, i, t)
    ensures var j, k := db.jobs[i], Do(db, c).db.jobs[i];
            k.snapshot == j.snapshot && k.totalBlobs == j.totalBlobs && k.expectedBytes == j.expectedBytes
  {
  }

  lemma ReportOfBlob(db: Db, c: Call, i: Id, t: Token)
    requires IsReport(db, c, i, t)
    ensures BlobRows(Do(db, c).db, i).Keys == BlobRows(db, i).Keys
    ensures forall d | d in BlobRows(db, i) && d != c.op.event.digest :: BlobRows(Do(db, c).db, i)[d] == BlobRows(db, i)[d]
  {
  }

  lemma ReportFills(db: Db, c: Call, i: Id, t: Token)
    requires IsReport(db, c, i, t)
    ensures var d, rows := c.op.event.digest, BlobRows(Do(db, c).db, i);
            && d in rows && rows[d].size == BlobRows(db, i)[d].size
            && (c.op.event.disposition in {Finished, Reused, Mounted} ==> IsFull(rows[d]))
  {
    EventLeaves(db, c);
  }

  lemma OneReport(db: Db, c: Call, i: Id, t: Token)
    requires DbOk(db) && IsReport(db, c, i, t)
    ensures SameJob(db, Do(db, c).db, i, t)
    ensures Synced(Do(db, c).db.jobs[i], BlobRows(Do(db, c).db, i))
  {
    ReportOfJob(db, c, i, t);
    ReportOfBlob(db, c, i, t);
    ReportFills(db, c, i, t);
    CallKeepsDbOk(db, c);
    CallSyncs(db, c, i);
  }

  // ----- all of them -----------------------------------------------------------------------

  lemma {:induction false} ReportsKeepJob(db: Db, i: Id, t: Token, events: seq<Event>, times: seq<Time>)
    requires DbOk(db) && Holds(db, i, t) && AreReports(BlobRows(db, i), events, times)
    ensures SameJob(db, Reported(db, i, t, events, times), i, t)
    ensures events != [] ==>
              Synced(Reported(db, i, t, events, times).jobs[i], BlobRows(Reported(db, i, t, events, times), i))
    decreases |events|
  {
    if events != [] {
      var n := |events| - 1;
      var before := Reported(db, i, t, events[..n], times[..n]);
      ReportsKeepJob(db, i, t, events[..n], times[..n]);
      OneReport(before, Call(times[n], OpProgress(i, t, StoreEvent(events[n]))), i, t);
    }
  }

  /** Whether the blob has a full row. */
  ghost predicate FullRow(db: Db, i: Id, d: Digest) {
    d in BlobRows(db, i) && IsFull(BlobRows(db, i)[d])
  }

  lemma DoneReportFills(db: Db, c: Call, i: Id, t: Token)
    requires IsReport(db, c, i, t) && c.op.event.disposition in {Finished, Reused, Mounted}
    ensures FullRow(Do(db, c).db, i, c.op.event.digest)
  {
    ReportFills(db, c, i, t);
  }

  lemma OtherReportKeepsFull(db: Db, c: Call, i: Id, t: Token, d: Digest)
    requires IsReport(db, c, i, t) && d != c.op.event.digest && FullRow(db, i, d)
    ensures FullRow(Do(db, c).db, i, d)
  {
    ReportOfBlob(db, c, i, t);
  }

  /** A blob whose last event says that it is done has a full row. */
  lemma {:induction false} LastEventFills(db: Db, i: Id, t: Token, events: seq<Event>, times: seq<Time>, d: Digest)
    requires DbOk(db) && Holds(db, i, t) && AreReports(BlobRows(db, i), events, times) && d in BlobRows(db, i)
    requires 0 <= LastAbout(events, d) < |events| && SaysDone(events[LastAbout(events, d)])
    ensures FullRow(Reported(db, i, t, events, times), i, d)
    decreases |events|
  {
    var n := |events| - 1;
    var before := Reported(db, i, t, events[..n], times[..n]);
    var c := Call(times[n], OpProgress(i, t, StoreEvent(events[n])));
    ReportsKeepJob(db, i, t, events[..n], times[..n]);
    if events[n].digest == d {
      DoneReportFills(before, c, i, t);
    } else {
      LastIsBefore(events[..n], d);
      LastEventFills(db, i, t, events[..n], times[..n], d);
      OtherReportKeepsFull(before, c, i, t, d);
    }
  }

  lemma {:induction false} LastIsBefore(events: seq<Event>, d: Digest)
    requires forall n | 0 <= n < |events| :: events[n].BlobEvent?
    ensures -1 <= LastAbout(events, d) < |events|
    decreases |events|
  {
    if events != [] && events[|events| - 1].digest != d {
      LastIsBefore(events[..|events| - 1], d);
    }
  }

  // ----- the totals ------------------------------------------------------------------------

  lemma {:induction false} FullSums(rows: Rows)
    requires forall d | d in rows :: IsFull(rows[d])
    ensures Sum(rows, DoneCount) == |rows|
    ensures (forall d | d in rows :: rows[d].size.Some?) ==> Sum(rows, Offset) == Sum(rows, Size)
    decreases |rows|
  {
    if rows != map[] {
      var d :| d in rows;
      SumTake(rows, d, DoneCount);
      SumTake(rows, d, Offset);
      SumTake(rows, d, Size);
      FullSums(rows - {d});
      assert |rows| == |rows - {d}| + 1;
    }
  }

  lemma {:induction false} DigestsAreMany(ds: seq<Descriptor>)
    requires Distinct(ds)
    ensures |Digests(ds)| == |ds|
    decreases |ds|
  {
    if ds != [] {
      var n := |ds| - 1;
      DigestsAreMany(ds[..n]);
      if ds[n].digest in Digests(ds[..n]) {
        var k := DigestIndex(ds[..n], ds[n].digest);
      }
    }
  }

  lemma RowsAreAll(db: Db, i: Id)
    requires i in db.jobs && JobOk(db, i) && db.jobs[i].snapshot.Some?
    ensures db.jobs[i].totalBlobs == Some(|BlobRows(db, i)|)
  {
    DigestsAreMany(db.jobs[i].snapshot.value.blobs);
    assert |BlobRows(db, i)| == |BlobRows(db, i).Keys|;
  }

  /** Once a holder has reported every blob of the plan as done, the job counts all blobs as
      completed, and, if all sizes are known, all bytes. */
  lemma AllDoneIsAllCounted(db: Db, i: Id, t: Token, events: seq<Event>, times: seq<Time>)
    requires DbOk(db) && Holds(db, i, t) && db.jobs[i].snapshot.Some? && events != []
    requires AreReports(BlobRows(db, i), events, times) && EachDone(BlobRows(db, i), events)
    ensures var after := Reported(db, i, t, events, times);
            && i in after.jobs
            && after.jobs[i].totalBlobs == Some(after.jobs[i].completedBlobs)
            && (after.jobs[i].expectedBytes.Some? ==> after.jobs[i].completedBytes == after.jobs[i].expectedBytes.value)
  {
    ReportsKeepJob(db, i, t, events, times);
    EachRowIsFull(db, i, t, events, times);
    FullMeansCounted(Reported(db, i, t, events, times), i);
  }

  lemma EachRowIsFull(db: Db, i: Id, t: Token, events: seq<Event>, times: seq<Time>)
    requires DbOk(db) && Holds(db, i, t)
    requires AreReports(BlobRows(db, i), events, times) && EachDone(BlobRows(db, i), events)
    ensures forall d | d in BlobRows(Reported(db, i, t, events, times), i) ::
              IsFull(BlobRows(Reported(db, i, t, events, times), i)[d])
  {
    ReportsKeepJob(db, i, t, events, times);
    forall d | d in BlobRows(Reported(db, i, t, events, times), i)
      ensures IsFull(BlobRows(Reported(db, i, t, events, times), i)[d])
    {
      LastEventFills(db, i, t, events, times, d);
    }
  }

  lemma FullMeansCounted(db: Db, i: Id)
    requires DbOk(db) && i in db.jobs && db.jobs[i].snapshot.Some? && Synced(db.jobs[i], BlobRows(db, i))
    requires forall d | d in BlobRows(db, i) :: IsFull(BlobRows(db, i)[d])
    ensures db.jobs[i].totalBlobs == Some(db.jobs[i].completedBlobs)
    ensures db.jobs[i].expectedBytes.Some? ==> db.jobs[i].completedBytes == db.jobs[i].expectedBytes.value
  {
    FullSums(BlobRows(db, i));
    assert JobOk(db, i);
    RowsAreAll(db, i);
    if db.jobs[i].expectedBytes.Some? {
      ExpectedIsRowSizes(db, i);
    }
  }
}
