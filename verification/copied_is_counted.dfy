/** From the callbacks of the image copy to the counts of the job. */
module CopiedIsCounted {
  import opened QueueTypes
  import opened QueueSpec
  import opened QueueRuns
  import opened RowSums
  import Transfer
  import CopyReports

  /** The last of the callbacks about `d`, or -1. */
  function LastCallback(callbacks: seq<Transfer.Callback>, d: Digest): int {
    if callbacks == [] then -1
    else if callbacks[|callbacks| - 1].digest == d then |callbacks| - 1
    else LastCallback(callbacks[..|callbacks| - 1], d)
  }

  /** The last callback about every blob has skipped or finished it. */
  predicate EachCopied(rows: Rows, callbacks: seq<Transfer.Callback>) {
    forall d | d in rows ::
      && 0 <= LastCallback(callbacks, d) < |callbacks|
      && callbacks[LastCallback(callbacks, d)].state in {Transfer.Skipped, Transfer.Finished}
  }

  lemma {:induction false} SameLast(callbacks: seq<Transfer.Callback>, events: seq<CopyReports.Event>, d: Digest)
    requires |events| == |callbacks|
    requires forall k | 0 <= k < |events| :: events[k].BlobEvent? && events[k].digest == callbacks[k].digest
    ensures CopyReports.LastAbout(events, d) == LastCallback(callbacks, d)
    decreases |events|
  {
    if events != [] && events[|events| - 1].digest != d {
      SameLast(callbacks[..|callbacks| - 1], events[..|events| - 1], d);
    }
  }

  lemma CallbacksComeFirst(q: Transfer.CopyRequest, r: Transfer.Responses)
    requires Transfer.CopyAnswer(q, r).Streamed?
    ensures |r.callbacks| + 1 <= |Transfer.CopyAnswer(q, r).events|
    ensures forall k | 1 <= k <= |r.callbacks| :: Transfer.CopyAnswer(q, r).events[k].BlobEvent?
  {
    Transfer.RestIsStreamed(q, r);
    forall k | 1 <= k <= |r.callbacks|
      ensures Transfer.CopyAnswer(q, r).events[k].BlobEvent?
    {
      Transfer.CallbacksAreStreamed(q, r, k - 1);
    }
  }

  /** The events that the callbacks of an operation become. */
  function BlobEvents(q: Transfer.CopyRequest, r: Transfer.Responses): (events: seq<CopyReports.Event>)
    requires Transfer.CopyAnswer(q, r).Streamed?
    ensures |events| == |r.callbacks| && forall k | 0 <= k < |events| :: events[k].BlobEvent?
  {
    CallbacksComeFirst(q, r);
    Transfer.CopyAnswer(q, r).events[1..|r.callbacks| + 1]
  }

  lemma BlobEventsSay(q: Transfer.CopyRequest, r: Transfer.Responses, k: nat)
    requires Transfer.CopyAnswer(q, r).Streamed? && k < |r.callbacks|
    ensures BlobEvents(q, r)[k].digest == r.callbacks[k].digest
    ensures r.callbacks[k].state in {Transfer.Skipped, Transfer.Finished} <==> CopyReports.SaysDone(BlobEvents(q, r)[k])
  {
    Transfer.CallbacksAreStreamed(q, r, k);
  }

  /** If the copy has skipped or finished every blob of the plan, and the worker holding the job has
      reported all it streamed of them, then the job counts all its blobs, and all its bytes if
      their number is known. */
  lemma CopiedBlobsAreCounted(q: Transfer.CopyRequest, r: Transfer.Responses, db: Db, i: Id, t: Token, times: seq<Time>)
    requires Transfer.CopyAnswer(q, r).Streamed? && r.callbacks != [] && |times| == |r.callbacks|
    requires DbOk(db) && Holds(db, i, t) && db.jobs[i].snapshot.Some?
    requires forall k | 0 <= k < |r.callbacks| :: r.callbacks[k].digest != "" && r.callbacks[k].digest in BlobRows(db, i)
    requires EachCopied(BlobRows(db, i), r.callbacks)
    ensures var after := CopyReports.Reported(db, i, t, BlobEvents(q, r), times);
            && i in after.jobs
            && after.jobs[i].totalBlobs == Some(after.jobs[i].completedBlobs)
            && (after.jobs[i].expectedBytes.Some? ==> after.jobs[i].completedBytes == after.jobs[i].expectedBytes.value)
  {
    var events, rows := BlobEvents(q, r), BlobRows(db, i);
    forall k | 0 <= k < |events|
      ensures events[k].digest == r.callbacks[k].digest
    {
      BlobEventsSay(q, r, k);
    }
    forall d | d in rows
      ensures 0 <= CopyReports.LastAbout(events, d) < |events| && CopyReports.SaysDone(events[CopyReports.LastAbout(events, d)])
    {
      SameLast(r.callbacks, events, d);
      BlobEventsSay(q, r, LastCallback(r.callbacks, d));
    }
    CopyReports.AllDoneIsAllCounted(db, i, t, events, times);
  }
}
