/** The store itself: an object whose methods change the tables in place. Every method is
    proved to take the tables exactly where its counterpart in QueueSpec says. */
module QueueStore {
  import opened QueueTypes
  import opened RowSums
  import opened QueueSpec

  class SQLiteQueueStore {
    var jobs: map<Id, Job>
    var blobs: map<Id, map<Digest, Blob>>
    var errors: map<Id, seq<ErrorRow>>

    ghost function Contents(): Db
      reads this
    {
      Db(jobs, blobs, errors)
    }

    constructor ()
      ensures Contents() == EMPTY_DB
    {
      jobs, blobs, errors := map[], map[], map[];
    }

    /** The answer of SELECT ... WHERE destination=? ORDER BY created_at DESC. */
    ghost predicate IsSelection(rows: seq<Id>, destination: string)
      reads this
    {
      && (forall i: Id :: i in rows <==> i in jobs && jobs[i].destination == destination)
      && forall a, b | 0 <= a < b < |rows| ::
           rows[a] in jobs && rows[b] in jobs && jobs[rows[b]].createdAt <= jobs[rows[a]].createdAt
    }

    /** `rows` is the database's answer to the SELECT. The scan stops at the first active row,
        which is a latest active row whatever the order of the ties. */
    method Enqueue(now: Time, newId: Id, destination: string, request: Request, rows: seq<Id>)
      returns (ret: Ret, pick: Option<Id>)
      requires IsSelection(rows, destination)
      modifies this
      ensures IsLatestActive(old(Contents()), destination, pick)
      ensures Outcome(Contents(), ret) == QueueSpec.Enqueue(old(Contents()), now, newId, destination, request, pick)
    {
      pick := None;
      for n := 0 to |rows|
        invariant forall m | 0 <= m < n :: rows[m] in jobs && jobs[rows[m]].state.IsTerminal()
        invariant Contents() == old(Contents()) && pick == None
      {
        var row := jobs[rows[n]];
        if row.state.IsActive() {
          pick := Some(rows[n]);
          return (if row.request == request then Attached(rows[n]) else Conflict), pick;
        }
      }
      if newId in jobs {
        return Raised, pick;
      }
      jobs := jobs[newId := NewJob(now, destination, request)];
      blobs := blobs[newId := map[]];
      errors := errors[newId := []];
      ret := Created(newId);
    }

    method Claim(now: Time, worker: string, lease: int, token: Token) returns (ret: Ret)
      modifies this
      ensures Outcome(Contents(), ret) == QueueSpec.Claim(old(Contents()), now, worker, lease, token)
    {
      jobs := map i | i in jobs :: if Sweepable(jobs[i], now) then SweptRow(jobs[i], now) else jobs[i];
      assert jobs == Sweep(old(jobs), now);
      FirstIsTheFirst(jobs, now);
      if row: Id :| row in jobs && IsFirst(jobs, now, row) {
        jobs := jobs[row := ClaimedRow(jobs[row], now, worker, token, lease)];
        ret := Claimed(row);
      } else {
        ret := NothingToClaim;
      }
    }

    method Heartbeat(now: Time, id: Id, token: Token, lease: int) returns (ok: bool)
      modifies this`jobs
      ensures Outcome(Contents(), if ok then True else False)
           == QueueSpec.Heartbeat(old(Contents()), now, id, token, lease)
    {
      ok := id in jobs && jobs[id].token == Some(token) && !jobs[id].state.IsTerminal();
      if ok {
        jobs := jobs[id := jobs[id].(leaseExpiresAt := Some(now + lease * SECOND), heartbeatAt := Some(now))];
      }
    }

    /** The transaction writes the job row, then inserts the blob rows one at a time; a
        duplicate digest rolls all of it back. */
    method SaveSnapshot(now: Time, id: Id, token: Token, snapshot: ImageSnapshot) returns (ret: Ret)
      modifies this`jobs, this`blobs
      ensures Outcome(Contents(), ret) == QueueSpec.SaveSnapshot(old(Contents()), now, id, token, snapshot)
    {
      if !(id in jobs && jobs[id].token == Some(token) && jobs[id].state.Planning?) {
        return False;
      }
      var savedJobs := jobs;
      var before := if id in blobs then blobs[id] else map[];
      var rows := before;
      jobs := jobs[id := PlannedRow(jobs[id], now, snapshot)];
      for n := 0 to |snapshot.blobs|
        invariant InsertBlobs(before, snapshot.blobs[..n], now) == Some(rows)
        invariant blobs == old(blobs) && savedJobs == old(jobs)
      {
        var blob := snapshot.blobs[n];
        assert snapshot.blobs[..n + 1][..n] == snapshot.blobs[..n];
        if blob.digest in rows {
          InsertFails(before, snapshot.blobs, n + 1, now);
          jobs := savedJobs;
          return Raised;
        }
        rows := rows[blob.digest := NewBlob(blob, now)];
      }
      assert snapshot.blobs[..|snapshot.blobs|] == snapshot.blobs;
      blobs := blobs[id := rows];
      ret := True;
    }

    method Progress(now: Time, id: Id, token: Token, event: ProgressEvent) returns (ok: bool)
      modifies this`jobs, this`blobs
      ensures Outcome(Contents(), if ok then True else False)
           == QueueSpec.Progress(old(Contents()), now, id, token, event)
    {
      if event.digest == "" {
        if event.phase.NoPhase? {
          return true;
        }
        ok := id in jobs && jobs[id].token == Some(token);
        if ok {
          jobs := jobs[id := jobs[id].(state := PhaseState(event.phase), updatedAt := now)];
        }
        return;
      }
      if !(id in blobs && event.digest in blobs[id]) {
        return false;
      }
      var before := blobs[id][event.digest];
      var after := AdvancedBlob(before, now, event);
      blobs := blobs[id := blobs[id][event.digest := after]];
      var completedBytes := ComputeSum(blobs[id], Offset);
      var networkBytes := ComputeSum(blobs[id], Network);
      var completedBlobs := ComputeSum(blobs[id], DoneCount);
      ok := id in jobs && jobs[id].token == Some(token);
      if ok {
        var row := jobs[id];
        jobs := jobs[id := row.(
          completedBytes := completedBytes, networkBytes := networkBytes,
          completedBlobs := completedBlobs, bytesPerSecond := event.bytesPerSecond,
          lastProgressAt := if IsProgress(before, after) then now else row.lastProgressAt,
          updatedAt := now)];
      }
    }

    method Finish(now: Time, id: Id, token: Token, final: JobState, code: Option<string>, message: Option<string>)
      returns (ok: bool)
      modifies this`jobs
      ensures Outcome(Contents(), if ok then True else False)
           == QueueSpec.Finish(old(Contents()), now, id, token, final, code, message)
    {
      ok := id in jobs && jobs[id].token == Some(token);
      if ok {
        jobs := jobs[id := jobs[id].(state := final, errorCode := code, errorMessage := message,
                                     completedAt := Some(now), updatedAt := now,
                                     worker := None, token := None, leaseExpiresAt := None)];
      }
    }

    method FailOrRetry(now: Time, id: Id, token: Token, failure: Failure) returns (ret: Ret)
      modifies this`jobs, this`errors
      ensures Outcome(Contents(), ret) == QueueSpec.FailOrRetry(old(Contents()), now, id, token, failure)
    {
      if id !in jobs {
        return Raised;
      }
      var log := if id in errors then errors[id] else [];
      errors := errors[id := log + [ErrorOf(now, failure)]];
      if jobs[id].token == Some(token) {
        jobs := jobs[id := FailedRow(jobs[id], now, failure)];
        ret := True;
      } else {
        ret := False;
      }
    }

    /** The read and the unconditional write of `cancel`, with nothing in between. */
    method Cancel(now: Time, id: Id) returns (ret: Ret)
      modifies this`jobs
      ensures Outcome(Contents(), ret) == QueueSpec.Cancel(old(Contents()), now, id)
    {
      if id !in jobs {
        return NotFound;
      }
      var job := jobs[id];
      if job.state.IsTerminal() {
        return Done;
      }
      WriteCancel(now, id, job.state);
      ret := Done;
    }

    /** The second transaction of `cancel`, some time after a state was read. */
    method WriteCancel(now: Time, id: Id, readState: JobState)
      requires !readState.IsTerminal()
      modifies this`jobs
      ensures Contents() == CancelWrite(old(Contents()), now, id, readState)
    {
      var state := if readState.Queued? || readState.RetryWait? then Cancelled else CancelRequested;
      if id in jobs {
        jobs := jobs[id := jobs[id].(state := state, updatedAt := now,
                                     completedAt := if state.Cancelled? then Some(now) else jobs[id].completedAt)];
      }
    }

    /** The read and the unconditional write of `retry`, with nothing in between. */
    method Retry(now: Time, id: Id) returns (ret: Ret)
      modifies this`jobs
      ensures Outcome(Contents(), ret) == QueueSpec.Retry(old(Contents()), now, id)
    {
      if id !in jobs {
        return NotFound;
      }
      if !jobs[id].state.Failed? {
        return Conflict;
      }
      WriteRetry(now, id);
      ret := Done;
    }

    /** The second transaction of `retry`, some time after the job was read as failed. */
    method WriteRetry(now: Time, id: Id)
      modifies this`jobs
      ensures Contents() == RetryWrite(old(Contents()), now, id)
    {
      if id in jobs {
        jobs := jobs[id := jobs[id].(state := Queued, errorCode := None, errorMessage := None,
                                     completedAt := None, nextRetryAt := None, updatedAt := now)];
      }
    }

    method Dismiss(id: Id) returns (ret: Ret)
      modifies this
      ensures Outcome(Contents(), ret) == QueueSpec.Dismiss(old(Contents()), id)
    {
      if id !in jobs {
        return NotFound;
      }
      if !jobs[id].state.IsTerminal() {
        return Conflict;
      }
      jobs, blobs, errors := jobs - {id}, blobs - {id}, errors - {id};
      ret := Done;
    }

    method CancellationRequested(id: Id, token: Token) returns (yes: bool)
      ensures !yes <==> Holds(Contents(), id, token) && !Contents().jobs[id].state.CancelRequested?
    {
      yes := id !in jobs || jobs[id].token != Some(token) || jobs[id].state.CancelRequested?;
    }

    method ReleaseClaim(now: Time, id: Id, token: Token) returns (ok: bool)
      modifies this`jobs
      ensures Outcome(Contents(), if ok then True else False)
           == QueueSpec.ReleaseClaim(old(Contents()), now, id, token)
    {
      ok := id in jobs && jobs[id].token == Some(token) && jobs[id].state.IsWorking();
      if ok {
        jobs := jobs[id := ReleasedRow(jobs[id], now)];
      }
    }

    method Release(now: Time, prefix: string)
      modifies this`jobs
      ensures Outcome(Contents(), Done) == QueueSpec.Release(old(Contents()), now, prefix)
    {
      jobs := map i | i in jobs ::
        if OwnedBy(jobs[i], prefix) && jobs[i].state.IsWorking() then ReleasedRow(jobs[i], now) else jobs[i];
    }

    /** Returns the ids that are, or with `dryRun` would be, deleted. */
    method Prune(states: set<JobState>, olderThan: Option<Time>, dryRun: bool) returns (ret: Ret, ids: set<Id>)
      modifies this
      ensures Outcome(Contents(), ret) == QueueSpec.Prune(old(Contents()), states, olderThan, dryRun)
      ensures ids == if ret.Raised? then {} else PrunableIds(old(Contents()), states, olderThan)
    {
      if PruneRejected(states, olderThan) {
        return Raised, {};
      }
      ids := set i | i in jobs && Prunable(jobs[i], states, olderThan);
      if !dryRun {
        jobs, blobs, errors := jobs - ids, blobs - ids, errors - ids;
      }
      ret := Done;
    }
  }

  /** Once a prefix of the inserts has failed, the whole transaction fails. */
  lemma {:induction false} InsertFails(rows: Rows, ds: seq<Descriptor>, n: nat, now: Time)
    requires n <= |ds| && InsertBlobs(rows, ds[..n], now).None?
    ensures InsertBlobs(rows, ds, now).None?
    decreases |ds|
  {
    if n == |ds| {
      assert ds[..n] == ds;
    } else {
      assert ds[..|ds| - 1][..n] == ds[..n];
      InsertFails(rows, ds[..|ds| - 1], n, now);
    }
  }
}
