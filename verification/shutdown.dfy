/** Shutdown over runs: the manager cancels the operations of its workers and releases their
    claims, while the workers may already be recording what they read. */
module Shutdown {
  import opened QueueTypes
  import opened QueueRuns
  import opened QueueFencing
  import opened QueueEndings
  import opened EventStream
  import opened Transfer
  import opened FailurePolicy
  import opened WorkerFailures
  import opened EndToEnd

  /** The operation was cancelled at the service, and nothing but that disturbs its worker. */
  predicate IsCancelled(o: Operation) {
    && CopyAnswer(o.request, o.met).Streamed? && OperationCancelled(o.request, o.met)
    && o.Delivered()
    && Answered(o.answers, o.Reading().events) && Undisturbed(o.answers)
  }

  /** If call `m` is the worker's, it is the one its operation leads to: the `finish` of that exit,
      or the failure decided from the row that call `r` read. */
  ghost predicate LeadsTo(run: Run, m: nat, o: Operation, r: nat, clock1: Time, clock2: Time, jitter: int, cfg: Config)
    requires m < |run| && Answered(o.answers, o.Reading().events)
  {
    var exit := ExitOf(o.Reading(), o.answers);
    && (run[m].op.OpFailOrRetry? ==>
          exit.RecordFailure? && DecidedFrom(run, r, m, exit.error, clock1, clock2, jitter, cfg))
    && (run[m].op.OpFinish? ==>
          (run[m].op.final.Completed? && exit.FinishCompleted?) || (run[m].op.final.Cancelled? && exit.FinishCancelled?))
  }

  /** The stream broke off before its last event, and the row read before the decision was still
      within its timeouts. */
  ghost predicate BrokenOffInTime(run: Run, o: Operation, i: Id, r: nat, clock1: Time, clock2: Time, cfg: Config)
    requires r <= |run| && i in Exec(run[..r]).jobs
  {
    o.Reading().end.Unavailable? && WithinTimeouts(Exec(run[..r]).jobs[i], clock1, clock2, cfg)
  }

  lemma CancelledDecision(o: Operation, row: Job, clock1: Time, clock2: Time, jitter: int, cfg: Config)
    requires IsCancelled(o)
    ensures var exit := ExitOf(o.Reading(), o.answers);
            && exit.RecordFailure?
            && (Decision(row, exit.error, clock1, clock2, jitter, cfg).retryable
                <==> o.Reading().end.Unavailable? && WithinTimeouts(row, clock1, clock2, cfg))
  {
    CancelledOperationRetriedIff(o.request, o.met, o.parse, o.encode, o.arrived, o.chunks, o.broken, o.answers,
                                 row, clock1, clock2, jitter, cfg);
  }

  /** The writes race: the worker's decision on one side, the release of the interrupted worker or of
      the closing manager on the other. Whichever commits first ends the claim, and the job is
      resumable right after it exactly if that is a release, or the decision of a worker whose
      stream broke off in time; a worker that decided from the whole stream fails the job for good
      exactly if its write comes first. (The claim can also be taken over, or swept.) */
  lemma ShutdownIsResumableIff(run: Run, m: nat, i: Id, t: Token, o: Operation,
                               r: nat, clock1: Time, clock2: Time, jitter: int, cfg: Config)
    requires Legal(run) && EndsAt(run, m, i, t)
    requires IsCancelled(o) && LeadsTo(run, m, o, r, clock1, clock2, jitter, cfg)
    ensures i in Exec(run[..m + 1]).jobs && !run[m].op.OpFinish?
    ensures run[m].op.OpFailOrRetry? ==> r <= |run| && i in Exec(run[..r]).jobs
    ensures var s := Exec(run[..m + 1]).jobs[i].state;
            && (s.Queued? || s.RetryWait? <==>
                  || run[m].op.OpReleaseClaim? || run[m].op.OpRelease?
                  || (run[m].op.OpFailOrRetry? && BrokenOffInTime(run, o, i, r, clock1, clock2, cfg)))
            && (s.Failed? <==> run[m].op.OpFailOrRetry? && !BrokenOffInTime(run, o, i, r, clock1, clock2, cfg))
  {
    EndingAt(run, m, i, t);
    if run[m].op.OpFailOrRetry? {
      CancelledDecision(o, Exec(run[..r]).jobs[i], clock1, clock2, jitter, cfg);
    } else {
      CancelledDecision(o, Exec(run[..m]).jobs[i], clock1, clock2, jitter, cfg);
    }
  }
}
