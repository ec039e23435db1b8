/** What is recorded for a copy that did not succeed: refusals, and operations that the service
    cancelled. */
module WorkerFailures {
  import opened QueueTypes
  import opened QueueSpec
  import opened EventStream
  import opened Transfer
  import opened FailurePolicy

  // ----- what a recorded failure leaves ----------------------------------------------------

  /** The row that a failure decided from `row` leaves, if the worker still holds the job. */
  function AfterFailure(db: Db, now: Time, i: Id, t: Token, row: Job, e: TransferError, clock1: Time, clock2: Time,
                        jitter: int, cfg: Config): Outcome {
    FailOrRetry(db, now, i, t, Decision(row, e, clock1, clock2, jitter, cfg))
  }

  /** The clocks still allow a retry. */
  predicate WithinTimeouts(row: Job, clock1: Time, clock2: Time, cfg: Config) {
    && clock1 < row.lastProgressAt + cfg.noProgressTimeout
    && (cfg.overallTimeout != 0 && row.startedAt.Some? ==> clock2 < row.startedAt.value + cfg.overallTimeout)
  }

  lemma FailureLeaves(db: Db, now: Time, i: Id, t: Token, row: Job, e: TransferError, clock1: Time, clock2: Time,
                      jitter: int, cfg: Config)
    ensures var after := AfterFailure(db, now, i, t, row, e, clock1, clock2, jitter, cfg);
            && (!Holds(db, i, t) ==> after.db.jobs == db.jobs)
            && (Holds(db, i, t) ==>
                  && i in after.db.jobs
                  && (after.db.jobs[i].state.RetryWait? <==> Decision(row, e, clock1, clock2, jitter, cfg).retryable)
                  && (after.db.jobs[i].state.Failed? <==> !Decision(row, e, clock1, clock2, jitter, cfg).retryable))
  {
  }

  /** A refused copy, as the queue sees it: if no cancellation is requested and the worker still
      holds the job, it is left in `retry_wait` exactly if the service was at its limit and the
      timeouts allow it, and failed otherwise; if the worker has lost the job, nothing changes. */
  lemma RefusedJobWaitsIff(q: CopyRequest, r: Responses, parse: Parser, chunks: seq<Bytes>, broken: bool, a: StoreAnswers,
                           row: Job, clock1: Time, clock2: Time, jitter: int, cfg: Config,
                           db: Db, now: Time, i: Id, t: Token)
    requires CopyAnswer(q, r).Refused? && Answered(a, []) && !a.cancelledAtFailure
    ensures var exit := ExitOf(ClientReading(CopyAnswer(q, r), parse, chunks, broken), a);
            && exit.RecordFailure?
            && var after := AfterFailure(db, now, i, t, row, exit.error, clock1, clock2, jitter, cfg);
               && (!Holds(db, i, t) ==> after.db.jobs == db.jobs)
               && (Holds(db, i, t) ==>
                     i in after.db.jobs
                     && if WellFormed(q) && r.maximum <= |r.running| && WithinTimeouts(row, clock1, clock2, cfg)
                        then after.db.jobs[i].state.RetryWait? else after.db.jobs[i].state.Failed?)
  {
    RefusalRetriedIff(q, r, parse, chunks, broken, a, row, clock1, clock2, jitter, cfg);
    var e := ExitOf(ClientReading(CopyAnswer(q, r), parse, chunks, broken), a).error;
    FailureLeaves(db, now, i, t, row, e, clock1, clock2, jitter, cfg);
  }

  // ----- how an operation is left ----------------------------------------------------------

  /** The first event at which the worker stops. */
  predicate StopsFirstAt(a: StoreAnswers, events: seq<Event>, n: nat)
    requires Answered(a, events)
  {
    n < |events| && StopsAt(a, events, n) && forall m | 0 <= m < n :: !StopsAt(a, events, m)
  }

  /** The event at which the worker stops decides how it leaves: a cancellation seen there cancels
      the job, a refused write means that the job is lost, and a failure is recorded as it was
      reported, unless a cancellation is seen then or it is one of authentication. */
  lemma StopDecides(reading: Reading, a: StoreAnswers, n: nat)
    requires Answered(a, reading.events) && StopsFirstAt(a, reading.events, n)
    ensures var e, exit := reading.events[n], ExitOf(reading, a);
            && (a.cancelled[n] ==> exit == FinishCancelled)
            && (!a.cancelled[n] && !e.FailedEvent? ==> exit == Superseded && !a.accepted[n])
            && (!a.cancelled[n] && e.FailedEvent? && a.cancelledAtFailure ==> exit == FinishCancelled)
            && (!a.cancelled[n] && e.FailedEvent? && !a.cancelledAtFailure ==>
                  && exit.RecordFailure?
                  && (e.code != "authentication_failed" ==>
                        exit.error.code == e.code && exit.error.message == e.message
                        && exit.error.retryable == e.retryable && exit.error.retryAfter == e.retryAfter))
  {
    FirstStopIsFirst(a, reading.events, 0);
  }

  /** An authentication failure is retried with refreshed credentials: if they could be refreshed,
      it is recorded under its own name and to be retried, whatever the event said, within the
      timeouts; if not, the failure is final. */
  lemma AuthenticationIsRetriedIff(reading: Reading, a: StoreAnswers, n: nat, row: Job, clock1: Time, clock2: Time,
                                   jitter: int, cfg: Config)
    requires Answered(a, reading.events) && StopsFirstAt(a, reading.events, n)
    requires reading.events[n].FailedEvent? && reading.events[n].code == "authentication_failed"
    requires !a.cancelled[n] && !a.cancelledAtFailure
    ensures var exit := ExitOf(reading, a);
            && exit.RecordFailure?
            && (a.refreshed ==> exit.error.code == "authentication_failed" && exit.error.retryAfter == reading.events[n].retryAfter)
            && (!a.refreshed ==> exit.error.code == "transfer_failed")
            && (Decision(row, exit.error, clock1, clock2, jitter, cfg).retryable
                <==> a.refreshed && WithinTimeouts(row, clock1, clock2, cfg))
  {
    FirstStopIsFirst(a, reading.events, 0);
    RetriedIff(row, ExitOf(reading, a).error, clock1, clock2, jitter, cfg);
  }

  /** As the queue sees it. */
  lemma AuthenticationLeaves(reading: Reading, a: StoreAnswers, n: nat, row: Job, clock1: Time, clock2: Time,
                             jitter: int, cfg: Config, db: Db, now: Time, i: Id, t: Token)
    requires Answered(a, reading.events) && StopsFirstAt(a, reading.events, n)
    requires reading.events[n].FailedEvent? && reading.events[n].code == "authentication_failed"
    requires !a.cancelled[n] && !a.cancelledAtFailure && Holds(db, i, t)
    ensures var exit := ExitOf(reading, a);
            && exit.RecordFailure?
            && var after := AfterFailure(db, now, i, t, row, exit.error, clock1, clock2, jitter, cfg).db;
               i in after.jobs
               && if a.refreshed && WithinTimeouts(row, clock1, clock2, cfg) then after.jobs[i].state.RetryWait?
                  else after.jobs[i].state.Failed?
  {
    AuthenticationIsRetriedIff(reading, a, n, row, clock1, clock2, jitter, cfg);
    FailureLeaves(db, now, i, t, row, ExitOf(reading, a).error, clock1, clock2, jitter, cfg);
  }

  /** A stream that ends without a stop and without a result is a protocol error, and final; one
      that breaks off is to be retried. */
  lemma EndDecides(reading: Reading, a: StoreAnswers)
    requires Answered(a, reading.events) && !a.cancelledAtFailure
    requires forall n | 0 <= n < |reading.events| :: !StopsAt(a, reading.events, n)
    requires !reading.end.Rejected? && !(reading.end.Terminal? && SeesCompleted(reading.events))
    ensures var exit := ExitOf(reading, a);
            && exit.RecordFailure? && exit.error.retryAfter == None
            && (exit.error.retryable <==> reading.end.Unavailable?)
            && exit.error.code == (if reading.end.Unavailable? then "registry_unavailable" else "protocol_error")
  {
    FirstStopIsFirst(a, reading.events, 0);
  }

  // ----- cancelled operations --------------------------------------------------------------------------

  /** The service's context was cancelled during the copy or its verification. */
  predicate OperationCancelled(q: CopyRequest, r: Responses) {
    || r.copyError == Some(Canceled)
    || (r.copyError.None? && r.digestHead == HeadFailed(Canceled))
    || (r.copyError.None? && r.digestHead == Found(q.rootDigest) && q.Tag().Some? && r.tagHead == HeadFailed(Canceled))
  }

  predicate Undisturbed(a: StoreAnswers) {
    && !a.cancelledAtFailure
    && (forall n | 0 <= n < |a.cancelled| :: !a.cancelled[n])
    && forall n | 0 <= n < |a.accepted| :: a.accepted[n]
  }

  lemma LastOfCancelled(q: CopyRequest, r: Responses)
    requires CopyAnswer(q, r).Streamed? && OperationCancelled(q, r)
    ensures var events := CopyAnswer(q, r).events;
            EndsOnce(events) && events[|events| - 1] == Classify(Canceled)
  {
    OneTerminalEvent(q, r);
  }

  /** How an undisturbed worker leaves such an operation: with the error of the last event, if it
      has read all of them, and with the error of the broken-off stream otherwise. */
  lemma LeavesCancelled(events: seq<Event>, reading: Reading, a: StoreAnswers)
    requires EndsOnce(events) && events[|events| - 1] == Classify(Canceled)
    requires reading.events <= events && (reading.end.Terminal? <==> HasTerminal(reading.events))
    requires reading.end.Terminal? ==> reading.events == events
    requires Answered(a, reading.events) && Undisturbed(a)
    ensures ExitOf(reading, a)
         == RecordFailure(if reading.end.Terminal? then ErrorOfEvent(Classify(Canceled)) else CallFailure(reading.end))
         || reading.end.Rejected?
  {
    FirstStopIsFirst(a, reading.events, 0);
    if reading.end.Terminal? {
      assert StopsAt(a, events, |events| - 1);
    } else {
      forall n | 0 <= n < |reading.events|
        ensures !StopsAt(a, reading.events, n)
      {
        assert reading.events[n] in reading.events;
      }
    }
  }

  lemma ReadsCancelled(events: seq<Event>, parse: Parser, encode: Encoder, arrived: nat, chunks: seq<Bytes>, broken: bool)
    requires EndsOnce(events) && forall e | e in events :: Framed(parse, encode, e) && PrefixFree(parse, encode, e)
    requires arrived <= |Encode(encode, events)| && Concat(chunks) == Encode(encode, events)[..arrived]
    ensures var reading := ReadChunks(parse, chunks, broken);
            && reading.events <= events && !reading.end.Rejected?
            && (reading.end.Terminal? <==> HasTerminal(reading.events))
            && (reading.end.Terminal? ==> reading.events == events)
  {
    var how := Ending(LastChunkOpen(chunks), broken);
    LastIsTheOnlyTerminal(events);
    TruncationForgesNothing(parse, encode, events, arrived, how);
    EndsIfTerminal(parse, Concat(chunks), how);
  }

  /** What an undisturbed worker records for a cancelled operation is retried only if the
      connection broke before the last event arrived: the event itself is final. */
  lemma CancelledOperationRetriedIff(q: CopyRequest, r: Responses, parse: Parser, encode: Encoder, arrived: nat,
                                     chunks: seq<Bytes>, broken: bool, a: StoreAnswers,
                                     row: Job, clock1: Time, clock2: Time, jitter: int, cfg: Config)
    requires CopyAnswer(q, r).Streamed? && OperationCancelled(q, r)
    requires forall e | e in CopyAnswer(q, r).events :: Framed(parse, encode, e) && PrefixFree(parse, encode, e)
    requires arrived <= |Encode(encode, CopyAnswer(q, r).events)|
    requires Concat(chunks) == Encode(encode, CopyAnswer(q, r).events)[..arrived]
    requires Answered(a, ReadChunks(parse, chunks, broken).events) && Undisturbed(a)
    ensures var reading := ReadChunks(parse, chunks, broken);
            var exit := ExitOf(reading, a);
            && exit.RecordFailure?
            && (Decision(row, exit.error, clock1, clock2, jitter, cfg).retryable
                <==> reading.end.Unavailable? && WithinTimeouts(row, clock1, clock2, cfg))
  {
    var reading := ReadChunks(parse, chunks, broken);
    LastOfCancelled(q, r);
    ReadsCancelled(CopyAnswer(q, r).events, parse, encode, arrived, chunks, broken);
    LeavesCancelled(CopyAnswer(q, r).events, reading, a);
    RetriedIff(row, ExitOf(reading, a).error, clock1, clock2, jitter, cfg);
  }
}
