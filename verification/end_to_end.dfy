/** The queue and the transfer together: what a completed job has behind it, and when a
    cancellation keeps a worker from completing it. */
module EndToEnd {
  import opened QueueTypes
  import opened QueueSpec
  import opened QueueMoves
  import opened QueueRuns
  import opened QueueFencing
  import opened QueueLifecycle
  import opened QueueEndings
  import opened EventStream
  import opened Transfer

  /** One copy operation of a worker: the request, what the service met, what arrived of its
      answer, what the store answered the worker, and when the worker asked, event by event,
      whether a cancellation was requested. */
  datatype Operation = Operation(
    request: CopyRequest,
    met: Responses,
    parse: Parser,
    encode: Encoder,
    arrived: nat,
    chunks: seq<Bytes>,
    broken: bool,
    answers: StoreAnswers,
    checks: seq<nat>
  )
  {
    function Reading(): Reading {
      ClientReading(CopyAnswer(request, met), parse, chunks, broken)
    }

    /** The bytes that arrived are the beginning of those the service wrote. */
    predicate Delivered() {
      CopyAnswer(request, met).Streamed? ==>
        var events := CopyAnswer(request, met).events;
        && (forall e | e in events :: Framed(parse, encode, e) && PrefixFree(parse, encode, e))
        && arrived <= |Encode(encode, events)|
        && Concat(chunks) == Encode(encode, events)[..arrived]
    }

    /** The worker leaves the operation to finish the job as completed. */
    predicate Completes() {
      && Delivered()
      && Answered(answers, Reading().events)
      && ExitOf(Reading(), answers) == FinishCompleted
    }

    /** The operation copied without an error and verified the destination. */
    predicate IsVerified() {
      met.copyError.None? && Verified(request, met)
    }
  }

  lemma CompletesMeansVerified(o: Operation)
    requires o.Completes()
    ensures o.IsVerified()
  {
    CompletesIff(o.Reading(), o.answers);
    CompletedMeansVerified(o.request, o.met, o.parse, o.encode, o.arrived, o.chunks, o.broken, o.answers);
  }

  // ----- runs with their operations --------------------------------------------------------

  /** How regclient reads the tag of a reference. */
  type TagOf = string -> Option<string>

  /** The operations that were performed, each under the number of the `finish` call it led to. */
  type Deeds = map<nat, Operation>

  /** The operation was for this job row: for its pinned root digest and its destination. */
  predicate IsFor(o: Operation, j: Job, tagOf: TagOf) {
    && j.snapshot.Some?
    && o.request.rootDigest == j.snapshot.value.rootDigest
    && o.request.Tag() == tagOf(j.destination)
  }

  /** The operation was begun for job `i`, as it stood at `n`, by a worker holding it under `t`. */
  ghost predicate BegunAt(run: Run, n: nat, i: Id, t: Token, o: Operation, tagOf: TagOf)
    requires n <= |run|
  {
    Holds(Exec(run[..n]), i, t) && IsFor(o, Exec(run[..n]).jobs[i], tagOf)
  }

  /** Jobs are finished as completed only by workers that performed an operation for them, begun
      under their token, and left it with that intention. */
  ghost predicate WorkersFinish(run: Run, deeds: Deeds, tagOf: TagOf) {
    forall w | 0 <= w < |run| && CompletingFinish(run[w]) :: FollowsDeed(run, w, deeds, tagOf)
  }

  ghost predicate FollowsDeed(run: Run, w: nat, deeds: Deeds, tagOf: TagOf)
    requires w < |run| && CompletingFinish(run[w])
  {
    && w in deeds && deeds[w].Completes()
    && exists n: nat :: n <= w && BegunAt(run, n, run[w].op.id, run[w].op.token, deeds[w], tagOf)
  }

  lemma StillFor(run: Run, n: nat, i: Id, o: Operation, tagOf: TagOf)
    requires Legal(run) && n <= |run|
    requires i in Exec(run[..n]).jobs && i in Exec(run).jobs && IsFor(o, Exec(run[..n]).jobs[i], tagOf)
    ensures IsFor(o, Exec(run).jobs[i], tagOf)
  {
    PlanIsPinned(run, n, i);
    DestinationStays(run, n, i);
  }

  /** A job whose row says completed was completed by a worker whose own operation, performed for
      the root digest and the destination that the row still names, had resolved the digest
      reference, and the tag when there is one, to that digest. */
  lemma CompletedJobsWereVerified(run: Run, deeds: Deeds, i: Id, tagOf: TagOf) returns (w: nat)
    requires Legal(run) && WorkersFinish(run, deeds, tagOf)
    requires i in Exec(run).jobs && Exec(run).jobs[i].state.Completed?
    ensures w < |run| && CompletingFinish(run[w]) && run[w].op.id == i && Answer(run, w).True?
    ensures w in deeds && deeds[w].IsVerified() && IsFor(deeds[w], Exec(run).jobs[i], tagOf)
  {
    w := CompletedBy(run, i);
    assert FollowsDeed(run, w, deeds, tagOf);
    CompletesMeansVerified(deeds[w]);
    var n: nat :| n <= w && BegunAt(run, n, i, run[w].op.token, deeds[w], tagOf);
    StillFor(run, n, i, deeds[w], tagOf);
  }

  // ----- cancellation ----------------------------------------------------------------------

  /** The worker's checks are answered by the tables as they stood when it asked. */
  ghost predicate Watched(run: Run, o: Operation, i: Id, t: Token) {
    && |o.checks| == |o.answers.cancelled|
    && forall k | 0 <= k < |o.checks| ::
         o.checks[k] <= |run| && (o.answers.cancelled[k] <==> !GoesOn(Exec(run[..o.checks[k]]), i, t))
  }

  /** A cancellation requested before some check of an operation, and not overwritten before that
      check by a phase report of the worker, keeps the worker from completing the job. */
  lemma CancellationStops(run: Run, o: Operation, i: Id, t: Token, n: nat, k: nat)
    requires Legal(run) && Watched(run, o, i, t)
    requires k < |o.checks| && n <= o.checks[k]
    requires Holds(Exec(run[..n]), i, t) && Exec(run[..n]).jobs[i].state.CancelRequested?
    requires forall m | n <= m < o.checks[k] :: !ReportsPhase(run[m], i, t)
    ensures !o.Completes()
  {
    var at := o.checks[k];
    LegalPrefix(run, at);
    assert run[..at][..n] == run[..n];
    CancellationIsSeen(run[..at], n, i, t);
    assert o.answers.cancelled[k];
    if o.Completes() {
      CancelledNeverCompletes(o.Reading(), o.answers);
    }
  }
}
