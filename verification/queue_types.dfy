/** The rows of the copy queue: one datatype per table of the SQLite schema, and the
    values its columns take. */
module QueueTypes {

  datatype Option<+T> = None | Some(value: T)

  /** A job id. Ids are fixed-width UUID text, so their text order is a numeric order. */
  type Id = nat

  /** A claim token: the fencing token that `claim` draws. */
  type Token = nat

  /** A UTC instant in microseconds. Module Timestamps shows that the stored text sorts the same way. */
  type Time = int

  type Digest = string

  const SECOND: int := 1_000_000

  datatype JobState =
    | Queued
    | Planning
    | Copying
    | RetryWait
    | Publishing
    | Verifying
    | Completed
    | Failed
    | CancelRequested
    | Cancelled
  {
    predicate IsTerminal() {
      Completed? || Failed? || Cancelled?
    }

    predicate IsActive() {
      !IsTerminal()
    }

    /** The states in which a worker runs the job without a cancellation pending. */
    predicate IsWorking() {
      Planning? || Copying? || Publishing? || Verifying?
    }
  }

  /** What a caller asked for, apart from the destination: the columns `enqueue` compares. */
  datatype Request = Request(
    source: string,
    sourceProvider: string,
    destinationProvider: string,
    copyReferrers: bool,
    copyDigestTags: bool,
    replacementPolicy: string,
    platforms: string
  )

  /** An OCI reference as regclient parses it. An absent tag or digest is None. */
  datatype Parsed = Parsed(tag: Option<string>, digest: Option<Digest>)

  datatype Descriptor = Descriptor(digest: Digest, mediaType: string, size: Option<nat>)

  /** The immutable plan of a job. */
  datatype ImageSnapshot = ImageSnapshot(
    resolvedSource: string,
    rootDigest: Digest,
    blobs: seq<Descriptor>,
    digest: Digest
  )
  {
    /** The byte total of the plan, unknown as soon as one size is unknown. */
    function ExpectedBytes(): Option<int> {
      if exists i | 0 <= i < |blobs| :: blobs[i].size.None? then None else Some(KnownBytes(blobs))
    }
  }

  function KnownBytes(blobs: seq<Descriptor>): int {
    if blobs == [] then 0
    else KnownBytes(blobs[..|blobs| - 1]) + SizeOr0(blobs[|blobs| - 1].size)
  }

  function SizeOr0(size: Option<nat>): nat {
    if size.Some? then size.value else 0
  }

  datatype Job = Job(
    destination: string,
    request: Request,
    state: JobState,
    completedBytes: int,
    expectedBytes: Option<int>,
    networkBytes: int,
    completedBlobs: int,
    totalBlobs: Option<int>,
    bytesPerSecond: Option<int>,
    runCount: int,
    consecutiveFailures: int,
    integrityFailures: int,
    nextRetryAt: Option<Time>,
    lastProgressAt: Time,
    snapshot: Option<ImageSnapshot>,
    errorCode: Option<string>,
    errorMessage: Option<string>,
    createdAt: Time,
    updatedAt: Time,
    startedAt: Option<Time>,
    completedAt: Option<Time>,
    worker: Option<string>,
    token: Option<Token>,
    leaseExpiresAt: Option<Time>,
    heartbeatAt: Option<Time>
  )

  /** A blob's disposition column; the column accepts any text. */
  datatype Disposition =
    | Pending
    | Transferring
    | Reused
    | Mounted
    | Finished
    | OtherDisposition(name: string)
  {
    predicate IsDone() {
      Finished? || Reused? || Mounted?
    }
  }

  datatype Blob = Blob(
    mediaType: string,
    size: Option<nat>,
    offset: nat,
    networkOffset: nat,
    disposition: Disposition,
    createdAt: Time,
    updatedAt: Time,
    completedAt: Option<Time>
  )

  datatype ErrorRow = ErrorRow(
    occurredAt: Time,
    code: string,
    message: string,
    retryable: bool,
    httpStatus: Option<int>,
    retryAfter: Option<int>
  )

  /** The three tables. The dependent rows are grouped by the job they reference, which is
      what the foreign keys with ON DELETE CASCADE make of them. */
  datatype Db = Db(
    jobs: map<Id, Job>,
    blobs: map<Id, map<Digest, Blob>>,
    errors: map<Id, seq<ErrorRow>>
  )

  const EMPTY_DB := Db(map[], map[], map[])

  /** The `phase` a progress event may carry: the three accepted values or anything else. */
  datatype Phase = PhaseCopying | PhasePublishing | PhaseVerifying | NoPhase

  /** A decoded `phase` or `progress` event. An absent or empty digest makes it a phase event. */
  datatype ProgressEvent = ProgressEvent(
    digest: Digest,
    phase: Phase,
    offset: int,
    network: Option<int>,
    disposition: Disposition,
    bytesPerSecond: Option<int>
  )

  /** The arguments `fail_or_retry` stores. The delay is in microseconds. */
  datatype Failure = Failure(
    code: string,
    message: string,
    retryable: bool,
    delay: Option<int>,
    httpStatus: Option<int>,
    integrityFailure: bool
  )

  /** What a store call tells its caller. */
  datatype Ret =
    | True
    | False
    | Raised
    | Created(id: Id)
    | Attached(id: Id)
    | Conflict
    | Claimed(id: Id)
    | NothingToClaim
    | NotFound
    | Done

  datatype Outcome = Outcome(db: Db, ret: Ret)
}
