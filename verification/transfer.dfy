/** One copy operation end to end: the service that copies, verifies and emits events, and the
    worker that consumes them. */
module Transfer {
  import opened QueueTypes
  import opened EventStream
  import opened TextOrder
  import FailurePolicy

  // ----- registry answers ------------------------------------------------------------------

  /** A failed registry call. */
  datatype RegistryError = Canceled | DeadlineExceeded | Other(text: string)

  datatype Head = Found(digest: Digest) | HeadFailed(error: RegistryError)

  datatype CallbackState = Skipped | Finished | Started | Active | Archived

  /** A blob callback of the image copy, in the order the callbacks get through. */
  datatype Callback = Callback(digest: Digest, state: CallbackState, current: int)

  /** What the service meets during one operation: the operations it is running and its limit,
      what the destination reference really resolves to, at the HEAD request (`published`) and when
      the copy starts (`replaced`), what else the destination holds after the copy (`preserved`),
      and what the registries answer. */
  datatype Responses = Responses(
    running: set<string>,
    maximum: nat,
    published: Option<Digest>,
    replaced: Option<Digest>,
    preserved: set<Digest>,
    existing: Head,
    callbacks: seq<Callback>,
    copyError: Option<RegistryError>,
    digestHead: Head,
    tagHead: Head
  )

  /** What the service takes from the request. A reference that does not parse is None; `extras`
      are the referrers and digest-tagged manifests that the snapshot says to copy along. */
  datatype CopyRequest = CopyRequest(
    id: string,
    readable: bool,
    protocolVersion: int,
    rootDigest: Digest,
    source: Option<Parsed>,
    destination: Option<Parsed>,
    extras: set<Digest>,
    replacementPolicy: string
  )
  {
    /** The tag under which the destination is published, if one is given. */
    function Tag(): Option<string> {
      if destination.Some? then destination.value.tag else None
    }
  }

  /** A refusal before streaming starts, or the streamed events. */
  datatype Reply = Refused(status: int, code: string, message: string, retryable: bool) | Streamed(events: seq<Event>)

  const INVALID_ID: Reply := Refused(400, "protocol_error", "invalid operation id", false)

  const INVALID_REQUEST: Reply := Refused(400, "protocol_error", "invalid request", false)

  const UNSUPPORTED_PROTOCOL: Reply := Refused(400, "protocol_error", "unsupported protocol", false)

  const TOO_MANY_OPERATIONS: Reply := Refused(429, "rate_limited", "too many operations", true)

  const DUPLICATE_ID: Reply := Refused(409, "protocol_error", "duplicate operation id", false)

  const INVALID_POLICY: Reply := Refused(400, "protocol_error", "invalid replacement policy", false)

  const SOURCE_MISMATCH: Reply :=
    Refused(409, "digest_mismatch", "resolved source does not match planned digest", false)

  const DESTINATION_MISMATCH: Reply :=
    Refused(409, "digest_mismatch", "destination digest does not match planned content", false)

  const DESTINATION_CONFLICT: Reply :=
    Refused(409, "destination_conflict", "destination tag already references different content", false)

  const INVALID_REFERENCE: RegistryError := Other("invalid OCI reference")

  // ----- error classification --------------------------------------------------------------

  predicate Contains(s: string, part: string) {
    exists k | 0 <= k <= |s| :: part <= s[k..]
  }

  /** The stable code of a registry error and whether it may be retried. */
  function CodeOf(e: RegistryError): (string, bool) {
    match e
    case Canceled => ("cancelled", false)
    case DeadlineExceeded => ("timeout", true)
    case Other(text) =>
      var lower := Lower(text);
      if Contains(lower, "401") || Contains(lower, "authentication") then ("authentication_failed", false)
      else if Contains(lower, "403") || Contains(lower, "denied") then ("authorization_denied", false)
      else if Contains(lower, "429") then ("rate_limited", true)
      else if Contains(lower, "timeout") then ("timeout", true)
      else if Contains(lower, "digest") then ("digest_mismatch", false)
      else if Contains(lower, "connection") || Contains(lower, "temporary") then ("network_error", true)
      else ("transfer_failed", false)
  }

  function Message(e: RegistryError): string {
    match e
    case Canceled => "context canceled"
    case DeadlineExceeded => "context deadline exceeded"
    case Other(text) => text
  }

  function Classify(e: RegistryError): Event {
    FailedEvent(CodeOf(e).0, "registry operation failed: " + Message(e), CodeOf(e).1, None)
  }

  /** Exactly which error texts may be retried: those that mention a limit or a timeout, or a
      connection or something temporary but no digest, and nothing of authentication or denial. */
  lemma RetryableErrorsAre(text: string)
    ensures var s := Lower(text);
            CodeOf(Other(text)).1
            <==> && !Contains(s, "401") && !Contains(s, "authentication") && !Contains(s, "403") && !Contains(s, "denied")
                 && (|| Contains(s, "429") || Contains(s, "timeout")
                     || (!Contains(s, "digest") && (Contains(s, "connection") || Contains(s, "temporary"))))
  {
  }

  /** And what they are called. */
  lemma ErrorsAreNamed(text: string)
    ensures var s, code := Lower(text), CodeOf(Other(text)).0;
            && (Contains(s, "401") || Contains(s, "authentication") ==> code == "authentication_failed")
            && (code == "authentication_failed" ==> Contains(s, "401") || Contains(s, "authentication"))
            && (code == "authorization_denied" ==> Contains(s, "403") || Contains(s, "denied"))
            && (code == "rate_limited" ==> Contains(s, "429"))
            && (code == "timeout" ==> Contains(s, "timeout"))
            && (code == "digest_mismatch" ==> Contains(s, "digest"))
            && (code == "network_error" ==> Contains(s, "connection") || Contains(s, "temporary"))
            && code in {"authentication_failed", "authorization_denied", "rate_limited", "timeout", "digest_mismatch",
                        "network_error", "transfer_failed"}
    ensures CodeOf(Canceled) == ("cancelled", false) && CodeOf(DeadlineExceeded) == ("timeout", true)
  {
  }

  /** A text contains another exactly if it is that with something before and after it. */
  lemma ContainsIff(s: string, part: string)
    ensures Contains(s, part) <==> exists a: string, b: string :: s == a + part + b
  {
    if k :| 0 <= k <= |s| && part <= s[k..] {
      assert s == s[..k] + part + s[k + |part|..];
    }
    if a: string, b: string :| s == a + part + b {
      assert s[|a|..] == part + b;
    }
  }

  /** A digest mismatch that the service reports is never marked retryable. */
  lemma MismatchIsPermanent(e: RegistryError)
    ensures CodeOf(e).0 == FailurePolicy.DIGEST_MISMATCH ==> !CodeOf(e).1
    ensures CodeOf(e).1 ==> CodeOf(e).0 in {"timeout", "rate_limited", "network_error"}
  {
  }

  // ----- the service -----------------------------------------------------------------------

  function CallbackDisposition(state: CallbackState): Disposition {
    match state
    case Skipped => Reused
    case Finished => Disposition.Finished
    case _ => Transferring
  }

  function ProgressOf(c: Callback): Event {
    BlobEvent(c.digest, c.current, Some(c.current), CallbackDisposition(c.state), None)
  }

  function ProgressEvents(callbacks: seq<Callback>): seq<Event> {
    seq(|callbacks|, k requires 0 <= k < |callbacks| => ProgressOf(callbacks[k]))
  }

  function Mismatch(message: string): Event {
    FailedEvent(FailurePolicy.DIGEST_MISMATCH, message, false, None)
  }

  /** The verification after the copy: the digest reference, then the tag when one is given. */
  function Verdict(q: CopyRequest, r: Responses): Event {
    match r.digestHead
    case HeadFailed(e) => Classify(e)
    case Found(d) =>
      if d != q.rootDigest then Mismatch("destination digest mismatch")
      else if q.Tag().None? then CompletedEvent(q.rootDigest)
      else
        match r.tagHead
        case HeadFailed(e) => Classify(e)
        case Found(t) =>
          if t != q.rootDigest then Mismatch("destination tag does not resolve to copied digest")
          else CompletedEvent(q.rootDigest)
  }

  /** Both references resolved to the planned root digest during this operation. */
  predicate Verified(q: CopyRequest, r: Responses) {
    && r.digestHead == Found(q.rootDigest)
    && (q.Tag().Some? ==> r.tagHead == Found(q.rootDigest))
  }

  predicate Conflicts(q: CopyRequest, r: Responses) {
    r.existing.Found? && r.existing.digest != q.rootDigest && q.replacementPolicy == "no_clobber"
  }

  /** The answer to an error outside a stream. */
  function ServiceError(e: RegistryError): Reply {
    Refused(502, CodeOf(e).0, "registry operation failed: " + Message(e), CodeOf(e).1)
  }

  /** Whether the request gets past the checks that look at the request alone. */
  predicate WellFormed(q: CopyRequest) {
    && 0 < |q.id| <= 128 && q.readable && q.protocolVersion == 1
  }

  /** The refusal of a request, if it is refused. */
  function Refusal(q: CopyRequest, r: Responses): Option<Reply> {
    if q.id == "" || |q.id| > 128 then Some(INVALID_ID)
    else if !q.readable then Some(INVALID_REQUEST)
    else if q.protocolVersion != 1 then Some(UNSUPPORTED_PROTOCOL)
    else if |r.running| >= r.maximum then Some(TOO_MANY_OPERATIONS)
    else if q.id in r.running then Some(DUPLICATE_ID)
    else if q.replacementPolicy != "no_clobber" && q.replacementPolicy != "overwrite" then Some(INVALID_POLICY)
    else if q.source.None? || q.destination.None? then Some(ServiceError(INVALID_REFERENCE))
    else if q.source.value.digest != Some(q.rootDigest) then Some(SOURCE_MISMATCH)
    else if q.destination.value.digest.Some? && q.destination.value.digest.value != q.rootDigest then
      Some(DESTINATION_MISMATCH)
    else if Conflicts(q, r) then Some(DESTINATION_CONFLICT)
    else None
  }

  function CopyAnswer(q: CopyRequest, r: Responses): Reply {
    var refusal := Refusal(q, r);
    if refusal.Some? then refusal.value
    else
      var started := [PhaseEvent(PhaseCopying)] + ProgressEvents(r.callbacks);
      if r.copyError.Some? then Streamed(started + [Classify(r.copyError.value)])
      else Streamed(started + [PhaseEvent(PhaseVerifying)] + [Verdict(q, r)])
  }

  /** The guards of the handler. */
  method Admit(q: CopyRequest, r: Responses) returns (refusal: Option<Reply>)
    ensures refusal == Refusal(q, r)
    ensures refusal.None? <==> Acceptable(q, r) && !Conflicts(q, r)
    ensures refusal == Some(TOO_MANY_OPERATIONS) <==> WellFormed(q) && r.maximum <= |r.running|
    ensures refusal.Some? ==> refusal.value.Refused?
  {
    if q.id == "" || |q.id| > 128 {
      return Some(INVALID_ID);
    }
    if !q.readable {
      return Some(INVALID_REQUEST);
    }
    if q.protocolVersion != 1 {
      return Some(UNSUPPORTED_PROTOCOL);
    }
    if |r.running| >= r.maximum {
      return Some(TOO_MANY_OPERATIONS);
    }
    if q.id in r.running {
      return Some(DUPLICATE_ID);
    }
    if q.replacementPolicy != "no_clobber" && q.replacementPolicy != "overwrite" {
      return Some(INVALID_POLICY);
    }
    if q.source.None? {
      return Some(ServiceError(INVALID_REFERENCE));
    }
    if q.destination.None? {
      return Some(ServiceError(INVALID_REFERENCE));
    }
    if q.source.value.digest.None? || q.source.value.digest.value != q.rootDigest {
      return Some(SOURCE_MISMATCH);
    }
    if q.destination.value.digest.Some? && q.destination.value.digest.value != q.rootDigest {
      return Some(DESTINATION_MISMATCH);
    }
    if r.existing.Found? {
      if r.existing.digest != q.rootDigest && q.replacementPolicy == "no_clobber" {
        return Some(DESTINATION_CONFLICT);
      }
    }
    refusal := None;
  }

  /** The handler: guards, then events emitted one by one. */
  method Copy(q: CopyRequest, r: Responses) returns (answer: Reply)
    ensures answer == CopyAnswer(q, r)
  {
    var refusal := Admit(q, r);
    if refusal.Some? {
      return refusal.value;
    }
    var emitted := [PhaseEvent(PhaseCopying)];
    for n := 0 to |r.callbacks|
      invariant emitted == [PhaseEvent(PhaseCopying)] + ProgressEvents(r.callbacks)[..n]
    {
      emitted := emitted + [ProgressOf(r.callbacks[n])];
    }
    if r.copyError.Some? {
      return Streamed(emitted + [Classify(r.copyError.value)]);
    }
    emitted := emitted + [PhaseEvent(PhaseVerifying)];
    var last := Verify(q, r);
    answer := Streamed(emitted + [last]);
  }

  /** The verification at the end of the handler. */
  method Verify(q: CopyRequest, r: Responses) returns (last: Event)
    ensures last == Verdict(q, r)
    ensures last.CompletedEvent? <==> Verified(q, r)
    ensures last.IsTerminal()
  {
    if r.digestHead.HeadFailed? {
      return Classify(r.digestHead.error);
    }
    if r.digestHead.digest != q.rootDigest {
      return Mismatch("destination digest mismatch");
    }
    if q.Tag().Some? {
      if r.tagHead.HeadFailed? {
        return Classify(r.tagHead.error);
      }
      if r.tagHead.digest != q.rootDigest {
        return Mismatch("destination tag does not resolve to copied digest");
      }
    }
    last := CompletedEvent(q.rootDigest);
  }

  /** Once streaming starts, exactly one terminal event is emitted and it is the last one;
      everything before it is a phase or a blob event, starting with the copying phase. */
  lemma OneTerminalEvent(q: CopyRequest, r: Responses)
    requires CopyAnswer(q, r).Streamed?
    ensures var events := CopyAnswer(q, r).events;
            && |events| >= 2 && events[0] == PhaseEvent(PhaseCopying)
            && events[|events| - 1].IsTerminal()
            && forall k | 0 <= k < |events| - 1 :: events[k].PhaseEvent? || events[k].BlobEvent?
  {
  }

  /** The terminal event is `completed` exactly when the copy succeeded and the digest reference,
      and the tag when one is given, both resolved to the planned root digest. */
  lemma CompletedIffVerified(q: CopyRequest, r: Responses)
    requires CopyAnswer(q, r).Streamed?
    ensures var events := CopyAnswer(q, r).events;
            events[|events| - 1].CompletedEvent? <==> r.copyError.None? && Verified(q, r)
  {
  }

  /** The HEAD request tells the truth when it succeeds, and a digest reference can only resolve
      to that digest. */
  predicate Truthful(q: CopyRequest, r: Responses) {
    && (r.existing.Found? ==> r.published == Some(r.existing.digest))
    && (q.Tag().None? && r.published.Some? ==> r.published.value == q.rootDigest)
    && (q.Tag().None? && r.replaced.Some? ==> r.replaced.value == q.rootDigest)
  }

  /** The copy is started over different content. */
  predicate Clobbers(q: CopyRequest, r: Responses) {
    CopyAnswer(q, r).Streamed? && r.replaced.Some? && r.replaced.value != q.rootDigest
  }

  /** The guards of a copy that look at anything but the destination's present content. */
  predicate Acceptable(q: CopyRequest, r: Responses) {
    && WellFormed(q) && |r.running| < r.maximum && q.id !in r.running
    && q.replacementPolicy in {"no_clobber", "overwrite"}
    && q.source.Some? && q.destination.Some?
    && q.source.value.digest == Some(q.rootDigest)
    && (q.destination.value.digest.Some? ==> q.destination.value.digest.value == q.rootDigest)
  }

  // ----- what is streamed ------------------------------------------------------------------

  /** Each callback is streamed in its place, with its digest and its count, as reused if it was
      skipped, finished if it was finished, and still transferring otherwise. */
  lemma CallbacksAreStreamed(q: CopyRequest, r: Responses, k: nat)
    requires CopyAnswer(q, r).Streamed? && k < |r.callbacks|
    ensures k + 1 < |CopyAnswer(q, r).events|
    ensures var e, c := CopyAnswer(q, r).events[k + 1], r.callbacks[k];
            && e.BlobEvent? && e.digest == c.digest && e.offset == c.current && e.network == Some(c.current) && e.rate == None
            && (c.state == Skipped ==> e.disposition == Reused)
            && (c.state == CallbackState.Finished ==> e.disposition == Disposition.Finished)
            && (c.state != Skipped && c.state != CallbackState.Finished ==> e.disposition == Transferring)
  {
  }

  /** After the callbacks comes the error of the copy, or the verifying phase and its verdict. */
  lemma RestIsStreamed(q: CopyRequest, r: Responses)
    requires CopyAnswer(q, r).Streamed?
    ensures var events, n := CopyAnswer(q, r).events, |r.callbacks| + 1;
            match r.copyError
            case Some(e) =>
              && |events| == n + 1 && events[n].FailedEvent?
              && events[n].code == CodeOf(e).0 && events[n].retryable == CodeOf(e).1 && events[n].retryAfter == None
            case None =>
              && |events| == n + 2 && events[n] == PhaseEvent(PhaseVerifying)
              && (events[n + 1].CompletedEvent? ==> events[n + 1].digest == q.rootDigest)
              && (r.digestHead.HeadFailed? ==> IsErrorOf(events[n + 1], r.digestHead.error))
              && (r.digestHead.Found? && r.digestHead.digest != q.rootDigest ==> IsMismatch(events[n + 1]))
              && (r.digestHead == Found(q.rootDigest) && q.Tag().Some? && r.tagHead.HeadFailed? ==>
                    IsErrorOf(events[n + 1], r.tagHead.error))
              && (r.digestHead == Found(q.rootDigest) && q.Tag().Some? && r.tagHead.Found? && r.tagHead.digest != q.rootDigest ==>
                    IsMismatch(events[n + 1]))
  {
  }

  predicate IsErrorOf(e: Event, error: RegistryError) {
    e.FailedEvent? && e.code == CodeOf(error).0 && e.retryable == CodeOf(error).1 && e.retryAfter == None
  }

  predicate IsMismatch(e: Event) {
    e.FailedEvent? && e.code == FailurePolicy.DIGEST_MISMATCH && !e.retryable && e.retryAfter == None
  }

  // ----- what is not verified --------------------------------------------------------------

  /** The destination holds everything that was to be copied along. */
  predicate Preserved(q: CopyRequest, r: Responses) {
    q.extras <= r.preserved
  }

  /** The answer does not depend on what else the destination holds, nor on what else was asked for. */
  lemma ExtrasAreIgnored(q: CopyRequest, r: Responses, extras: set<Digest>, preserved: set<Digest>)
    ensures CopyAnswer(q.(extras := extras), r.(preserved := preserved)) == CopyAnswer(q, r)
  {
  }

  /** So every operation that ends as completed could have ended so with a requested referrer
      missing from the destination. */
  lemma CompletedCanLackExtras(q: CopyRequest, r: Responses, referrer: Digest)
    requires CopyAnswer(q, r).Streamed? && r.copyError.None? && Verified(q, r)
    ensures exists q': CopyRequest, r': Responses ::
              && q'.rootDigest == q.rootDigest && referrer in q'.extras && !Preserved(q', r')
              && CopyAnswer(q', r') == CopyAnswer(q, r)
              && var events := CopyAnswer(q', r').events;
                 CopyAnswer(q', r').Streamed? && events[|events| - 1].CompletedEvent?
  {
    var q', r' := q.(extras := {referrer}), r.(preserved := {});
    ExtrasAreIgnored(q, r, {referrer}, {});
    CompletedIffVerified(q, r);
    assert referrer in q'.extras && !Preserved(q', r');
  }

  // ----- what is overwritten ---------------------------------------------------------------

  /** Exactly when a copy is started over different content: the request is acceptable, the
      destination does resolve to something else, and either overwriting was asked for, or the
      HEAD request that should have noticed failed, or it found the planned content, which was
      replaced between that request and the copy. */
  lemma ClobbersIff(q: CopyRequest, r: Responses)
    requires Truthful(q, r)
    ensures Clobbers(q, r)
       <==> && Acceptable(q, r)
            && r.replaced.Some? && r.replaced.value != q.rootDigest
            && (q.replacementPolicy == "overwrite" || r.existing.HeadFailed? || r.published == Some(q.rootDigest))
  {
  }

  /** Both happen under `no_clobber`: the HEAD request times out, or another push comes between it
      and the copy; the copy replaces what the tag held, is verified, and is reported as completed. */
  lemma NoClobberCanClobber(root: Digest, other: Digest, tag: string, timesOut: bool)
    requires root != other
    ensures exists q: CopyRequest, r: Responses ::
              && q.replacementPolicy == "no_clobber" && q.Tag() == Some(tag) && q.rootDigest == root
              && Truthful(q, r) && r.replaced == Some(other)
              && (if timesOut then r.existing == HeadFailed(DeadlineExceeded) && r.published == r.replaced
                  else r.existing == Found(root))
              && Clobbers(q, r) && r.copyError.None? && Verified(q, r)
              && CopyAnswer(q, r) == Streamed([PhaseEvent(PhaseCopying), PhaseEvent(PhaseVerifying), CompletedEvent(root)])
  {
    var q := CopyRequest("op", true, 1, root, Some(Parsed(None, Some(root))), Some(Parsed(Some(tag), None)), {}, "no_clobber");
    var existing := if timesOut then HeadFailed(DeadlineExceeded) else Found(root);
    var r := Responses({}, 1, Some(if timesOut then other else root), Some(other), {}, existing, [], None, Found(root), Found(root));
    assert ProgressEvents(r.callbacks) == [];
    assert Clobbers(q, r) && Verified(q, r);
  }

  /** What contains `part` contains each of its characters, and each two in a row in a row. */
  lemma ContainsTwo(s: string, part: string, j: nat)
    requires Contains(s, part) && j + 1 < |part|
    ensures exists k :: 0 <= k < |s| - 1 && s[k] == part[j] && s[k + 1] == part[j + 1]
  {
    var k :| 0 <= k <= |s| && part <= s[k..];
    assert s[k + j] == part[j] && s[k + j + 1] == part[j + 1];
  }

  /** No 'd' followed by an 'e', no 't', 'g' or digit. */
  predicate Harmless(s: string) {
    forall k | 0 <= k < |s| - 1 :: !(s[k] == 'd' && s[k + 1] == 'e') && s[k] !in {'t', 'g', '0', '2'}
  }

  lemma HarmlessLacks(s: string, part: string, j: nat)
    requires Harmless(s) && j + 1 < |part|
    requires (part[j] == 'd' && part[j + 1] == 'e') || part[j] in {'t', 'g', '0', '2'}
    ensures !Contains(s, part)
  {
    if Contains(s, part) {
      ContainsTwo(s, part, j);
    }
  }

  lemma HarmlessIsUnclassified(text: string)
    requires Harmless(Lower(text))
    ensures CodeOf(Other(text)) == ("transfer_failed", false)
  {
    HarmlessLacks(Lower(text), "401", 1);
    HarmlessLacks(Lower(text), "authentication", 2);
    HarmlessLacks(Lower(text), "403", 1);
    HarmlessLacks(Lower(text), "denied", 0);
    HarmlessLacks(Lower(text), "429", 1);
    HarmlessLacks(Lower(text), "timeout", 0);
    HarmlessLacks(Lower(text), "digest", 2);
    HarmlessLacks(Lower(text), "connection", 6);
    HarmlessLacks(Lower(text), "temporary", 0);
  }

  /** The same of a text in either case. */
  predicate HarmlessAnyCase(text: string) {
    NoMarks(text) && NoDe(text)
  }

  predicate NoMarks(text: string) {
    forall k | 0 <= k < |text| :: text[k] !in {'t', 'T', 'g', 'G', '0', '2'}
  }

  predicate NoDe(text: string) {
    forall k | 0 <= k < |text| - 1 :: LowerChar(text[k]) == 'd' ==> LowerChar(text[k + 1]) != 'e'
  }

  lemma AnyCaseIsHarmless(text: string)
    requires HarmlessAnyCase(text)
    ensures Harmless(Lower(text))
  {
    var s := Lower(text);
    forall k | 0 <= k < |s| - 1
      ensures !(s[k] == 'd' && s[k + 1] == 'e') && s[k] !in {'t', 'g', '0', '2'}
    {
      assert s[k] == LowerChar(text[k]) && s[k + 1] == LowerChar(text[k + 1]);
    }
  }

  lemma InvalidReferenceHasNoMarks()
    ensures NoMarks("invalid OCI reference")
  {
  }

  lemma InvalidReferenceHasNoDe()
    ensures NoDe("invalid OCI reference")
  {
  }

  /** What the service answers to a reference that does not parse is permanent. */
  lemma InvalidReferenceIsPermanent()
    ensures CodeOf(INVALID_REFERENCE) == ("transfer_failed", false)
  {
    InvalidReferenceHasNoMarks();
    InvalidReferenceHasNoDe();
    AnyCaseIsHarmless("invalid OCI reference");
    HarmlessIsUnclassified("invalid OCI reference");
  }

  predicate IsRefusal(a: Reply, status: int, code: string) {
    a.Refused? && a.status == status && a.code == code
  }

  /** What a refusal says: the first check that fails names it. */
  lemma RefusalsAreNamed(q: CopyRequest, r: Responses)
    requires CopyAnswer(q, r).Refused?
    ensures var a := CopyAnswer(q, r);
            if q.id == "" || |q.id| > 128 || !q.readable || q.protocolVersion != 1 then IsRefusal(a, 400, "protocol_error")
            else if r.maximum <= |r.running| then IsRefusal(a, 429, "rate_limited")
            else if q.id in r.running then IsRefusal(a, 409, "protocol_error")
            else if q.replacementPolicy !in {"no_clobber", "overwrite"} then IsRefusal(a, 400, "protocol_error")
            else if q.source.None? || q.destination.None? then IsRefusal(a, 502, "transfer_failed")
            else if q.source.value.digest != Some(q.rootDigest)
                    || (q.destination.value.digest.Some? && q.destination.value.digest.value != q.rootDigest) then
              IsRefusal(a, 409, "digest_mismatch")
            else
              && IsRefusal(a, 409, "destination_conflict")
              && q.replacementPolicy == "no_clobber" && r.existing.Found? && r.existing.digest != q.rootDigest
  {
    InvalidReferenceIsPermanent();
    assert q.replacementPolicy in {"no_clobber", "overwrite"}
      <==> q.replacementPolicy == "no_clobber" || q.replacementPolicy == "overwrite";
  }

  /** Refusals are permanent, except that of a service at its limit. */
  lemma RetryableRefusalIff(q: CopyRequest, r: Responses)
    requires CopyAnswer(q, r).Refused?
    ensures CopyAnswer(q, r).retryable <==> WellFormed(q) && r.maximum <= |r.running|
    ensures CopyAnswer(q, r).retryable ==> CopyAnswer(q, r) == TOO_MANY_OPERATIONS
    ensures CopyAnswer(q, r).code != "authentication_failed"
  {
    InvalidReferenceIsPermanent();
  }

  /** Every failure the service streams as a digest mismatch is permanent: the manager counts it
      against the integrity budget but never retries it. */
  lemma StreamedMismatchIsFinal(q: CopyRequest, r: Responses, row: Job, clock1: Time, clock2: Time, jitter: int,
                                cfg: FailurePolicy.Config)
    requires CopyAnswer(q, r).Streamed?
    ensures var events := CopyAnswer(q, r).events;
            var last := events[|events| - 1];
            last.FailedEvent? && last.code == FailurePolicy.DIGEST_MISMATCH ==>
              var e := FailurePolicy.TransferError(last.code, last.message, last.retryable, last.retryAfter);
              !FailurePolicy.Decision(row, e, clock1, clock2, jitter, cfg).retryable
  {
    OneTerminalEvent(q, r);
    if r.copyError.Some? {
      MismatchIsPermanent(r.copyError.value);
    }
    if r.digestHead.HeadFailed? {
      MismatchIsPermanent(r.digestHead.error);
    }
    if r.tagHead.HeadFailed? {
      MismatchIsPermanent(r.tagHead.error);
    }
  }

  // ----- the worker ------------------------------------------------------------------------

  /** How the worker leaves an operation. */
  datatype Exit =
    | FinishCompleted
    | FinishCancelled
    | Superseded
    | RecordFailure(error: FailurePolicy.TransferError)

  /** What the store answers the worker: for each event whether a cancellation is requested and
      whether the progress write was accepted, and whether a cancellation is requested when a
      failure is handled. `refreshed` says whether the credentials could be refreshed. */
  datatype StoreAnswers = StoreAnswers(cancelled: seq<bool>, accepted: seq<bool>, cancelledAtFailure: bool, refreshed: bool)

  /** The error raised when the client's copy call ends otherwise than with a completed event. */
  function CallFailure(end: End): FailurePolicy.TransferError {
    match end
    case Oversized => FailurePolicy.TransferError("protocol_error", "oversized service event", false, None)
    case BadEvent => FailurePolicy.TransferError("protocol_error", "malformed or incompatible service event", false, None)
    case NoResult => FailurePolicy.TransferError("protocol_error", "copy stream ended without result", false, None)
    case Terminal => FailurePolicy.TransferError("protocol_error", "copy ended without result", false, None)
    case Unavailable => FailurePolicy.TransferError("registry_unavailable", "transfer service unavailable", true, None)
    case Rejected(code, message, retryable) => FailurePolicy.TransferError(code, message, retryable, None)
  }

  /** What the client yields for an answer of the service, of which `chunks` arrived. */
  function ClientReading(answer: Reply, parse: Parser, chunks: seq<Bytes>, broken: bool): Reading {
    match answer
    case Refused(_, code, message, retryable) => Reading([], Rejected(code, message, retryable))
    case Streamed(_) => ReadChunks(parse, chunks, broken)
  }

  /** The handler around the event loop. */
  function Handle(e: FailurePolicy.TransferError, a: StoreAnswers): Exit {
    if a.cancelledAtFailure then FinishCancelled
    else if e.code != "authentication_failed" then RecordFailure(e)
    else if a.refreshed then RecordFailure(e.(retryable := true))
    else RecordFailure(FailurePolicy.TransferError("transfer_failed", "Copy failed: " + e.message, false, None))
  }

  function ErrorOfEvent(e: Event): FailurePolicy.TransferError
    requires e.FailedEvent?
  {
    FailurePolicy.TransferError(e.code, e.message, e.retryable, e.retryAfter)
  }

  predicate Answered(a: StoreAnswers, events: seq<Event>) {
    |a.cancelled| == |events| && |a.accepted| == |events|
  }

  /** An event at which the worker stops. */
  predicate StopsAt(a: StoreAnswers, events: seq<Event>, n: nat)
    requires Answered(a, events) && n < |events|
  {
    a.cancelled[n] || events[n].FailedEvent? || ((events[n].PhaseEvent? || events[n].BlobEvent?) && !a.accepted[n])
  }

  /** The first such event from `n` on, or the number of events. */
  function FirstStop(a: StoreAnswers, events: seq<Event>, n: nat): nat
    requires Answered(a, events) && n <= |events|
    decreases |events| - n
  {
    if n == |events| || StopsAt(a, events, n) then n else FirstStop(a, events, n + 1)
  }

  predicate SeesCompleted(events: seq<Event>) {
    exists n | 0 <= n < |events| :: events[n].CompletedEvent?
  }

  /** How the worker leaves, given what the client yielded. */
  function ExitOf(reading: Reading, a: StoreAnswers): Exit
    requires Answered(a, reading.events)
  {
    var events := reading.events;
    FirstStopIsFirst(a, events, 0);
    var n := FirstStop(a, events, 0);
    if n < |events| then
      if a.cancelled[n] then FinishCancelled
      else if events[n].FailedEvent? then Handle(ErrorOfEvent(events[n]), a)
      else Superseded
    else if reading.end.Terminal? && SeesCompleted(events) then FinishCompleted
    else Handle(CallFailure(reading.end), a)
  }

  lemma {:induction false} FirstStopIsFirst(a: StoreAnswers, events: seq<Event>, n: nat)
    requires Answered(a, events) && n <= |events|
    ensures var s := FirstStop(a, events, n);
            && n <= s <= |events|
            && (s < |events| ==> StopsAt(a, events, s))
            && forall m | n <= m < s :: !StopsAt(a, events, m)
    decreases |events| - n
  {
    if n < |events| && !StopsAt(a, events, n) {
      FirstStopIsFirst(a, events, n + 1);
    }
  }

  /** The event loop of the worker over what the client yields. */
  method Execute(reading: Reading, a: StoreAnswers) returns (exit: Exit)
    requires Answered(a, reading.events)
    ensures exit == ExitOf(reading, a)
  {
    var events := reading.events;
    var terminal := false;
    for n := 0 to |events|
      invariant FirstStop(a, events, 0) == FirstStop(a, events, n)
      invariant terminal <==> exists m | 0 <= m < n :: events[m].CompletedEvent?
    {
      if a.cancelled[n] {
        return FinishCancelled;
      }
      match events[n]
      case PhaseEvent(_) =>
        if !a.accepted[n] {
          return Superseded;
        }
      case BlobEvent(_, _, _, _, _) =>
        if !a.accepted[n] {
          return Superseded;
        }
      case FailedEvent(_, _, _, _) =>
        return Handle(ErrorOfEvent(events[n]), a);
      case CompletedEvent(_) =>
        terminal := true;
      case OtherEvent(_) =>
    }
    if !reading.end.Terminal? || !terminal {
      return Handle(CallFailure(reading.end), a);
    }
    exit := FinishCompleted;
  }

  /** The worker finishes a job as completed exactly when nothing stopped it and the client's
      reading ended with a terminal event and contained a completed one. */
  lemma CompletesIff(reading: Reading, a: StoreAnswers)
    requires Answered(a, reading.events)
    ensures ExitOf(reading, a) == FinishCompleted
       <==> && (forall n | 0 <= n < |reading.events| :: !StopsAt(a, reading.events, n))
            && reading.end.Terminal? && SeesCompleted(reading.events)
  {
    FirstStopIsFirst(a, reading.events, 0);
  }

  /** A cancellation seen at any event keeps the worker from completing the job. */
  lemma CancelledNeverCompletes(reading: Reading, a: StoreAnswers)
    requires Answered(a, reading.events) && exists n | 0 <= n < |a.cancelled| :: a.cancelled[n]
    ensures ExitOf(reading, a) != FinishCompleted
  {
    CompletesIff(reading, a);
    var n :| 0 <= n < |a.cancelled| && a.cancelled[n];
    assert StopsAt(a, reading.events, n);
  }

  /** What becomes of a refused copy: the worker cancels the job if that is requested, and
      otherwise records a failure, which is retried exactly if the service was at its limit and
      the job is strictly within its timeouts. */
  lemma RefusalRetriedIff(q: CopyRequest, r: Responses, parse: Parser, chunks: seq<Bytes>, broken: bool, a: StoreAnswers,
                          row: Job, clock1: Time, clock2: Time, jitter: int, cfg: FailurePolicy.Config)
    requires CopyAnswer(q, r).Refused? && Answered(a, [])
    ensures match ExitOf(ClientReading(CopyAnswer(q, r), parse, chunks, broken), a)
            case FinishCancelled => a.cancelledAtFailure
            case RecordFailure(e) =>
              && !a.cancelledAtFailure && e.code == CopyAnswer(q, r).code
              && (FailurePolicy.Decision(row, e, clock1, clock2, jitter, cfg).retryable
                  <==> && WellFormed(q) && r.maximum <= |r.running|
                       && clock1 < row.lastProgressAt + cfg.noProgressTimeout
                       && (cfg.overallTimeout != 0 && row.startedAt.Some? ==>
                             clock2 < row.startedAt.value + cfg.overallTimeout))
            case _ => false
  {
    RetryableRefusalIff(q, r);
    var answer := CopyAnswer(q, r);
    var e := FailurePolicy.TransferError(answer.code, answer.message, answer.retryable, None);
    FailurePolicy.RetriedIff(row, e, clock1, clock2, jitter, cfg);
  }

  // ----- end to end ------------------------------------------------------------------------

  /** A list of events as the service emits them: one terminal event, at the end. */
  predicate EndsOnce(events: seq<Event>) {
    && events != [] && events[|events| - 1].IsTerminal()
    && forall k | 0 <= k < |events| - 1 :: !events[k].IsTerminal()
  }

  lemma {:induction false} LastIsTheOnlyTerminal(events: seq<Event>)
    requires EndsOnce(events)
    ensures UpToTerminal(events) == events && HasTerminal(events)
    decreases |events|
  {
    assert events[|events| - 1] in events;
    if |events| > 1 {
      RestEndsOnce(events);
      LastIsTheOnlyTerminal(events[1..]);
      assert !events[0].IsTerminal();
      assert events == [events[0]] + events[1..];
    }
  }

  lemma RestEndsOnce(events: seq<Event>)
    requires EndsOnce(events) && |events| > 1
    ensures EndsOnce(events[1..])
  {
    forall k | 0 <= k < |events[1..]|
      ensures events[1..][k] == events[k + 1]
    {
    }
  }

  /** What arrives of such a stream, in whatever chunks: a reading that ends with a terminal
      event is the whole of it. */
  lemma PartlyDelivered(parse: Parser, encode: Encoder, events: seq<Event>, arrived: nat, chunks: seq<Bytes>, broken: bool)
    requires EndsOnce(events)
    requires forall e | e in events :: Framed(parse, encode, e) && PrefixFree(parse, encode, e)
    requires arrived <= |Encode(encode, events)| && Concat(chunks) == Encode(encode, events)[..arrived]
    ensures ReadChunks(parse, chunks, broken).end.Terminal? ==> ReadChunks(parse, chunks, broken).events == events
  {
    LastIsTheOnlyTerminal(events);
    TruncationForgesNothing(parse, encode, events, arrived, Ending(LastChunkOpen(chunks), broken));
  }

  lemma WhollyDelivered(parse: Parser, encode: Encoder, events: seq<Event>, chunks: seq<Bytes>, broken: bool)
    requires EndsOnce(events) && forall e | e in events :: Framed(parse, encode, e)
    requires Concat(chunks) == Encode(encode, events)
    ensures ReadChunks(parse, chunks, broken) == Reading(events, Terminal)
  {
    LastIsTheOnlyTerminal(events);
    RoundTrip(parse, encode, events, Ending(LastChunkOpen(chunks), broken));
  }

  /** A worker that reads such a list to its end completes the job only if the list ends so. */
  lemma CompletesOnlyIfLast(events: seq<Event>, reading: Reading, a: StoreAnswers)
    requires EndsOnce(events) && Answered(a, reading.events)
    requires reading.end.Terminal? ==> reading.events == events
    requires ExitOf(reading, a) == FinishCompleted
    ensures reading.events == events && events[|events| - 1].CompletedEvent?
  {
    CompletesIff(reading, a);
    var n :| 0 <= n < |events| && events[n].CompletedEvent?;
  }

  lemma CompletesIfLast(events: seq<Event>, a: StoreAnswers)
    requires EndsOnce(events) && Answered(a, events) && events[|events| - 1].CompletedEvent?
    requires forall n | 0 <= n < |events| :: !a.cancelled[n] && a.accepted[n]
    ensures ExitOf(Reading(events, Terminal), a) == FinishCompleted
  {
    CompletesIff(Reading(events, Terminal), a);
    assert forall n | 0 <= n < |events| - 1 :: !events[n].FailedEvent?;
  }

  /** Whatever part of the service's bytes arrives and however it is chunked: if the worker
      then finishes the job as completed, this very operation had verified the destination. */
  lemma CompletedMeansVerified(q: CopyRequest, r: Responses, parse: Parser, encode: Encoder, arrived: nat,
                               chunks: seq<Bytes>, broken: bool, a: StoreAnswers)
    requires CopyAnswer(q, r).Streamed?
    requires forall e | e in CopyAnswer(q, r).events :: Framed(parse, encode, e) && PrefixFree(parse, encode, e)
    requires arrived <= |Encode(encode, CopyAnswer(q, r).events)|
    requires Concat(chunks) == Encode(encode, CopyAnswer(q, r).events)[..arrived]
    requires Answered(a, ReadChunks(parse, chunks, broken).events)
    requires ExitOf(ReadChunks(parse, chunks, broken), a) == FinishCompleted
    ensures r.copyError.None? && Verified(q, r)
    ensures ReadChunks(parse, chunks, broken).events == CopyAnswer(q, r).events
  {
    OneTerminalEvent(q, r);
    PartlyDelivered(parse, encode, CopyAnswer(q, r).events, arrived, chunks, broken);
    CompletesOnlyIfLast(CopyAnswer(q, r).events, ReadChunks(parse, chunks, broken), a);
    CompletedIffVerified(q, r);
  }

  /** And the other way: if the copy succeeded and was verified, everything arrived, and no one
      cancelled or superseded the worker, then it finishes the job as completed. */
  lemma VerifiedCompletes(q: CopyRequest, r: Responses, parse: Parser, encode: Encoder, chunks: seq<Bytes>, broken: bool, a: StoreAnswers)
    requires CopyAnswer(q, r).Streamed? && r.copyError.None? && Verified(q, r)
    requires forall e | e in CopyAnswer(q, r).events :: Framed(parse, encode, e)
    requires Concat(chunks) == Encode(encode, CopyAnswer(q, r).events)
    requires Answered(a, CopyAnswer(q, r).events)
    requires forall n | 0 <= n < |a.cancelled| :: !a.cancelled[n] && a.accepted[n]
    ensures ReadChunks(parse, chunks, broken).events == CopyAnswer(q, r).events
    ensures ExitOf(ReadChunks(parse, chunks, broken), a) == FinishCompleted
  {
    OneTerminalEvent(q, r);
    CompletedIffVerified(q, r);
    WhollyDelivered(parse, encode, CopyAnswer(q, r).events, chunks, broken);
    CompletesIfLast(CopyAnswer(q, r).events, a);
  }

  /** Both together: when everything arrives and no one interferes, the worker finishes the job
      as completed exactly if the copy succeeded and this operation verified the destination. */
  lemma CompletesIffVerified(q: CopyRequest, r: Responses, parse: Parser, encode: Encoder, chunks: seq<Bytes>, broken: bool,
                             a: StoreAnswers)
    requires CopyAnswer(q, r).Streamed?
    requires forall e | e in CopyAnswer(q, r).events :: Framed(parse, encode, e)
    requires Concat(chunks) == Encode(encode, CopyAnswer(q, r).events)
    requires Answered(a, CopyAnswer(q, r).events)
    requires forall n | 0 <= n < |a.cancelled| :: !a.cancelled[n] && a.accepted[n]
    ensures ReadChunks(parse, chunks, broken) == Reading(CopyAnswer(q, r).events, Terminal)
    ensures ExitOf(ReadChunks(parse, chunks, broken), a) == FinishCompleted <==> r.copyError.None? && Verified(q, r)
  {
    var events := CopyAnswer(q, r).events;
    OneTerminalEvent(q, r);
    CompletedIffVerified(q, r);
    WhollyDelivered(parse, encode, events, chunks, broken);
    if events[|events| - 1].CompletedEvent? {
      CompletesIfLast(events, a);
    } else if ExitOf(Reading(events, Terminal), a) == FinishCompleted {
      CompletesOnlyIfLast(events, Reading(events, Terminal), a);
    }
  }
}
