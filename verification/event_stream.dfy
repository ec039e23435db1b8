/** The event stream: newline-delimited events, decoded incrementally from chunks of any size. */
module EventStream {
  import opened QueueTypes

  newtype byte = x: int | 0 <= x < 256

  type Bytes = seq<byte>

  const NEWLINE: byte := 10

  /** The longest event line the client accepts. */
  const MAX_EVENT: nat := 256 * 1024

  /** A decoded event: the kinds the worker tells apart, and any other. */
  datatype Event =
    | PhaseEvent(phase: Phase)
    | BlobEvent(digest: Digest, offset: int, network: Option<int>, disposition: Disposition, rate: Option<int>)
    | CompletedEvent(digest: Digest)
    | FailedEvent(code: string, message: string, retryable: bool, retryAfter: Option<int>)
    | OtherEvent(kind: string)
  {
    predicate IsTerminal() {
      CompletedEvent? || FailedEvent?
    }
  }

  /** How a copy call of the client ends: with a terminal event, with one of three protocol
      errors, with a broken connection, or with a refusal before any event. */
  datatype End =
    | Terminal
    | Oversized
    | BadEvent
    | NoResult
    | Unavailable
    | Rejected(code: string, message: string, retryable: bool)

  datatype Reading = Reading(events: seq<Event>, end: End)

  /** Decoding of one line; nothing when it is not an event of this protocol version. */
  type Parser = Bytes -> Option<Event>

  // ----- lines -----------------------------------------------------------------------------

  /** The position of the first newline, or the length. */
  function LineEnd(s: Bytes): (k: nat)
    ensures k <= |s|
    ensures k < |s| ==> s[k] == NEWLINE
    ensures forall m | 0 <= m < k :: s[m] != NEWLINE
  {
    if s == [] || s[0] == NEWLINE then 0 else 1 + LineEnd(s[1..])
  }

  lemma {:induction false} LineEndOfConcat(p: Bytes, q: Bytes)
    ensures LineEnd(p + q) == if NEWLINE in p then LineEnd(p) else |p| + LineEnd(q)
    decreases |p|
  {
    if p == [] {
      assert p + q == q;
    } else {
      assert (p + q)[1..] == p[1..] + q && p == [p[0]] + p[1..];
      LineEndOfConcat(p[1..], q);
    }
  }

  // ----- the one-shot reading --------------------------------------------------------------

  function Prepend(events: seq<Event>, r: Reading): Reading {
    Reading(events + r.events, r.end)
  }

  /** One line: its event, then whatever follows unless the event is terminal. */
  function ReadLine(parse: Parser, line: Bytes, next: Reading): Reading {
    match parse(line)
    case None => Reading([], BadEvent)
    case Some(e) => if e.IsTerminal() then Reading([e], Terminal) else Prepend([e], next)
  }

  /** How the bytes of a stream end: whether the text after the last newline was held to the size
      limit, and whether the connection broke there. */
  datatype Ending = Ending(checked: bool, broken: bool)

  /** Reading a whole stream in one go: lines in order up to the first terminal event or error. */
  function ReadAll(parse: Parser, s: Bytes, how: Ending): Reading
    decreases |s|
  {
    var k := LineEnd(s);
    if k < |s| then
      if k > MAX_EVENT then Reading([], Oversized)
      else ReadLine(parse, s[..k], ReadAll(parse, s[k + 1..], how))
    else if how.checked && |s| > MAX_EVENT then Reading([], Oversized)
    else if how.broken then Reading([], Unavailable)
    else if s == [] then Reading([], NoResult)
    else ReadLine(parse, s, Reading([], NoResult))
  }

  /** The bytes of the chunks from the `n`th on. */
  function ConcatFrom(chunks: seq<Bytes>, n: nat): Bytes
    requires n <= |chunks|
    decreases |chunks| - n
  {
    if n == |chunks| then [] else chunks[n] + ConcatFrom(chunks, n + 1)
  }

  function Concat(chunks: seq<Bytes>): Bytes {
    ConcatFrom(chunks, 0)
  }

  /** The last chunk brought no newline, so the limit was checked against the open line. */
  predicate LastChunkOpen(chunks: seq<Bytes>) {
    chunks != [] && NEWLINE !in chunks[|chunks| - 1]
  }

  /** What the chunked decoder computes. */
  function ReadChunks(parse: Parser, chunks: seq<Bytes>, broken: bool): Reading {
    ReadAll(parse, Concat(chunks), Ending(LastChunkOpen(chunks), broken))
  }

  // ----- the incremental decoder -----------------------------------------------------------

  lemma {:induction false} NoNewlineConcat(chunks: seq<Bytes>, n: nat)
    requires n < |chunks| && NEWLINE !in ConcatFrom(chunks, n)
    ensures LastChunkOpen(chunks)
    decreases |chunks| - n
  {
    if n + 1 < |chunks| {
      NoNewlineConcat(chunks, n + 1);
    }
  }

  /** An open line beyond the limit can only end as an oversized event. */
  lemma OpenLineOverflows(parse: Parser, p: Bytes, q: Bytes, how: Ending)
    requires NEWLINE !in p && |p| > MAX_EVENT
    requires NEWLINE in q || how.checked
    ensures ReadAll(parse, p + q, how) == Reading([], Oversized)
  {
    LineEndOfConcat(p, q);
  }

  lemma PrependTwice(a: seq<Event>, b: seq<Event>, r: Reading)
    ensures Prepend(a, Prepend(b, r)) == Prepend(a + b, r)
  {
    assert a + (b + r.events) == (a + b) + r.events;
  }

  /** The next whole line of the pending bytes. */
  lemma NextLine(parse: Parser, pending: Bytes, rest: Bytes, how: Ending)
    requires NEWLINE in pending
    ensures var k := LineEnd(pending);
            && k < |pending|
            && ReadAll(parse, pending + rest, how)
            == if k > MAX_EVENT then Reading([], Oversized)
               else ReadLine(parse, pending[..k], ReadAll(parse, pending[k + 1..] + rest, how))
  {
    LineEndOfConcat(pending, rest);
    LineEndOfConcat(pending, []);
    var k := LineEnd(pending);
    assert pending + [] == pending;
    assert (pending + rest)[..k] == pending[..k];
    assert (pending + rest)[k + 1..] == pending[k + 1..] + rest;
  }

  lemma FirstChunk(parse: Parser, chunks: seq<Bytes>, broken: bool)
    ensures ReadChunks(parse, chunks, broken)
         == Prepend([], ReadAll(parse, [] + ConcatFrom(chunks, 0), Ending(LastChunkOpen(chunks), broken)))
  {
    var whole := Concat(chunks);
    assert [] + whole == whole;
    PrependNone(ReadChunks(parse, chunks, broken));
  }

  lemma PrependNone(r: Reading)
    ensures Prepend([], r) == r
  {
    assert [] + r.events == r.events;
  }

  /** The next chunk joins the pending bytes. */
  lemma NextChunk(pending: Bytes, chunks: seq<Bytes>, n: nat)
    requires n < |chunks|
    ensures pending + ConcatFrom(chunks, n) == (pending + chunks[n]) + ConcatFrom(chunks, n + 1)
  {
  }

  /** The early check is never too early. */
  lemma EarlyCheck(parse: Parser, pending: Bytes, chunks: seq<Bytes>, n: nat, broken: bool)
    requires n < |chunks| && NEWLINE !in chunks[n] && NEWLINE !in pending && |pending| > MAX_EVENT
    ensures ReadAll(parse, pending + ConcatFrom(chunks, n + 1), Ending(LastChunkOpen(chunks), broken)) == Reading([], Oversized)
  {
    if NEWLINE !in ConcatFrom(chunks, n + 1) {
      LaterChunksOpen(chunks, n);
    }
    OpenLineOverflows(parse, pending, ConcatFrom(chunks, n + 1), Ending(LastChunkOpen(chunks), broken));
  }

  /** The text left at the end of the stream. */
  lemma LastText(parse: Parser, pending: Bytes, how: Ending)
    requires NEWLINE !in pending && (how.checked ==> |pending| <= MAX_EVENT)
    ensures ReadAll(parse, pending, how)
         == if how.broken then Reading([], Unavailable)
            else if pending == [] then Reading([], NoResult) else ReadLine(parse, pending, Reading([], NoResult))
  {
  }

  /** The inner loop: takes whole lines off the pending bytes until none is left, or until one
      of them ends the reading. */
  method DrainLines(parse: Parser, start: Bytes, ghost rest: Bytes, ghost how: Ending)
    returns (events: seq<Event>, end: Option<End>, pending: Bytes)
    ensures match end
            case Some(e) => ReadAll(parse, start + rest, how) == Reading(events, e)
            case None =>
              && NEWLINE !in pending
              && ReadAll(parse, start + rest, how) == Prepend(events, ReadAll(parse, pending + rest, how))
              && (NEWLINE !in start ==> pending == start)
  {
    pending, events := start, [];
    while NEWLINE in pending
      invariant ReadAll(parse, start + rest, how) == Prepend(events, ReadAll(parse, pending + rest, how))
      invariant NEWLINE !in start ==> pending == start
      decreases |pending|
    {
      NextLine(parse, pending, rest, how);
      var k := LineEnd(pending);
      var line := pending[..k];
      pending := pending[k + 1..];
      if |line| > MAX_EVENT {
        return events, Some(Oversized), pending;
      }
      var event := parse(line);
      if event.None? {
        return events, Some(BadEvent), pending;
      }
      PrependTwice(events, [event.value], ReadAll(parse, pending + rest, how));
      events := events + [event.value];
      if event.value.IsTerminal() {
        return events, Some(Terminal), pending;
      }
    }
    end := None;
  }

  /** The client's chunk loop, over the chunks that arrive until the stream is closed or breaks.
      It computes the one-shot reading of the bytes, whatever the chunks. */
  method Decode(parse: Parser, chunks: seq<Bytes>, broken: bool) returns (events: seq<Event>, end: End)
    ensures Reading(events, end) == ReadChunks(parse, chunks, broken)
  {
    ghost var how := Ending(LastChunkOpen(chunks), broken);
    var pending: Bytes := [];
    events := [];
    FirstChunk(parse, chunks, broken);
    for n := 0 to |chunks|
      invariant NEWLINE !in pending
      invariant n > 0 && NEWLINE !in chunks[n - 1] ==> |pending| <= MAX_EVENT
      invariant ReadChunks(parse, chunks, broken) == Prepend(events, ReadAll(parse, pending + ConcatFrom(chunks, n), how))
    {
      NextChunk(pending, chunks, n);
      pending := pending + chunks[n];
      if |pending| > MAX_EVENT && NEWLINE !in pending {
        EarlyCheck(parse, pending, chunks, n, broken);
        return events, Oversized;
      }
      ghost var rest := ConcatFrom(chunks, n + 1);
      var more, stop, left := DrainLines(parse, pending, rest, how);
      PrependTwice(events, more, ReadAll(parse, left + rest, how));
      events, pending := events + more, left;
      if stop.Some? {
        return events, stop.value;
      }
    }
    assert pending + ConcatFrom(chunks, |chunks|) == pending;
    LastText(parse, pending, how);
    if broken {
      return events, Unavailable;
    }
    if pending != [] {
      var event := parse(pending);
      if event.None? {
        return events, BadEvent;
      }
      PrependTwice(events, [event.value], Reading([], NoResult));
      events := events + [event.value];
      if event.value.IsTerminal() {
        return events, Terminal;
      }
    }
    return events, NoResult;
  }

  lemma LaterChunksOpen(chunks: seq<Bytes>, n: nat)
    requires n < |chunks| && NEWLINE !in chunks[n] && NEWLINE !in ConcatFrom(chunks, n + 1)
    ensures LastChunkOpen(chunks)
  {
    if n + 1 < |chunks| {
      NoNewlineConcat(chunks, n + 1);
    }
  }

  // ----- independence of the chunking ------------------------------------------------------

  /** What follows the last newline. */
  function Tail(s: Bytes): Bytes
    decreases |s|
  {
    var k := LineEnd(s);
    if k < |s| then Tail(s[k + 1..]) else s
  }

  /** No terminal event and no error before the last newline. */
  predicate ReachesTail(parse: Parser, s: Bytes)
    decreases |s|
  {
    var k := LineEnd(s);
    k < |s| ==>
      && k <= MAX_EVENT
      && parse(s[..k]).Some? && !parse(s[..k]).value.IsTerminal()
      && ReachesTail(parse, s[k + 1..])
  }

  /** The guard on the tail matters exactly when the reading gets as far as an over-long tail. */
  lemma {:induction false} GuardMatters(parse: Parser, s: Bytes, broken: bool)
    ensures ReadAll(parse, s, Ending(true, broken)) != ReadAll(parse, s, Ending(false, broken))
       <==> ReachesTail(parse, s) && |Tail(s)| > MAX_EVENT
    decreases |s|
  {
    var k := LineEnd(s);
    if k < |s| {
      var rest := s[k + 1..];
      GuardMatters(parse, rest, broken);
      if k <= MAX_EVENT && parse(s[..k]).Some? && !parse(s[..k]).value.IsTerminal() {
        var e := parse(s[..k]).value;
        var a, b := ReadAll(parse, rest, Ending(true, broken)), ReadAll(parse, rest, Ending(false, broken));
        assert a.events == ([e] + a.events)[1..] && b.events == ([e] + b.events)[1..];
      }
    }
  }

  /** Chunking independence: if what follows the last newline is within the limit, every split
      of the same bytes gives the same events and the same end. */
  lemma ChunkingIsIrrelevant(parse: Parser, a: seq<Bytes>, b: seq<Bytes>, broken: bool)
    requires Concat(a) == Concat(b) && |Tail(Concat(a))| <= MAX_EVENT
    ensures ReadChunks(parse, a, broken) == ReadChunks(parse, b, broken)
  {
    GuardMatters(parse, Concat(a), broken);
  }

  /** A stream with a newline, split where its tail begins. */
  lemma {:induction false} TailAndHead(s: Bytes) returns (head: Bytes)
    requires NEWLINE in s
    ensures s == head + Tail(s) && NEWLINE !in Tail(s)
    decreases |s|
  {
    var k := LineEnd(s);
    NewlineAhead(s);
    var line, rest := s[..k + 1], s[k + 1..];
    assert s == line + rest;
    if NEWLINE in rest {
      var h := TailAndHead(rest);
      head := line + h;
      assert line + (h + Tail(rest)) == (line + h) + Tail(rest);
    } else {
      head := line;
      NoLineEnd(rest);
    }
  }

  lemma NewlineAhead(s: Bytes)
    requires NEWLINE in s
    ensures LineEnd(s) < |s|
  {
  }

  lemma NoLineEnd(s: Bytes)
    requires NEWLINE !in s
    ensures LineEnd(s) == |s| && Tail(s) == s
  {
  }

  lemma ConcatPair(a: Bytes, b: Bytes)
    ensures Concat([a]) == a && Concat([a, b]) == a + b
  {
    assert ConcatFrom([a], 1) == [] && ConcatFrom([a, b], 2) == [];
    assert ConcatFrom([a, b], 1) == b + [];
  }

  /** When the split matters, two splits that show it: everything at once, and cut before the tail. */
  lemma SplitsThatDiffer(parse: Parser, s: Bytes, broken: bool) returns (a: seq<Bytes>, b: seq<Bytes>)
    requires NEWLINE in s && ReachesTail(parse, s) && |Tail(s)| > MAX_EVENT
    ensures Concat(a) == s && Concat(b) == s && ReadChunks(parse, a, broken) != ReadChunks(parse, b, broken)
  {
    GuardMatters(parse, s, broken);
    var head := TailAndHead(s);
    a, b := [s], [head, Tail(s)];
    ConcatPair(s, []);
    ConcatPair(head, Tail(s));
  }

  /** Without a newline the limit is checked in every split. */
  lemma AlwaysOpen(a: seq<Bytes>, b: seq<Bytes>)
    requires Concat(a) == Concat(b) && Concat(a) != [] && NEWLINE !in Concat(a)
    ensures LastChunkOpen(a) && LastChunkOpen(b)
  {
    NoNewlineConcat(a, 0);
    NoNewlineConcat(b, 0);
  }

  /** Exactly when the split does matter: the stream has a newline, its reading gets as far as
      the last one, and what follows is over the limit. */
  lemma ChunkingMattersIff(parse: Parser, s: Bytes, broken: bool)
    ensures (exists a, b :: Concat(a) == s && Concat(b) == s && ReadChunks(parse, a, broken) != ReadChunks(parse, b, broken))
       <==> NEWLINE in s && ReachesTail(parse, s) && |Tail(s)| > 262144
  {
    if NEWLINE in s && ReachesTail(parse, s) && |Tail(s)| > MAX_EVENT {
      var a, b := SplitsThatDiffer(parse, s, broken);
    }
    forall a, b | Concat(a) == s && Concat(b) == s && ReadChunks(parse, a, broken) != ReadChunks(parse, b, broken)
      ensures NEWLINE in s && ReachesTail(parse, s) && |Tail(s)| > MAX_EVENT
    {
      GuardMatters(parse, s, broken);
      if NEWLINE !in s && s != [] {
        AlwaysOpen(a, b);
      }
    }
  }

  // ----- the round trip --------------------------------------------------------------------

  type Encoder = Event -> Bytes

  /** The encoder writes an event on one line of acceptable length that decodes to the event. */
  predicate Framed(parse: Parser, encode: Encoder, e: Event) {
    parse(encode(e)) == Some(e) && NEWLINE !in encode(e) && 0 < |encode(e)| <= MAX_EVENT
  }

  /** What the service writes: one line an event. */
  function Encode(encode: Encoder, events: seq<Event>): Bytes {
    if events == [] then [] else encode(events[0]) + [NEWLINE] + Encode(encode, events[1..])
  }

  /** The events up to and including the first terminal one. */
  function UpToTerminal(events: seq<Event>): seq<Event> {
    if events == [] then []
    else if events[0].IsTerminal() then [events[0]]
    else [events[0]] + UpToTerminal(events[1..])
  }

  predicate HasTerminal(events: seq<Event>) {
    exists e | e in events :: e.IsTerminal()
  }

  /** Reading the start of a line that goes on. */
  lemma ReadOneLine(parse: Parser, line: Bytes, rest: Bytes, how: Ending)
    requires NEWLINE !in line && |line| <= MAX_EVENT
    ensures ReadAll(parse, line + [NEWLINE] + rest, how) == ReadLine(parse, line, ReadAll(parse, rest, how))
  {
    var s := line + [NEWLINE] + rest;
    assert s == line + ([NEWLINE] + rest);
    LineEndOfConcat(line, [NEWLINE] + rest);
    assert LineEnd([NEWLINE] + rest) == 0;
    assert s[..|line|] == line && s[|line| + 1..] == rest;
  }

  /** Round trip: from what the service writes, the client reads the events up to the first
      terminal one, and reports a result exactly when there is one. */
  lemma {:induction false} RoundTrip(parse: Parser, encode: Encoder, events: seq<Event>, how: Ending)
    requires forall e | e in events :: Framed(parse, encode, e)
    ensures ReadAll(parse, Encode(encode, events), how)
         == Reading(UpToTerminal(events), if HasTerminal(events) then Terminal else if how.broken then Unavailable else NoResult)
    decreases |events|
  {
    if events != [] {
      var e := events[0];
      assert e in events && events == [e] + events[1..];
      RoundTrip(parse, encode, events[1..], how);
      ReadOneLine(parse, encode(e), Encode(encode, events[1..]), how);
      assert HasTerminal(events) <==> e.IsTerminal() || HasTerminal(events[1..]);
    }
  }

  /** No strict beginning of the event's line decodes to anything. */
  predicate PrefixFree(parse: Parser, encode: Encoder, e: Event) {
    forall k | 0 <= k < |encode(e)| :: parse(encode(e)[..k]).None?
  }

  /** A stream cut off anywhere, even inside a line, yields only events that were written, in
      order, and a result only if the whole of it had arrived. */
  lemma {:induction false} TruncationForgesNothing(parse: Parser, encode: Encoder, events: seq<Event>, n: nat, how: Ending)
    requires forall e | e in events :: Framed(parse, encode, e) && PrefixFree(parse, encode, e)
    requires n <= |Encode(encode, events)|
    ensures var r := ReadAll(parse, Encode(encode, events)[..n], how);
            && r.events <= UpToTerminal(events)
            && (r.end.Terminal? ==> r.events == UpToTerminal(events) && HasTerminal(events))
    decreases |events|
  {
    if events != [] {
      var e := events[0];
      assert e in events && events == [e] + events[1..];
      var line, rest := encode(e), Encode(encode, events[1..]);
      var s := Encode(encode, events);
      assert s == line + [NEWLINE] + rest;
      if n <= |line| {
        assert s[..n] == line[..n];
        assert NEWLINE !in line[..n] && LineEnd(line[..n]) == n;
        assert n == |line| ==> line[..n] == line;
        assert ReadAll(parse, s[..n], how).events <= [e];
      } else {
        var m := n - |line| - 1;
        assert s[..n] == line + [NEWLINE] + rest[..m];
        ReadOneLine(parse, line, rest[..m], how);
        TruncationForgesNothing(parse, encode, events[1..], m, how);
      }
      assert HasTerminal(events) <==> e.IsTerminal() || HasTerminal(events[1..]);
    }
  }

  /** A reading ends with a terminal event exactly if it contains one, and is no refusal. */
  lemma {:induction false} EndsIfTerminal(parse: Parser, s: Bytes, how: Ending)
    ensures ReadAll(parse, s, how).end.Terminal? <==> HasTerminal(ReadAll(parse, s, how).events)
    ensures !ReadAll(parse, s, how).end.Rejected?
    decreases |s|
  {
    var k := LineEnd(s);
    if k < |s| {
      var rest := ReadAll(parse, s[k + 1..], how);
      EndsIfTerminal(parse, s[k + 1..], how);
      LineEnds(parse, s[..k], rest);
    } else {
      LineEnds(parse, s, Reading([], NoResult));
    }
  }

  lemma LineEnds(parse: Parser, line: Bytes, next: Reading)
    requires next.end.Terminal? <==> HasTerminal(next.events)
    ensures ReadLine(parse, line, next).end.Terminal? <==> HasTerminal(ReadLine(parse, line, next).events)
  {
    if parse(line).Some? {
      var e := parse(line).value;
      assert HasTerminal([e] + next.events) <==> e.IsTerminal() || HasTerminal(next.events) by {
        if HasTerminal(next.events) {
          var x :| x in next.events && x.IsTerminal();
          assert x in [e] + next.events;
        }
        if e.IsTerminal() {
          assert e in [e] + next.events;
        }
      }
      assert e.IsTerminal() ==> e in [e];
    }
  }
}
