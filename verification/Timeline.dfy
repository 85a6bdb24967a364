/**
 Validation of a captured two-direction timeline (`_parse_timeline` of the canonical
 adapter). Events are taken after JSON decoding; `digest` stands for SHA-256 of bytes and
 `seal` for SHA-256 of the canonical form of an event body.
 */
module Timeline {
  import opened Options

  newtype Byte = x: int | 0 <= x < 256
  type Bytes = seq<Byte>
  type Hash = nat

  datatype Direction = ClientToDevice | DeviceToClient
  datatype Kind = Data | Eof

  datatype PerDirection<T> = PerDirection(client: T, device: T) {
    function Of(d: Direction): T {
      if d == ClientToDevice then client else device
    }
  }

  function Set<T>(p: PerDirection<T>, d: Direction, value: T): PerDirection<T> {
    if d == ClientToDevice then p.(client := value) else p.(device := value)
  }

  /** One decoded timeline line without its own hash; an unsupported direction or kind is absent. */
  datatype Body = Body(
    previousHash: Option<Hash>,
    schemaVersion: int,
    identity: (string, string, string),  // session, job, device
    sequence: int,
    observedSequence: int,
    direction: Option<Direction>,
    directionSequence: int,
    kind: Option<Kind>,
    offset: int,
    length: int,
    payloadHash: Hash,
    forwarded: bool)

  datatype Event = Event(body: Body, eventHash: Hash)

  datatype Chunk = Chunk(
    sequence: int,
    direction: Direction,
    offset: int,
    byteCount: int,
    sha256: Hash,
    forwarded: bool,
    observedSequence: int,
    directionSequence: int,
    kind: Kind)

  datatype Manifest = Manifest(
    timelineEvents: int,
    lastHash: Option<Hash>,
    capturedBytes: PerDirection<int>,
    coveredBytes: Option<PerDirection<int>>,
    capturedChunks: PerDirection<int>,
    eofEvents: PerDirection<int>,
    complete: bool)

  /** What the validator is given besides the events. */
  datatype Capture = Capture(
    raw: PerDirection<Bytes>,
    identity: (string, string, string),
    manifest: Manifest,
    allowTrailingRaw: bool,
    digest: Bytes -> Hash,
    seal: Body -> Hash)

  const MAX_INT := 0x7fff_ffff_ffff_ffff
  const MAX_TIMELINE_EVENTS := 100_000

  predicate IsInt(v: int) {
    0 <= v <= MAX_INT
  }

  // Running totals over the chunks accepted so far.

  function Covered(chunks: seq<Chunk>, d: Direction): int {
    if chunks == [] then 0
    else
      var n := |chunks| - 1;
      Covered(chunks[..n], d) + (if chunks[n].direction == d && chunks[n].kind == Data then chunks[n].byteCount else 0)
  }

  function Count(chunks: seq<Chunk>, d: Direction, k: Kind): nat {
    if chunks == [] then 0
    else
      var n := |chunks| - 1;
      Count(chunks[..n], d, k) + (if chunks[n].direction == d && chunks[n].kind == k then 1 else 0)
  }

  predicate Observed(chunks: seq<Chunk>, observed: int) {
    exists i :: 0 <= i < |chunks| && chunks[i].observedSequence == observed
  }

  // When an event is acceptable, given the chunks before it.

  predicate WellBound(b: Body, c: Capture) {
    b.schemaVersion == 1 && b.identity == c.identity
  }

  predicate Placed(b: Body, before: seq<Chunk>) {
    && IsInt(b.sequence) && b.sequence == |before|
    && IsInt(b.observedSequence) && !Observed(before, b.observedSequence)
    && b.direction.Some?
    && IsInt(b.directionSequence)
    && b.directionSequence == Count(before, b.direction.value, Data) + Count(before, b.direction.value, Eof)
    && b.kind.Some?
  }

  predicate Addresses(b: Body, before: seq<Chunk>, c: Capture)
    requires b.direction.Some? && b.kind.Some?
  {
    var raw := c.raw.Of(b.direction.value);
    && IsInt(b.offset) && IsInt(b.length)
    && b.offset == Covered(before, b.direction.value)
    && b.offset + b.length <= |raw|
    && (b.kind.value == Eof ==> b.length == 0)
    && (b.kind.value == Data ==> b.length >= 1)
    && c.digest(raw[b.offset..b.offset + b.length]) == b.payloadHash
  }

  predicate EventOk(e: Event, previousHash: Option<Hash>, before: seq<Chunk>, c: Capture) {
    && c.seal(e.body) == e.eventHash
    && e.body.previousHash == previousHash
    && WellBound(e.body, c)
    && Placed(e.body, before)
    && Addresses(e.body, before, c)
  }

  function ToChunk(b: Body): Chunk
    requires b.direction.Some? && b.kind.Some?
  {
    Chunk(b.sequence, b.direction.value, b.offset, b.length, b.payloadHash, b.forwarded,
          b.observedSequence, b.directionSequence, b.kind.value)
  }

  /** The chunks of a prefix of acceptable events, or nothing when some event is not acceptable. */
  function Accepted(events: seq<Event>, c: Capture): Option<seq<Chunk>> {
    if events == [] then Some([])
    else
      var n := |events| - 1;
      var before := Accepted(events[..n], c);
      var previousHash := if n == 0 then None else Some(events[n - 1].eventHash);
      if before.Some? && EventOk(events[n], previousHash, before.value, c)
      then Some(before.value + [ToChunk(events[n].body)])
      else None
  }

  function Totals(chunks: seq<Chunk>, k: Kind): PerDirection<int> {
    PerDirection(Count(chunks, ClientToDevice, k), Count(chunks, DeviceToClient, k))
  }

  function CoveredTotals(chunks: seq<Chunk>): PerDirection<int> {
    PerDirection(Covered(chunks, ClientToDevice), Covered(chunks, DeviceToClient))
  }

  ghost predicate ManifestOk(events: seq<Event>, chunks: seq<Chunk>, c: Capture) {
    var m := c.manifest;
    && m.timelineEvents == |chunks|
    && m.lastHash == (if events == [] then None else Some(events[|events| - 1].eventHash))
    && m.capturedBytes == PerDirection(|c.raw.client|, |c.raw.device|)
    && (CoveredTotals(chunks) == m.capturedBytes ||
        (&& c.allowTrailingRaw && m.coveredBytes == Some(CoveredTotals(chunks))
         && CoveredTotals(chunks).client <= m.capturedBytes.client
         && CoveredTotals(chunks).device <= m.capturedBytes.device))
    && Totals(chunks, Data) == m.capturedChunks
    && Totals(chunks, Eof) == m.eofEvents
    && (m.complete ==> forall o :: Observed(chunks, o) <==> 0 <= o < |chunks|)
  }

  /** The timeline is acceptable as a whole. */
  ghost predicate Valid(events: seq<Event>, c: Capture) {
    && |events| <= MAX_TIMELINE_EVENTS
    && Accepted(events, c).Some?
    && ManifestOk(events, Accepted(events, c).value, c)
  }

  lemma {:induction false} AcceptedPrefix(events: seq<Event>, c: Capture, n: nat)
    requires n <= |events| && Accepted(events, c).Some?
    ensures Accepted(events[..n], c).Some?
    decreases |events| - n
  {
    if n < |events| {
      AcceptedPrefix(events, c, n + 1);
      assert events[..n + 1][..n] == events[..n];
    } else {
      assert events[..n] == events;
    }
  }

  /** The validator's counters. */
  datatype Tally = Tally(
    offsets: PerDirection<int>,
    directionSequences: PerDirection<int>,
    dataCounts: PerDirection<int>,
    eofCounts: PerDirection<int>,
    observedSequences: set<int>)

  function Advance(t: Tally, chunk: Chunk): Tally {
    var d := chunk.direction;
    var u := t.(directionSequences := Set(t.directionSequences, d, t.directionSequences.Of(d) + 1),
                observedSequences := t.observedSequences + {chunk.observedSequence});
    if chunk.kind == Data then
      u.(offsets := Set(u.offsets, d, u.offsets.Of(d) + chunk.byteCount),
         dataCounts := Set(u.dataCounts, d, u.dataCounts.Of(d) + 1))
    else
      u.(eofCounts := Set(u.eofCounts, d, u.eofCounts.Of(d) + 1))
  }

  ghost predicate Tallies(t: Tally, chunks: seq<Chunk>) {
    && t.offsets == CoveredTotals(chunks)
    && t.dataCounts == Totals(chunks, Data)
    && t.eofCounts == Totals(chunks, Eof)
    && (forall d :: t.directionSequences.Of(d) == Count(chunks, d, Data) + Count(chunks, d, Eof))
    && (forall o :: o in t.observedSequences <==> Observed(chunks, o))
  }

  lemma AdvanceTallies(t: Tally, chunks: seq<Chunk>, chunk: Chunk)
    requires Tallies(t, chunks)
    ensures Tallies(Advance(t, chunk), chunks + [chunk])
  {
    ObservedExtend(chunks, chunk);
    TotalsExtend(chunks, chunk);
  }

  /** The validator: it accepts exactly the valid timelines and returns their chunks. */
  method ParseTimeline(events: seq<Event>, c: Capture) returns (r: Result<seq<Chunk>, string>)
    ensures r.Ok? <==> Valid(events, c)
    ensures r.Ok? ==> Accepted(events, c) == Some(r.value)
  {
    if |events| > MAX_TIMELINE_EVENTS {
      return Err("event limit");
    }
    var zero := PerDirection(0, 0);
    var tally := Tally(zero, zero, zero, zero, {});
    var previousHash: Option<Hash> := None;
    var chunks: seq<Chunk> := [];
    for n := 0 to |events|
      invariant |chunks| == n
      invariant Accepted(events[..n], c) == Some(chunks)
      invariant previousHash == if n == 0 then None else Some(events[n - 1].eventHash)
      invariant Tallies(tally, chunks)
    {
      assert events[..n + 1][..n] == events[..n];
      var problem := CheckEvent(events[n], previousHash, chunks, c, tally);
      if problem.Some? {
        Rejected(events, c, n);
        return Err(problem.value);
      }
      var chunk := ToChunk(events[n].body);
      AdvanceTallies(tally, chunks, chunk);
      tally := Advance(tally, chunk);
      previousHash := Some(events[n].eventHash);
      chunks := chunks + [chunk];
    }
    assert events[..|events|] == events;
    var problem := CheckManifest(events, previousHash, chunks, c, tally);
    r := if problem.Some? then Err(problem.value) else Ok(chunks);
  }

  /** The closing checks against the manifest. */
  method CheckManifest(events: seq<Event>, previousHash: Option<Hash>, chunks: seq<Chunk>, c: Capture, t: Tally)
    returns (problem: Option<string>)
    requires Tallies(t, chunks)
    requires previousHash == if events == [] then None else Some(events[|events| - 1].eventHash)
    ensures problem.None? <==> ManifestOk(events, chunks, c)
  {
    var m := c.manifest;
    if m.timelineEvents != |chunks| { return Some("event count differs from manifest"); }
    if m.lastHash != previousHash { return Some("timeline head differs from manifest"); }
    if m.capturedBytes != PerDirection(|c.raw.client|, |c.raw.device|) {
      return Some("captured bytes differ from RAW");
    }
    if t.offsets != m.capturedBytes {
      if !c.allowTrailingRaw { return Some("captured bytes differ from timeline"); }
      if m.coveredBytes != Some(t.offsets) ||
         t.offsets.client > m.capturedBytes.client || t.offsets.device > m.capturedBytes.device {
        return Some("partial coverage differs from manifest");
      }
    }
    if t.dataCounts != m.capturedChunks { return Some("chunk totals differ"); }
    if t.eofCounts != m.eofEvents { return Some("EOF totals differ"); }
    if m.complete && !((forall o :: o in t.observedSequences ==> 0 <= o < |chunks|) &&
                       (forall o :: 0 <= o < |chunks| ==> o in t.observedSequences)) {
      return Some("observed sequence is not contiguous");
    }
    problem := None;
  }

  /** The checks of one event, against the running totals. */
  method CheckEvent(e: Event, previousHash: Option<Hash>, chunks: seq<Chunk>, c: Capture, t: Tally)
    returns (problem: Option<string>)
    requires Tallies(t, chunks)
    ensures problem.None? <==> EventOk(e, previousHash, chunks, c)
  {
    var b := e.body;
    if c.seal(b) != e.eventHash { return Some("event hash mismatch"); }
    if b.previousHash != previousHash { return Some("hash-chain mismatch"); }
    if b.schemaVersion != 1 { return Some("unsupported schema"); }
    if b.identity != c.identity { return Some("identity binding mismatch"); }
    if !IsInt(b.sequence) || b.sequence != |chunks| { return Some("sequence is not contiguous"); }
    if !IsInt(b.observedSequence) || b.observedSequence in t.observedSequences {
      return Some("observed sequence is duplicated");
    }
    if b.direction.None? { return Some("unsupported direction"); }
    var d := b.direction.value;
    if !IsInt(b.directionSequence) || b.directionSequence != t.directionSequences.Of(d) {
      return Some("direction sequence");
    }
    if b.kind.None? { return Some("unsupported kind"); }
    var k := b.kind.value;
    assert t.offsets.Of(d) == Covered(chunks, d);
    if !IsInt(b.offset) || !IsInt(b.length) || b.offset != t.offsets.Of(d) { return Some("gap or overlap"); }
    var raw := c.raw.Of(d);
    if b.offset + b.length > |raw| { return Some("bytes outside RAW"); }
    if k == Eof && b.length != 0 { return Some("EOF carries bytes"); }
    if k == Data && b.length < 1 { return Some("data event is empty"); }
    if c.digest(raw[b.offset..b.offset + b.length]) != b.payloadHash { return Some("payload hash mismatch"); }
    problem := None;
  }

  lemma Rejected(events: seq<Event>, c: Capture, n: nat)
    requires n < |events| && Accepted(events[..n + 1], c).None?
    ensures !Valid(events, c)
  {
    if Accepted(events, c).Some? {
      AcceptedPrefix(events, c, n + 1);
    }
  }

  lemma ObservedExtend(chunks: seq<Chunk>, chunk: Chunk)
    ensures forall o :: Observed(chunks + [chunk], o) <==> Observed(chunks, o) || o == chunk.observedSequence
  {
    var more := chunks + [chunk];
    forall o ensures Observed(more, o) <==> Observed(chunks, o) || o == chunk.observedSequence {
      assert more[|chunks|] == chunk;
      if Observed(chunks, o) {
        var i :| 0 <= i < |chunks| && chunks[i].observedSequence == o;
        assert more[i] == chunks[i];
      }
    }
  }

  lemma TotalsExtend(chunks: seq<Chunk>, chunk: Chunk)
    ensures forall d :: Covered(chunks + [chunk], d) ==
                        Covered(chunks, d) + if chunk.direction == d && chunk.kind == Data then chunk.byteCount else 0
    ensures forall d, k :: Count(chunks + [chunk], d, k) ==
                           Count(chunks, d, k) + if chunk.direction == d && chunk.kind == k then 1 else 0
  {
    assert (chunks + [chunk])[..|chunks|] == chunks;
  }
}
