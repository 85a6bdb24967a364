/**
 What a valid timeline is, event by event and without the running state of the validator
 (`_parse_timeline`): `ValidExactly`. The chunks of a valid timeline are its events.
 */
module ValidTimelines {
  import opened Options
  import opened Timeline

  /** The bytes that the data events of one direction announce. */
  function Announced(events: seq<Event>, d: Direction): int {
    if events == [] then 0
    else
      var b := events[|events| - 1].body;
      Announced(events[..|events| - 1], d) + (if b.direction == Some(d) && b.kind == Some(Data) then b.length else 0)
  }

  /** How many events have this direction and kind. */
  function Number(events: seq<Event>, d: Direction, k: Kind): nat {
    if events == [] then 0
    else
      var b := events[|events| - 1].body;
      Number(events[..|events| - 1], d, k) + (if b.direction == Some(d) && b.kind == Some(k) then 1 else 0)
  }

  /** The event is sealed, follows the event before it and belongs to this session, job and device. */
  ghost predicate Chained(events: seq<Event>, c: Capture, n: nat)
    requires n < |events|
  {
    var b := events[n].body;
    && events[n].eventHash == c.seal(b)
    && (n == 0 ==> b.previousHash == None)
    && (n > 0 ==> b.previousHash == Some(events[n - 1].eventHash))
    && b.schemaVersion == 1 && b.identity == c.identity
  }

  /** The event has the next number, a new observation number and the next number of its direction. */
  ghost predicate Numbered(events: seq<Event>, n: nat)
    requires n < |events|
  {
    var b := events[n].body;
    && b.sequence == n <= MAX_INT
    && 0 <= b.observedSequence <= MAX_INT
    && (forall m :: 0 <= m < n ==> events[m].body.observedSequence != b.observedSequence)
    && b.direction.Some? && b.kind.Some?
    && 0 <= b.directionSequence <= MAX_INT
    && b.directionSequence ==
       Number(events[..n], b.direction.value, Data) + Number(events[..n], b.direction.value, Eof)
  }

  /** The event continues the bytes of its direction: data is not empty, an end carries nothing. */
  ghost predicate Continues(events: seq<Event>, c: Capture, n: nat)
    requires n < |events|
  {
    var b := events[n].body;
    && b.direction.Some? && b.kind.Some?
    && 0 <= b.offset <= MAX_INT && 0 <= b.length <= MAX_INT
    && b.offset == Announced(events[..n], b.direction.value)
    && (b.length == 0 <==> b.kind.value == Eof)
    && b.offset + b.length <= |c.raw.Of(b.direction.value)|
    && b.payloadHash == c.digest(c.raw.Of(b.direction.value)[b.offset..b.offset + b.length])
  }

  ghost predicate Acceptable(events: seq<Event>, c: Capture, n: nat)
    requires n < |events|
  {
    Chained(events, c, n) && Numbered(events, n) && Continues(events, c, n)
  }

  /** The chunk says of its payload what the event said. */
  ghost predicate SameFacts(k: Chunk, b: Body) {
    && k.sequence == b.sequence && Some(k.direction) == b.direction && Some(k.kind) == b.kind
    && k.offset == b.offset && k.byteCount == b.length && k.sha256 == b.payloadHash
    && k.forwarded == b.forwarded
    && k.observedSequence == b.observedSequence && k.directionSequence == b.directionSequence
  }

  ghost predicate ChunksOf(chunks: seq<Chunk>, events: seq<Event>) {
    |chunks| == |events| && forall n :: 0 <= n < |events| ==> SameFacts(chunks[n], events[n].body)
  }

  lemma {:induction false} SameTotals(chunks: seq<Chunk>, events: seq<Event>)
    requires ChunksOf(chunks, events)
    ensures forall d :: Covered(chunks, d) == Announced(events, d)
    ensures forall d, k :: Count(chunks, d, k) == Number(events, d, k)
    decreases |chunks|
  {
    if chunks != [] {
      SameTotals(chunks[..|chunks| - 1], events[..|events| - 1]);
    }
  }

  ghost predicate Seen(events: seq<Event>, o: int) {
    exists m :: 0 <= m < |events| && events[m].body.observedSequence == o
  }

  lemma SameObserved(chunks: seq<Chunk>, events: seq<Event>, o: int)
    requires ChunksOf(chunks, events)
    ensures Observed(chunks, o) <==> Seen(events, o)
  {
    if m :| 0 <= m < |events| && events[m].body.observedSequence == o {
      assert SameFacts(chunks[m], events[m].body);
    }
  }

  lemma OkExactly(events: seq<Event>, c: Capture, n: nat, before: seq<Chunk>)
    requires n < |events| && ChunksOf(before, events[..n])
    ensures EventOk(events[n], if n == 0 then None else Some(events[n - 1].eventHash), before, c) <==>
            Acceptable(events, c, n)
  {
    SameTotals(before, events[..n]);
    SameObserved(before, events[..n], events[n].body.observedSequence);
    assert forall m :: 0 <= m < n ==> events[..n][m] == events[m];
  }

  ghost predicate AllAcceptable(events: seq<Event>, c: Capture) {
    forall n :: 0 <= n < |events| ==> Acceptable(events, c, n)
  }

  lemma AcceptableInPrefix(events: seq<Event>, c: Capture, n: nat, m: nat)
    requires m < n <= |events|
    ensures Acceptable(events[..n], c, m) <==> Acceptable(events, c, m)
  {
    assert events[..n][..m] == events[..m];
  }

  lemma AcceptableUpToLast(events: seq<Event>, c: Capture)
    requires events != []
    ensures var n := |events| - 1;
            AllAcceptable(events, c) <==> AllAcceptable(events[..n], c) && Acceptable(events, c, n)
  {
    var n := |events| - 1;
    forall m | 0 <= m < n ensures Acceptable(events[..n], c, m) <==> Acceptable(events, c, m) {
      AcceptableInPrefix(events, c, n, m);
    }
  }

  lemma MoreChunks(chunks: seq<Chunk>, events: seq<Event>)
    requires events != [] && ChunksOf(chunks, events[..|events| - 1])
    requires events[|events| - 1].body.direction.Some? && events[|events| - 1].body.kind.Some?
    ensures ChunksOf(chunks + [ToChunk(events[|events| - 1].body)], events)
  {
    var n := |events| - 1;
    forall m | 0 <= m < n ensures SameFacts(chunks[m], events[m].body) {
      assert SameFacts(chunks[m], events[..n][m].body);
    }
  }

  /** The validator's walk accepts exactly the timelines whose every event is acceptable. */
  lemma {:induction false} AcceptedExactly(events: seq<Event>, c: Capture)
    ensures Accepted(events, c).Some? <==> AllAcceptable(events, c)
    ensures Accepted(events, c).Some? ==> ChunksOf(Accepted(events, c).value, events)
    decreases |events|
  {
    if events != [] {
      var n := |events| - 1;
      AcceptedExactly(events[..n], c);
      AcceptableUpToLast(events, c);
      if Accepted(events[..n], c).Some? {
        OkExactly(events, c, n, Accepted(events[..n], c).value);
        if Acceptable(events, c, n) {
          MoreChunks(Accepted(events[..n], c).value, events);
        }
      }
    }
  }

  function AnnouncedBoth(events: seq<Event>): PerDirection<int> {
    PerDirection(Announced(events, ClientToDevice), Announced(events, DeviceToClient))
  }

  function NumberBoth(events: seq<Event>, k: Kind): PerDirection<int> {
    PerDirection(Number(events, ClientToDevice, k), Number(events, DeviceToClient, k))
  }

  /** The manifest's totals are those of the events; only a partial capture may announce fewer bytes than RAW holds. */
  ghost predicate Tallied(events: seq<Event>, c: Capture) {
    var m := c.manifest;
    && m.timelineEvents == |events|
    && (m.lastHash.None? <==> events == [])
    && (events != [] ==> m.lastHash == Some(events[|events| - 1].eventHash))
    && m.capturedBytes == PerDirection(|c.raw.client|, |c.raw.device|)
    && m.capturedChunks == NumberBoth(events, Data)
    && m.eofEvents == NumberBoth(events, Eof)
    && (AnnouncedBoth(events) != m.capturedBytes ==>
          && c.allowTrailingRaw && m.coveredBytes == Some(AnnouncedBoth(events))
          && Announced(events, ClientToDevice) <= |c.raw.client| && Announced(events, DeviceToClient) <= |c.raw.device|)
  }

  /** A complete capture observed every event once: the observation numbers are those from zero on. */
  ghost predicate ObservedAll(events: seq<Event>) {
    forall o :: Seen(events, o) <==> 0 <= o < |events|
  }

  lemma ManifestExactly(events: seq<Event>, chunks: seq<Chunk>, c: Capture)
    requires ChunksOf(chunks, events)
    ensures ManifestOk(events, chunks, c) <==> Tallied(events, c) && (c.manifest.complete ==> ObservedAll(events))
  {
    SameTotals(chunks, events);
    forall o ensures Observed(chunks, o) <==> Seen(events, o) {
      SameObserved(chunks, events, o);
    }
  }

  /**
   A timeline is valid iff it is short enough, each event is acceptable after the events before it, and the manifest
   agrees with the totals; so one foreign, unsealed, misplaced or altered event makes it invalid.
   */
  lemma ValidExactly(events: seq<Event>, c: Capture)
    ensures Valid(events, c) <==>
            && |events| <= 100_000
            && AllAcceptable(events, c)
            && Tallied(events, c) && (c.manifest.complete ==> ObservedAll(events))
  {
    AcceptedExactly(events, c);
    if Accepted(events, c).Some? {
      ManifestExactly(events, Accepted(events, c).value, c);
    }
  }
}
