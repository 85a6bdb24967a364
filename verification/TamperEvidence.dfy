/**
 What the hash chain of a captured timeline is for: the last event hash that the manifest
 names fixes every event, and with it every captured byte, unless two different contents
 share a hash.
 */
module TamperEvidence {
  import opened Options
  import opened Timeline
  import opened ChunkStore

  ghost predicate SealCollides(seal: Body -> Hash) {
    exists x, y :: x != y && seal(x) == seal(y)
  }

  ghost predicate DigestCollides(digest: Bytes -> Hash) {
    exists x, y :: x != y && digest(x) == digest(y)
  }

  function LastHash(events: seq<Event>): Option<Hash> {
    if events == [] then None else Some(events[|events| - 1].eventHash)
  }

  /** The event carries the seal of its body and names the event before it. */
  ghost predicate SealedAt(events: seq<Event>, seal: Body -> Hash, i: nat)
    requires i < |events|
  {
    seal(events[i].body) == events[i].eventHash && events[i].body.previousHash == LastHash(events[..i])
  }

  ghost predicate Sealed(events: seq<Event>, seal: Body -> Hash) {
    forall i :: 0 <= i < |events| ==> SealedAt(events, seal, i)
  }

  lemma AcceptedSealedAt(events: seq<Event>, c: Capture, i: nat)
    requires Accepted(events, c).Some? && i < |events|
    ensures SealedAt(events, c.seal, i)
  {
    AcceptedPrefix(events, c, i + 1);
    var front := events[..i + 1];
    assert front[..i] == events[..i] && front[i] == events[i];
    assert i > 0 ==> front[i - 1] == events[i - 1];
  }

  lemma SealedPrefix(events: seq<Event>, seal: Body -> Hash, n: nat)
    requires Sealed(events, seal) && n <= |events|
    ensures Sealed(events[..n], seal)
  {
    forall i | 0 <= i < n ensures SealedAt(events[..n], seal, i) {
      assert SealedAt(events, seal, i);
      assert events[..n][..i] == events[..i];
    }
  }

  /** Two sealed chains that end in the same hash are equal, or two bodies share a seal. */
  lemma {:induction false} SealedChainsAgree(a: seq<Event>, b: seq<Event>, seal: Body -> Hash)
    requires Sealed(a, seal) && Sealed(b, seal) && LastHash(a) == LastHash(b)
    ensures a == b || SealCollides(seal)
    decreases |a|
  {
    if a != [] {
      var m, n := |a| - 1, |b| - 1;
      assert SealedAt(a, seal, m) && SealedAt(b, seal, n);
      if a[m].body == b[n].body {
        SealedPrefix(a, seal, m);
        SealedPrefix(b, seal, n);
        SealedChainsAgree(a[..m], b[..n], seal);
        assert a == a[..m] + [a[m]] && b == b[..n] + [b[n]];
      }
    }
  }

  lemma ValidIsSealed(events: seq<Event>, c: Capture)
    requires Valid(events, c)
    ensures Sealed(events, c.seal) && LastHash(events) == c.manifest.lastHash
  {
    forall i | 0 <= i < |events| ensures SealedAt(events, c.seal, i) {
      AcceptedSealedAt(events, c, i);
    }
  }

  /** The last hash fixes all events of a valid timeline. */
  lemma LastHashFixesEvents(a: seq<Event>, c: Capture, b: seq<Event>, d: Capture)
    requires Valid(a, c) && Valid(b, d) && c.seal == d.seal && c.manifest.lastHash == d.manifest.lastHash
    ensures a == b || SealCollides(c.seal)
  {
    ValidIsSealed(a, c);
    ValidIsSealed(b, d);
    SealedChainsAgree(a, b, c.seal);
  }

  // From events to bytes.

  lemma {:induction false} SameBodiesSameChunks(events: seq<Event>, c: Capture, d: Capture)
    requires Accepted(events, c).Some? && Accepted(events, d).Some?
    ensures Accepted(events, c) == Accepted(events, d)
    decreases |events|
  {
    if events != [] {
      SameBodiesSameChunks(events[..|events| - 1], c, d);
    }
  }

  /** The chunk lies inside both byte strings and its hash fits both. */
  ghost predicate Fits(k: Chunk, raw: Bytes, digest: Bytes -> Hash) {
    && 0 <= k.offset && 0 <= k.byteCount && k.offset + k.byteCount <= |raw|
    && digest(raw[k.offset..k.offset + k.byteCount]) == k.sha256
  }

  lemma {:induction false} DataFits(chunks: seq<Chunk>, c: Capture, d: Direction)
    requires AllLaid(chunks, c)
    ensures forall i :: 0 <= i < |DataOf(chunks, d)| ==> Fits(DataOf(chunks, d)[i], c.raw.Of(d), c.digest)
    decreases |chunks|
  {
    if chunks != [] {
      var n := |chunks| - 1;
      LaidPrefix(chunks, c, n);
      DataFits(chunks[..n], c, d);
      assert Laid(chunks, c, n);
    }
  }

  lemma SameSlice(k: Chunk, x: Bytes, y: Bytes, digest: Bytes -> Hash)
    requires Fits(k, x, digest) && Fits(k, y, digest) && !DigestCollides(digest)
    ensures x[k.offset..k.offset + k.byteCount] == y[k.offset..k.offset + k.byteCount]
  {
  }

  ghost predicate InBoth(k: Chunk, x: Bytes, y: Bytes) {
    && 0 <= k.offset && 0 <= k.byteCount && k.offset + k.byteCount <= |x| && k.offset + k.byteCount <= |y|
    && x[k.offset..k.offset + k.byteCount] == y[k.offset..k.offset + k.byteCount]
  }

  lemma {:induction false} SameSlicesSameBytes(data: seq<Chunk>, x: Bytes, y: Bytes)
    requires forall i :: 0 <= i < |data| ==> InBoth(data[i], x, y)
    ensures Addressed(data, x) == Addressed(data, y)
    decreases |data|
  {
    if data != [] {
      SameSlicesSameBytes(data[..|data| - 1], x, y);
      assert InBoth(data[|data| - 1], x, y);
    }
  }

  lemma SameHashesSameBytes(data: seq<Chunk>, x: Bytes, y: Bytes, digest: Bytes -> Hash)
    requires forall i :: 0 <= i < |data| ==> Fits(data[i], x, digest) && Fits(data[i], y, digest)
    requires !DigestCollides(digest)
    ensures Addressed(data, x) == Addressed(data, y)
  {
    forall i | 0 <= i < |data| ensures InBoth(data[i], x, y) {
      SameSlice(data[i], x, y, digest);
    }
    SameSlicesSameBytes(data, x, y);
  }

  lemma ValidDataFits(events: seq<Event>, c: Capture, side: Direction)
    requires Valid(events, c)
    ensures var data := DataOf(Accepted(events, c).value, side);
            forall i :: 0 <= i < |data| ==> Fits(data[i], c.raw.Of(side), c.digest)
  {
    AcceptedLaid(events, c);
    DataFits(Accepted(events, c).value, c, side);
  }

  /** The last hash fixes the covered bytes of both directions. */
  lemma LastHashFixesBytes(a: seq<Event>, c: Capture, b: seq<Event>, d: Capture, side: Direction)
    requires Valid(a, c) && Valid(b, d) && c.seal == d.seal && c.digest == d.digest
    requires c.manifest.lastHash == d.manifest.lastHash
    requires !SealCollides(c.seal) && !DigestCollides(c.digest)
    ensures var covered := Covered(Accepted(a, c).value, side);
            && a == b && 0 <= covered <= |c.raw.Of(side)| && covered <= |d.raw.Of(side)|
            && c.raw.Of(side)[..covered] == d.raw.Of(side)[..covered]
  {
    LastHashFixesEvents(a, c, b, d);
    SameBodiesSameChunks(a, c, d);
    AcceptedTimelineCoversRaw(a, c, side);
    AcceptedTimelineCoversRaw(b, d, side);
    ValidDataFits(a, c, side);
    ValidDataFits(b, d, side);
    SameHashesSameBytes(DataOf(Accepted(a, c).value, side), c.raw.Of(side), d.raw.Of(side), c.digest);
  }
}
