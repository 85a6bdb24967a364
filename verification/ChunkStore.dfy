/**
 Storing the chunks of an accepted timeline and reading a session back (`_insert_chunks`,
 `_chunk_payload`, `get_session_raw` of the repository), for a session of one job: the bytes
 that come back are the captured bytes.
 */
module ChunkStore {
  import opened Options
  import opened Ordering
  import opened Timeline
  import HashChain

  /** What every accepted chunk list satisfies, chunk by chunk. */
  ghost predicate Laid(chunks: seq<Chunk>, c: Capture, i: nat)
    requires i < |chunks|
  {
    var k := chunks[i];
    var raw := c.raw.Of(k.direction);
    && k.sequence == i
    && k.offset == Covered(chunks[..i], k.direction)
    && 0 <= k.offset && 0 <= k.byteCount && k.offset + k.byteCount <= |raw|
    && (if k.kind == Data then k.byteCount >= 1 else k.byteCount == 0)
    && c.digest(raw[k.offset..k.offset + k.byteCount]) == k.sha256
    && !Observed(chunks[..i], k.observedSequence)
    && k.directionSequence == Count(chunks[..i], k.direction, Data) + Count(chunks[..i], k.direction, Eof)
  }

  ghost predicate AllLaid(chunks: seq<Chunk>, c: Capture) {
    forall i :: 0 <= i < |chunks| ==> Laid(chunks, c, i)
  }

  lemma {:induction false} AcceptedLaid(events: seq<Event>, c: Capture)
    requires Accepted(events, c).Some?
    ensures AllLaid(Accepted(events, c).value, c)
    ensures |Accepted(events, c).value| == |events|
    decreases |events|
  {
    if events != [] {
      var n := |events| - 1;
      AcceptedLaid(events[..n], c);
      var chunks, before := Accepted(events, c).value, Accepted(events[..n], c).value;
      forall i | 0 <= i < |chunks| ensures Laid(chunks, c, i) {
        assert chunks[..i] == before[..i];
        if i < n {
          assert Laid(before, c, i) && chunks[i] == before[i];
        } else {
          assert before[..i] == before;
        }
      }
    }
  }

  /** The data chunks of one direction, in timeline order. */
  function DataOf(chunks: seq<Chunk>, d: Direction): seq<Chunk> {
    if chunks == [] then []
    else
      var n := |chunks| - 1;
      DataOf(chunks[..n], d) + (if chunks[n].direction == d && chunks[n].kind == Data then [chunks[n]] else [])
  }

  /** The bytes that a list of chunks addresses. */
  function Addressed(chunks: seq<Chunk>, raw: Bytes): Bytes {
    if chunks == [] then []
    else
      var n := |chunks| - 1;
      var k := chunks[n];
      Addressed(chunks[..n], raw) +
      (if 0 <= k.offset && 0 <= k.byteCount && k.offset + k.byteCount <= |raw|
       then raw[k.offset..k.offset + k.byteCount] else [])
  }

  /** Consecutive chunks without gap or overlap, from offset 0 up to `covered`. */
  ghost predicate Tiles(chunks: seq<Chunk>, covered: int) {
    if chunks == [] then covered == 0
    else
      var n := |chunks| - 1;
      var k := chunks[n];
      k.byteCount >= 1 && k.offset + k.byteCount == covered && Tiles(chunks[..n], k.offset)
  }

  lemma LaidPrefix(chunks: seq<Chunk>, c: Capture, n: nat)
    requires AllLaid(chunks, c) && n <= |chunks|
    ensures AllLaid(chunks[..n], c)
  {
    forall i | 0 <= i < n ensures Laid(chunks[..n], c, i) {
      assert Laid(chunks, c, i);
      assert chunks[..n][..i] == chunks[..i];
    }
  }

  lemma TilesExtend(data: seq<Chunk>, k: Chunk)
    requires Tiles(data, k.offset) && k.byteCount >= 1
    ensures Tiles(data + [k], k.offset + k.byteCount)
  {
    assert (data + [k])[..|data|] == data;
  }

  lemma AddressedExtend(data: seq<Chunk>, k: Chunk, raw: Bytes)
    requires 0 <= k.offset && 0 <= k.byteCount && k.offset + k.byteCount <= |raw|
    requires Addressed(data, raw) == raw[..k.offset]
    ensures Addressed(data + [k], raw) == raw[..k.offset + k.byteCount]
  {
    assert (data + [k])[..|data|] == data;
    JoinSlices(raw, k.offset, k.offset + k.byteCount);
  }

  lemma JoinSlices(raw: Bytes, i: nat, j: nat)
    requires i <= j <= |raw|
    ensures raw[..i] + raw[i..j] == raw[..j]
  {
  }

  lemma LaidPlace(chunks: seq<Chunk>, c: Capture, n: nat)
    requires AllLaid(chunks, c) && n < |chunks|
    ensures var k := chunks[n];
            && 0 <= k.offset == Covered(chunks[..n], k.direction) && 0 <= k.byteCount
            && k.offset + k.byteCount <= |c.raw.Of(k.direction)| && (k.kind == Data ==> k.byteCount >= 1)
  {
    assert Laid(chunks, c, n);
  }

  /** The list tiles `covered` bytes and addresses that prefix. */
  ghost predicate TilesPrefix(data: seq<Chunk>, raw: Bytes, covered: int) {
    Tiles(data, covered) && 0 <= covered <= |raw| && Addressed(data, raw) == raw[..covered]
  }

  lemma TilesPrefixExtend(data: seq<Chunk>, raw: Bytes, k: Chunk)
    requires 0 <= k.offset && k.byteCount >= 1 && k.offset + k.byteCount <= |raw| && TilesPrefix(data, raw, k.offset)
    ensures TilesPrefix(data + [k], raw, k.offset + k.byteCount)
  {
    TilesExtend(data, k);
    AddressedExtend(data, k, raw);
  }

  /** The data chunks of each direction tile a prefix of its RAW bytes. */
  lemma {:induction false} DataTiles(chunks: seq<Chunk>, c: Capture, d: Direction)
    requires AllLaid(chunks, c)
    ensures TilesPrefix(DataOf(chunks, d), c.raw.Of(d), Covered(chunks, d))
    decreases |chunks|
  {
    if chunks != [] {
      var n := |chunks| - 1;
      LaidPrefix(chunks, c, n);
      DataTiles(chunks[..n], c, d);
      LaidPlace(chunks, c, n);
      if chunks[n].direction == d && chunks[n].kind == Data {
        TilesPrefixExtend(DataOf(chunks[..n], d), c.raw.Of(d), chunks[n]);
      } else {
        assert DataOf(chunks, d) == DataOf(chunks[..n], d);
      }
    }
  }

  /**
   For every accepted timeline the data events of each direction tile [0, covered) and
   their payloads concatenate to that prefix of RAW; the prefix is all of RAW unless a
   recovered partial capture is allowed to trail.
   */
  lemma AcceptedTimelineCoversRaw(events: seq<Event>, c: Capture, d: Direction)
    requires Valid(events, c)
    ensures var chunks := Accepted(events, c).value;
            && Tiles(DataOf(chunks, d), Covered(chunks, d))
            && 0 <= Covered(chunks, d) <= |c.raw.Of(d)|
            && Addressed(DataOf(chunks, d), c.raw.Of(d)) == c.raw.Of(d)[..Covered(chunks, d)]
            && (!c.allowTrailingRaw ==> Covered(chunks, d) == |c.raw.Of(d)|)
  {
    AcceptedLaid(events, c);
    DataTiles(Accepted(events, c).value, c, d);
  }

  // Storage.

  datatype StoredChunk = StoredChunk(chunk: Chunk, payload: Bytes)

  /** `_chunk_payload`: the bytes a chunk addresses, checked against its hash. */
  function ChunkPayload(raw: Bytes, k: Chunk, digest: Bytes -> Hash): Result<Bytes, string> {
    if k.byteCount == 0 then Ok([])
    else if k.offset < 0 || k.byteCount < 0 || k.offset + k.byteCount > |raw| then Err("range outside RAW")
    else if digest(raw[k.offset..k.offset + k.byteCount]) != k.sha256 then Err("hash differs from RAW")
    else Ok(raw[k.offset..k.offset + k.byteCount])
  }

  /** The row that a chunk of an accepted timeline becomes. */
  ghost predicate Stores(row: StoredChunk, k: Chunk, c: Capture) {
    row.chunk == k && 0 <= k.offset && 0 <= k.byteCount && k.offset + k.byteCount <= |c.raw.Of(k.direction)| &&
    row.payload == c.raw.Of(k.direction)[k.offset..k.offset + k.byteCount]
  }

  ghost predicate StoresAll(rows: seq<StoredChunk>, chunks: seq<Chunk>, c: Capture) {
    |rows| == |chunks| && forall i :: 0 <= i < |rows| ==> Stores(rows[i], chunks[i], c)
  }

  /** What `_insert_chunks` stores for one chunk, if its bytes check out. */
  function PayloadOf(k: Chunk, c: Capture): Result<Bytes, string> {
    ChunkPayload(c.raw.Of(k.direction), k, c.digest)
  }

  /**
   The rows of a one-job session: every chunk in order, with the bytes it addresses and the
   record hash that chains it to the row before. The import fails iff the bytes of some chunk
   do not check out, or the rows violate a unique constraint of the table; for the chunks of an
   accepted timeline that is iff some EOF is not the last event of its direction.
   */
  method InsertChunks(chunks: seq<Chunk>, c: Capture, h: HashChain.Hasher<Chunk>)
    returns (r: Result<seq<StoredChunk>, string>, chain: seq<HashChain.Record<Chunk>>)
    ensures r.Ok? <==> Storable(chunks, c) && UniqueSequences(chunks) && UniqueOffsets(chunks)
    ensures r.Ok? ==> |r.value| == |chunks| && forall i :: 0 <= i < |chunks| ==> Row(r.value[i], chunks[i], c)
    ensures r.Ok? ==> HashChain.Chained(chain, h) && |chain| == |chunks|
    ensures r.Ok? ==> forall i :: 0 <= i < |chunks| ==> chain[i].body == chunks[i]
    ensures AllLaid(chunks, c) ==> (r.Ok? <==> EofLast(chunks))
    ensures AllLaid(chunks, c) && r.Ok? ==> StoresAll(r.value, chunks, c)
  {
    StorableWhenLaid(chunks, c);
    var rows: seq<StoredChunk> := [];
    chain := [];
    var previousHash := HashChain.ZERO_HASH;
    for i := 0 to |chunks|
      invariant |rows| == |chain| == i && previousHash == HashChain.Head(chain) && HashChain.Chained(chain, h)
      invariant forall j :: 0 <= j < i ==> Row(rows[j], chunks[j], c) && chain[j].body == chunks[j]
    {
      var payload := ChunkPayload(c.raw.Of(chunks[i].direction), chunks[i], c.digest);
      if payload.Err? {
        return Err(payload.error), chain;
      }
      HashChain.ExtendChained(chain, chunks[i], h);
      var recordHash := h(chunks[i], previousHash, previousHash);
      rows := rows + [StoredChunk(chunks[i], payload.value)];
      chain := chain + [HashChain.Record(chunks[i], previousHash, recordHash)];
      previousHash := recordHash;
    }
    if !UniqueSequences(chunks) || !UniqueOffsets(chunks) {
      return Err("unique constraint"), chain;
    }
    RowsStore(rows, chunks, c);
    r := Ok(rows);
  }

  /** The row holds the bytes that its chunk addresses. */
  predicate Row(row: StoredChunk, k: Chunk, c: Capture) {
    row.chunk == k && PayloadOf(k, c) == Ok(row.payload)
  }

  predicate Storable(chunks: seq<Chunk>, c: Capture) {
    forall i :: 0 <= i < |chunks| ==> PayloadOf(chunks[i], c).Ok?
  }

  lemma StorableWhenLaid(chunks: seq<Chunk>, c: Capture)
    ensures AllLaid(chunks, c) ==> Storable(chunks, c) && UniqueSequences(chunks)
    ensures AllLaid(chunks, c) ==> (UniqueOffsets(chunks) <==> EofLast(chunks))
  {
    if AllLaid(chunks, c) {
      LaidUniqueness(chunks, c);
      forall i | 0 <= i < |chunks| ensures PayloadOf(chunks[i], c).Ok? {
        LaidIsStorable(chunks, c, i);
      }
    }
  }

  lemma RowsStore(rows: seq<StoredChunk>, chunks: seq<Chunk>, c: Capture)
    requires |rows| == |chunks| && forall i :: 0 <= i < |chunks| ==> Row(rows[i], chunks[i], c)
    ensures AllLaid(chunks, c) ==> StoresAll(rows, chunks, c)
  {
    if AllLaid(chunks, c) {
      forall i | 0 <= i < |chunks| ensures Stores(rows[i], chunks[i], c) {
        LaidIsStorable(chunks, c, i);
      }
    }
  }

  lemma LaidIsStorable(chunks: seq<Chunk>, c: Capture, i: nat)
    requires i < |chunks|
    ensures Laid(chunks, c, i) ==> PayloadOf(chunks[i], c).Ok? &&
                                   Stores(StoredChunk(chunks[i], PayloadOf(chunks[i], c).value), chunks[i], c)
  {
  }

  // Reading back.

  predicate Wanted(row: StoredChunk, d: Direction) {
    row.chunk.direction == d && row.chunk.kind == Data
  }

  function Select(rows: seq<StoredChunk>, d: Direction): (r: seq<StoredChunk>)
    ensures forall x :: x in r ==> x in rows && Wanted(x, d)
  {
    if rows == [] then []
    else
      var n := |rows| - 1;
      Select(rows[..n], d) + (if Wanted(rows[n], d) then [rows[n]] else [])
  }

  function RowOrder(): StoredChunk -> seq<int> {
    (row: StoredChunk) => [row.chunk.offset, row.chunk.directionSequence]
  }

  /** The rows joined, or nothing at the first gap, wrong length or wrong hash. */
  function Joined(rows: seq<StoredChunk>, digest: Bytes -> Hash): Option<Bytes> {
    if rows == [] then Some([])
    else
      var n := |rows| - 1;
      var before := Joined(rows[..n], digest);
      var row := rows[n];
      if before.Some? && row.chunk.offset == |before.value| && |row.payload| == row.chunk.byteCount
         && digest(row.payload) == row.chunk.sha256
      then Some(before.value + row.payload)
      else None
  }

  lemma {:induction false} JoinedPrefix(rows: seq<StoredChunk>, digest: Bytes -> Hash, n: nat)
    requires n <= |rows| && Joined(rows, digest).Some?
    ensures Joined(rows[..n], digest).Some?
    decreases |rows| - n
  {
    if n < |rows| {
      JoinedPrefix(rows, digest, n + 1);
      assert rows[..n + 1][..n] == rows[..n];
    } else {
      assert rows[..n] == rows;
    }
  }

  /** The session bytes of one direction, from the rows in whatever order the table yields them. */
  function ReadBack(rows: seq<StoredChunk>, d: Direction, digest: Bytes -> Hash): Option<Bytes> {
    var selected := SortBy(Select(rows, d), RowOrder());
    if selected == [] then None else Joined(selected, digest)
  }

  method GetSessionRaw(rows: seq<StoredChunk>, d: Direction, digest: Bytes -> Hash) returns (r: Option<Bytes>)
    ensures r == ReadBack(rows, d, digest)
  {
    var selected := SortBy(Select(rows, d), RowOrder());
    if selected == [] {
      return None;
    }
    var expectedOffset := 0;
    var payload: Bytes := [];
    for i := 0 to |selected|
      invariant Joined(selected[..i], digest) == Some(payload) && expectedOffset == |payload|
    {
      var row := selected[i];
      assert selected[..i + 1][..i] == selected[..i];
      if row.chunk.offset != expectedOffset || |row.payload| != row.chunk.byteCount
         || digest(row.payload) != row.chunk.sha256
      {
        if Joined(selected, digest).Some? {
          JoinedPrefix(selected, digest, i + 1);
        }
        return None;
      }
      payload := payload + row.payload;
      expectedOffset := expectedOffset + row.chunk.byteCount;
    }
    assert selected[..|selected|] == selected;
    r := Some(payload);
  }

  lemma {:induction false} SelectMultiset(rows: seq<StoredChunk>, d: Direction, x: StoredChunk)
    ensures multiset(Select(rows, d))[x] == if Wanted(x, d) then multiset(rows)[x] else 0
    decreases |rows|
  {
    if rows != [] {
      var n := |rows| - 1;
      SelectMultiset(rows[..n], d, x);
      CountAppended(rows[..n], rows[n], x);
      assert rows == rows[..n] + [rows[n]];
      if Wanted(rows[n], d) {
        CountAppended(Select(rows[..n], d), rows[n], x);
      }
    }
  }

  lemma CountAppended(rows: seq<StoredChunk>, row: StoredChunk, x: StoredChunk)
    ensures multiset(rows + [row])[x] == multiset(rows)[x] + if row == x then 1 else 0
  {
  }

  lemma SelectForgetsOrder(a: seq<StoredChunk>, b: seq<StoredChunk>, d: Direction)
    requires multiset(a) == multiset(b)
    ensures multiset(Select(a, d)) == multiset(Select(b, d))
  {
    forall x ensures multiset(Select(a, d))[x] == multiset(Select(b, d))[x] {
      SelectMultiset(a, d, x);
      SelectMultiset(b, d, x);
    }
  }

  /** A row holds the bytes its chunk addresses, and they match its hash. */
  ghost predicate Holds(row: StoredChunk, k: Chunk, raw: Bytes, digest: Bytes -> Hash) {
    row.chunk == k && 0 <= k.offset && 0 <= k.byteCount && k.offset + k.byteCount <= |raw| &&
    row.payload == raw[k.offset..k.offset + k.byteCount] && digest(row.payload) == k.sha256
  }

  ghost predicate HoldsAll(rows: seq<StoredChunk>, data: seq<Chunk>, raw: Bytes, digest: Bytes -> Hash) {
    |rows| == |data| && forall i :: 0 <= i < |rows| ==> Holds(rows[i], data[i], raw, digest)
  }

  lemma {:induction false} SelectedHold(rows: seq<StoredChunk>, chunks: seq<Chunk>, raw: Bytes, digest: Bytes -> Hash,
                                        d: Direction)
    requires |rows| == |chunks|
    requires forall i :: 0 <= i < |rows| ==> rows[i].chunk == chunks[i]
    requires forall i :: 0 <= i < |rows| && Wanted(rows[i], d) ==> Holds(rows[i], chunks[i], raw, digest)
    ensures HoldsAll(Select(rows, d), DataOf(chunks, d), raw, digest)
    decreases |rows|
  {
    if rows != [] {
      SelectedHold(rows[..|rows| - 1], chunks[..|rows| - 1], raw, digest, d);
    }
  }

  lemma SelectedHoldData(rows: seq<StoredChunk>, chunks: seq<Chunk>, c: Capture, d: Direction)
    requires AllLaid(chunks, c) && StoresAll(rows, chunks, c)
    ensures HoldsAll(Select(rows, d), DataOf(chunks, d), c.raw.Of(d), c.digest)
  {
    forall i | 0 <= i < |rows| && Wanted(rows[i], d) ensures Holds(rows[i], chunks[i], c.raw.Of(d), c.digest) {
      assert Laid(chunks, c, i) && Stores(rows[i], chunks[i], c);
    }
    SelectedHold(rows, chunks, c.raw.Of(d), c.digest, d);
  }

  lemma {:induction false} TilesJoin(rows: seq<StoredChunk>, data: seq<Chunk>, covered: int, raw: Bytes,
                                     digest: Bytes -> Hash)
    requires Tiles(data, covered) && HoldsAll(rows, data, raw, digest)
    ensures 0 <= covered <= |raw|
    ensures Joined(rows, digest) == Some(raw[..covered])
    decreases |rows|
  {
    if rows != [] {
      var n := |rows| - 1;
      var k := data[n];
      assert Holds(rows[n], k, raw, digest);
      TilesJoin(rows[..n], data[..n], k.offset, raw, digest);
      assert raw[..k.offset] + raw[k.offset..k.offset + k.byteCount] == raw[..k.offset + k.byteCount];
    }
  }

  lemma {:induction false} TilesAscend(data: seq<Chunk>, covered: int)
    requires Tiles(data, covered)
    ensures forall i :: 0 <= i < |data| ==> data[i].offset < covered
    ensures forall i, j :: 0 <= i < j < |data| ==> data[i].offset < data[j].offset
    decreases |data|
  {
    if data != [] {
      TilesAscend(data[..|data| - 1], data[|data| - 1].offset);
    }
  }

  lemma {:induction false} TilesFromZero(data: seq<Chunk>, covered: int)
    requires Tiles(data, covered)
    ensures covered >= |data|
    decreases |data|
  {
    if data != [] {
      TilesFromZero(data[..|data| - 1], data[|data| - 1].offset);
    }
  }

  /** In timeline order the selected rows ascend and join to the covered RAW prefix. */
  lemma SelectedInOrder(rows: seq<StoredChunk>, chunks: seq<Chunk>, c: Capture, d: Direction)
    requires AllLaid(chunks, c) && StoresAll(rows, chunks, c)
    ensures 0 <= Covered(chunks, d) <= |c.raw.Of(d)|
    ensures forall i, j :: 0 <= i < j < |Select(rows, d)| ==>
              Select(rows, d)[i].chunk.offset < Select(rows, d)[j].chunk.offset
    ensures Joined(Select(rows, d), c.digest) == Some(c.raw.Of(d)[..Covered(chunks, d)])
    ensures Select(rows, d) == [] <==> Covered(chunks, d) == 0
  {
    var selected, data, covered := Select(rows, d), DataOf(chunks, d), Covered(chunks, d);
    DataTiles(chunks, c, d);
    SelectedHoldData(rows, chunks, c, d);
    TilesJoin(selected, data, covered, c.raw.Of(d), c.digest);
    TilesAscend(data, covered);
    TilesFromZero(data, covered);
    forall i, j | 0 <= i < j < |selected| ensures selected[i].chunk.offset < selected[j].chunk.offset {
      assert Holds(selected[i], data[i], c.raw.Of(d), c.digest) && Holds(selected[j], data[j], c.raw.Of(d), c.digest);
    }
  }

  lemma AscendingIsSorted(rows: seq<StoredChunk>)
    requires forall i, j :: 0 <= i < j < |rows| ==> rows[i].chunk.offset < rows[j].chunk.offset
    ensures SortBy(rows, RowOrder()) == rows
  {
    forall i, j | 0 <= i < j < |rows| ensures !LexLess(RowOrder()(rows[j]), RowOrder()(rows[i])) {
      assert RowOrder()(rows[j])[0] > RowOrder()(rows[i])[0];
    }
    forall x, y | x in multiset(rows) && y in multiset(rows) && RowOrder()(x) == RowOrder()(y) ensures x == y {
      assert RowOrder()(x)[0] == x.chunk.offset && RowOrder()(y)[0] == y.chunk.offset;
      var i :| 0 <= i < |rows| && rows[i] == x;
      var j :| 0 <= j < |rows| && rows[j] == y;
    }
    SortOfSorted(rows, RowOrder());
  }

  /**
   Storing an accepted timeline and reading the session back, in whatever order the table
   yields its rows, returns exactly the covered RAW bytes; nothing comes back only when no
   data was captured.
   */
  lemma StoreThenRead(events: seq<Event>, c: Capture, stored: seq<StoredChunk>, rows: seq<StoredChunk>, d: Direction)
    requires Valid(events, c)
    requires StoresAll(stored, Accepted(events, c).value, c)
    requires multiset(rows) == multiset(stored)
    ensures var covered := Covered(Accepted(events, c).value, d);
            && 0 <= covered <= |c.raw.Of(d)|
            && ReadBack(rows, d, c.digest) == if covered == 0 then None else Some(c.raw.Of(d)[..covered])
  {
    AcceptedLaid(events, c);
    var chunks := Accepted(events, c).value;
    SelectedInOrder(stored, chunks, c, d);
    AscendingIsSorted(Select(stored, d));
    SelectForgetsOrder(rows, stored, d);
    SelectedInjective(Select(stored, d));
    SortForgetsOrder(Select(stored, d), Select(rows, d), RowOrder());
  }

  lemma SelectedInjective(rows: seq<StoredChunk>)
    requires forall i, j :: 0 <= i < j < |rows| ==> rows[i].chunk.offset < rows[j].chunk.offset
    ensures InjectiveOn(multiset(rows), RowOrder())
  {
    forall x, y | x in multiset(rows) && y in multiset(rows) && RowOrder()(x) == RowOrder()(y) ensures x == y {
      assert RowOrder()(x)[0] == x.chunk.offset && RowOrder()(y)[0] == y.chunk.offset;
      var i :| 0 <= i < |rows| && rows[i] == x;
      var j :| 0 <= j < |rows| && rows[j] == y;
    }
  }

  // The unique constraints of the chunk table.

  predicate UniqueSequences(chunks: seq<Chunk>) {
    forall i, j :: 0 <= i < j < |chunks| ==>
      chunks[i].sequence != chunks[j].sequence && chunks[i].observedSequence != chunks[j].observedSequence
  }

  predicate UniqueOffsets(chunks: seq<Chunk>) {
    forall i, j :: 0 <= i < j < |chunks| && chunks[i].direction == chunks[j].direction ==>
      chunks[i].offset != chunks[j].offset
  }

  /** In each direction an EOF comes last, so there is at most one and it follows all data. */
  predicate EofLast(chunks: seq<Chunk>) {
    forall i, j :: 0 <= i < j < |chunks| && chunks[i].direction == chunks[j].direction ==> chunks[i].kind == Data
  }

  lemma {:induction false} CoveredGrows(chunks: seq<Chunk>, c: Capture, i: nat, j: nat)
    requires AllLaid(chunks, c) && i < j <= |chunks|
    ensures var d := chunks[i].direction;
            Covered(chunks[..j], d) >= chunks[i].offset + (if chunks[i].kind == Data then 1 else 0)
    decreases j
  {
    var d := chunks[i].direction;
    assert chunks[..j][..j - 1] == chunks[..j - 1];
    assert Laid(chunks, c, j - 1);
    if i < j - 1 {
      CoveredGrows(chunks, c, i, j - 1);
    }
  }

  /** With no data of its direction after it, an event does not move the covered total past its own end. */
  lemma {:induction false} CoveredStays(chunks: seq<Chunk>, c: Capture, i: nat, j: nat)
    requires AllLaid(chunks, c) && i < j <= |chunks| && chunks[i].kind == Eof
    requires forall k :: i < k < j ==> chunks[k].direction != chunks[i].direction
    ensures Covered(chunks[..j], chunks[i].direction) == chunks[i].offset
    decreases j
  {
    assert chunks[..j][..j - 1] == chunks[..j - 1];
    assert Laid(chunks, c, j - 1);
    if i < j - 1 {
      CoveredStays(chunks, c, i, j - 1);
    }
  }

  lemma {:induction false} NextOfDirection(chunks: seq<Chunk>, i: nat, j: nat) returns (k: nat)
    requires i < j < |chunks| && chunks[j].direction == chunks[i].direction
    ensures i < k <= j && chunks[k].direction == chunks[i].direction
    ensures forall l :: i < l < k ==> chunks[l].direction != chunks[i].direction
    decreases j
  {
    if l :| i < l < j && chunks[l].direction == chunks[i].direction {
      k := NextOfDirection(chunks, i, l);
    } else {
      k := j;
    }
  }

  /**
   Sequences and observed sequences of an accepted timeline are always unique. Offsets are
   unique per direction, as the schema demands, exactly if every EOF is the last event of
   its direction; the validator itself does not require that.
   */
  lemma SchemaUniqueness(events: seq<Event>, c: Capture)
    requires Valid(events, c)
    ensures UniqueSequences(Accepted(events, c).value)
    ensures UniqueOffsets(Accepted(events, c).value) <==> EofLast(Accepted(events, c).value)
  {
    AcceptedLaid(events, c);
    LaidUniqueness(Accepted(events, c).value, c);
  }

  lemma LaidUniqueness(chunks: seq<Chunk>, c: Capture)
    requires AllLaid(chunks, c)
    ensures UniqueSequences(chunks)
    ensures UniqueOffsets(chunks) <==> EofLast(chunks)
  {
    forall i, j | 0 <= i < j < |chunks|
      ensures chunks[i].sequence != chunks[j].sequence && chunks[i].observedSequence != chunks[j].observedSequence
    {
      assert Laid(chunks, c, i) && Laid(chunks, c, j);
      assert chunks[..j][i] == chunks[i];
    }
    if EofLast(chunks) {
      forall i, j | 0 <= i < j < |chunks| && chunks[i].direction == chunks[j].direction
        ensures chunks[i].offset != chunks[j].offset
      {
        assert Laid(chunks, c, j);
        CoveredGrows(chunks, c, i, j);
      }
    } else {
      var i, j :| 0 <= i < j < |chunks| && chunks[i].direction == chunks[j].direction && chunks[i].kind != Data;
      var k := NextOfDirection(chunks, i, j);
      assert Laid(chunks, c, k);
      CoveredStays(chunks, c, i, k);
    }
  }

  /** An EOF event of an empty client stream. */
  function EofBody(sequence: nat, previousHash: Option<Hash>, digest: Bytes -> Hash): Body {
    Body(previousHash, 1, ("s", "j", "d"), sequence, sequence, Some(ClientToDevice), sequence, Some(Eof), 0, 0,
         digest([]), true)
  }

  function EofPair(digest: Bytes -> Hash, seal: Body -> Hash): seq<Event> {
    var first := Event(EofBody(0, None, digest), seal(EofBody(0, None, digest)));
    var body := EofBody(1, Some(first.eventHash), digest);
    [first, Event(body, seal(body))]
  }

  function EofPairCapture(digest: Bytes -> Hash, seal: Body -> Hash): Capture {
    var zero := PerDirection(0, 0);
    Capture(PerDirection([], []), ("s", "j", "d"),
            Manifest(2, Some(EofPair(digest, seal)[1].eventHash), zero, None, zero, PerDirection(2, 0), true),
            false, digest, seal)
  }

  function EofChunk(sequence: nat, digest: Bytes -> Hash): Chunk {
    Chunk(sequence, ClientToDevice, 0, 0, digest([]), true, sequence, sequence, Eof)
  }

  lemma EofTotals(digest: Bytes -> Hash, n: nat)
    requires n <= 2
    ensures var chunks := [EofChunk(0, digest), EofChunk(1, digest)][..n];
            && Totals(chunks, Data) == PerDirection(0, 0) && Totals(chunks, Eof) == PerDirection(n, 0)
            && CoveredTotals(chunks) == PerDirection(0, 0)
  {
    if n > 0 {
      EofTotals(digest, n - 1);
      var all := [EofChunk(0, digest), EofChunk(1, digest)];
      assert all[..n][..n - 1] == all[..n - 1] && all[..n][n - 1] == all[n - 1];
    }
  }

  /** The first event is acceptable, and then the second one is. */
  lemma EofIsOk(digest: Bytes -> Hash, seal: Body -> Hash, n: nat)
    requires n < 2
    ensures var events, chunks := EofPair(digest, seal), [EofChunk(0, digest), EofChunk(1, digest)];
            var previous := if n == 0 then None else Some(events[0].eventHash);
            && EventOk(events[n], previous, chunks[..n], EofPairCapture(digest, seal))
            && ToChunk(events[n].body) == chunks[n]
  {
    EofTotals(digest, n);
    var empty: Bytes := [];
    assert empty[0..0] == empty;
  }

  lemma {:induction false} EofsAccepted(digest: Bytes -> Hash, seal: Body -> Hash, n: nat)
    requires n <= 2
    ensures Accepted(EofPair(digest, seal)[..n], EofPairCapture(digest, seal)) ==
            Some([EofChunk(0, digest), EofChunk(1, digest)][..n])
    decreases n
  {
    if n > 0 {
      var events, chunks := EofPair(digest, seal), [EofChunk(0, digest), EofChunk(1, digest)];
      EofsAccepted(digest, seal, n - 1);
      EofIsOk(digest, seal, n - 1);
      assert events[..n][..n - 1] == events[..n - 1] && events[..n][n - 1] == events[n - 1];
      assert chunks[..n] == chunks[..n - 1] + [chunks[n - 1]];
    }
  }

  /** Whatever the hash functions, two EOF events of one direction are accepted, and their rows collide. */
  lemma TwoEofsAreAcceptedAndCollide(digest: Bytes -> Hash, seal: Body -> Hash)
    ensures var events, c := EofPair(digest, seal), EofPairCapture(digest, seal);
            Valid(events, c) && !UniqueOffsets(Accepted(events, c).value)
  {
    var events, chunks := EofPair(digest, seal), [EofChunk(0, digest), EofChunk(1, digest)];
    EofsAccepted(digest, seal, 2);
    EofTotals(digest, 2);
    assert events[..2] == events && chunks[..2] == chunks;
    assert chunks[0].observedSequence == 0 && chunks[1].observedSequence == 1;
    assert chunks[0].offset == chunks[1].offset;
  }
}
