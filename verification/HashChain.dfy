/**
 Hash-chained records (`chained_hash`, `verify_chain`). A hasher maps a record's body, its
 own `previous_hash` field and the parent digest to a digest; it stands for SHA-256 over the
 parent's bytes followed by the canonical form of the record.
 */
module HashChain {
  import opened Options

  type Hash = nat
  const ZERO_HASH: Hash := 0

  datatype Record<T> = Record(body: T, previousHash: Hash, recordHash: Hash)

  type Hasher<!T> = (T, Hash, Hash) -> Hash

  /** The digest that the next record must name as its parent. */
  function Head<T>(records: seq<Record<T>>): Hash {
    if records == [] then ZERO_HASH else records[|records| - 1].recordHash
  }

  ghost predicate LinkedAt<T(!new)>(records: seq<Record<T>>, h: Hasher<T>, i: nat)
    requires i < |records|
  {
    records[i].previousHash == Head(records[..i]) &&
    records[i].recordHash == h(records[i].body, Head(records[..i]), Head(records[..i]))
  }

  /** Every record names its predecessor and carries the digest of its own content. */
  ghost predicate Chained<T(!new)>(records: seq<Record<T>>, h: Hasher<T>) {
    forall i :: 0 <= i < |records| ==> LinkedAt(records, h, i)
  }

  method VerifyChain<T(!new)>(records: seq<Record<T>>, h: Hasher<T>) returns (ok: bool)
    ensures ok <==> Chained(records, h)
  {
    var previous: Option<Hash> := None;
    for i := 0 to |records|
      invariant (if previous.None? then ZERO_HASH else previous.value) == Head(records[..i])
      invariant forall k :: 0 <= k < i ==> LinkedAt(records, h, k)
    {
      var parent := if previous.None? then ZERO_HASH else previous.value;
      var record := records[i];
      if record.previousHash != parent {
        assert !LinkedAt(records, h, i);
        return false;
      }
      if h(record.body, record.previousHash, parent) != record.recordHash {
        assert !LinkedAt(records, h, i);
        return false;
      }
      previous := Some(record.recordHash);
    }
    ok := true;
  }

  function Extend<T>(records: seq<Record<T>>, body: T, h: Hasher<T>): seq<Record<T>> {
    records + [Record(body, Head(records), h(body, Head(records), Head(records)))]
  }

  lemma ExtendChained<T(!new)>(records: seq<Record<T>>, body: T, h: Hasher<T>)
    requires Chained(records, h)
    ensures Chained(Extend(records, body, h), h)
    ensures Head(Extend(records, body, h)) == h(body, Head(records), Head(records))
  {
    var more := Extend(records, body, h);
    forall i | 0 <= i < |more| ensures LinkedAt(more, h, i) {
      assert more[..i] == records[..i];
      if i < |records| {
        assert LinkedAt(records, h, i);
      } else {
        assert records[..i] == records;
      }
    }
  }

  lemma PrefixChained<T(!new)>(records: seq<Record<T>>, h: Hasher<T>, n: nat)
    requires Chained(records, h) && n <= |records|
    ensures Chained(records[..n], h)
  {
    forall i | 0 <= i < n ensures LinkedAt(records[..n], h, i) {
      assert LinkedAt(records, h, i);
      assert records[..n][..i] == records[..i];
    }
  }

  // Tamper evidence.

  /** Two different inputs with one digest. */
  ghost predicate HasCollision<T(!new)>(h: Hasher<T>) {
    exists a, b, c, x, y, z :: (a, b, c) != (x, y, z) && h(a, b, c) == h(x, y, z)
  }

  ghost predicate HitsZero<T(!new)>(h: Hasher<T>) {
    exists a, b, c :: h(a, b, c) == ZERO_HASH
  }

  /**
   Two accepted chains with the same final digest are identical record by record, or they
   exhibit a collision of the hash or an input that hashes to the zero digest.
   */
  lemma {:induction false} SameHeadSameChain<T(!new)>(a: seq<Record<T>>, b: seq<Record<T>>, h: Hasher<T>)
    requires Chained(a, h) && Chained(b, h) && Head(a) == Head(b)
    ensures a == b || HasCollision(h) || HitsZero(h)
    decreases |a|
  {
    if a == [] && b == [] {
    } else if a == [] {
      assert LinkedAt(b, h, |b| - 1);
    } else if b == [] {
      assert LinkedAt(a, h, |a| - 1);
    } else {
      var m, n := |a| - 1, |b| - 1;
      assert LinkedAt(a, h, m) && LinkedAt(b, h, n);
      var p, q := Head(a[..m]), Head(b[..n]);
      assert h(a[m].body, p, p) == h(b[n].body, q, q);
      if (a[m].body, p, p) == (b[n].body, q, q) {
        PrefixChained(a, h, m);
        PrefixChained(b, h, n);
        SameHeadSameChain(a[..m], b[..n], h);
        assert a == a[..m] + [a[m]] && b == b[..n] + [b[n]];
      }
    }
  }

  /** With a collision-free hash that never yields the zero digest, the final digest fixes the whole chain. */
  lemma HeadDeterminesChain<T(!new)>(a: seq<Record<T>>, b: seq<Record<T>>, h: Hasher<T>)
    requires Chained(a, h) && Chained(b, h) && Head(a) == Head(b)
    requires !HasCollision(h) && !HitsZero(h)
    ensures a == b
  {
    SameHeadSameChain(a, b, h);
  }
}
