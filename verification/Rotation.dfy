/**
 Rotating batches of a marker list (`_rotating_markers`), from one discovery to the next, while
 the list does not change.
 */
module Rotation {
  import opened Ordering

  /** One batch and the next cursor. */
  function Rotate<T>(markers: seq<T>, maximum: nat, cursor: nat): (seq<T>, nat)
    requires maximum >= 1
  {
    if |markers| <= maximum then (markers, 0)
    else
      var start := cursor % |markers|;
      ((markers[start..] + markers[..start])[..maximum], (start + maximum) % |markers|)
  }

  /** The cursor before the given round. */
  function CursorAt<T>(markers: seq<T>, maximum: nat, cursor: nat, round: nat): nat
    requires maximum >= 1
  {
    if round == 0 then cursor else Rotate(markers, maximum, CursorAt(markers, maximum, cursor, round - 1)).1
  }

  function Batch<T>(markers: seq<T>, maximum: nat, cursor: nat, round: nat): seq<T>
    requires maximum >= 1
  {
    Rotate(markers, maximum, CursorAt(markers, maximum, cursor, round)).0
  }

  lemma {:induction false} MultipleAtLeast(n: nat, d: int)
    requires d >= 1
    ensures n * d >= n
  {
  }

  lemma RemainderUnique(x: nat, n: nat, q: int, r: nat)
    requires r < n && x == n * q + r
    ensures x % n == r
  {
    var d := x / n - q;
    assert n * (x / n) + x % n == x;
    assert n * d == r - x % n by { assert n * d == n * (x / n) - n * q; }
    if d >= 1 {
      MultipleAtLeast(n, d);
    } else if d <= -1 {
      MultipleAtLeast(n, -d);
    }
  }

  lemma ModSubtract(x: nat, n: nat)
    requires x >= n > 0
    ensures x % n == (x - n) % n
  {
    assert n * (x / n) + x % n == x;
    assert x - n == n * (x / n - 1) + x % n;
    RemainderUnique(x - n, n, x / n - 1, x % n);
  }

  lemma {:induction false} AddMod(a: nat, b: nat, n: nat)
    requires n > 0
    ensures (a % n + b) % n == (a + b) % n
    decreases a
  {
    if a >= n {
      ModSubtract(a, n);
      ModSubtract(a + b, n);
      AddMod(a - n, b, n);
    } else {
      RemainderUnique(a, n, 0, a);
    }
  }

  /** How many positions earlier rounds have taken. */
  function Taken(maximum: nat, round: nat): nat {
    if round == 0 then 0 else Taken(maximum, round - 1) + maximum
  }

  lemma {:induction false} CursorPosition<T>(markers: seq<T>, maximum: nat, cursor: nat, round: nat)
    requires 1 <= maximum < |markers|
    ensures CursorAt(markers, maximum, cursor, round) % |markers| == (cursor + Taken(maximum, round)) % |markers|
    decreases round
  {
    var n := |markers|;
    if round > 0 {
      CursorPosition(markers, maximum, cursor, round - 1);
      var start := CursorAt(markers, maximum, cursor, round - 1) % n;
      assert CursorAt(markers, maximum, cursor, round) == (start + maximum) % n;
      AddMod(cursor + Taken(maximum, round - 1), maximum, n);
      var next := (start + maximum) % n;
      RemainderUnique(next, n, 0, next);
    }
  }

  lemma RingPosition<T>(markers: seq<T>, start: nat, k: nat)
    requires start < |markers| && k < |markers|
    ensures (markers[start..] + markers[..start])[k] == markers[(start + k) % |markers|]
  {
    var n := |markers|;
    if start + k < n {
      RemainderUnique(start + k, n, 0, start + k);
    } else {
      RemainderUnique(start + k, n, 1, start + k - n);
    }
  }

  /** A long list is read as a ring: a round takes the positions after those taken by earlier rounds. */
  lemma BatchPositions<T>(markers: seq<T>, maximum: nat, cursor: nat, round: nat, k: nat)
    requires 1 <= maximum < |markers| && k < maximum
    ensures |Batch(markers, maximum, cursor, round)| == maximum
    ensures Batch(markers, maximum, cursor, round)[k] == markers[(cursor + Taken(maximum, round) + k) % |markers|]
  {
    var n := |markers|;
    CursorPosition(markers, maximum, cursor, round);
    var start := CursorAt(markers, maximum, cursor, round) % n;
    RingPosition(markers, start, k);
    AddMod(cursor + Taken(maximum, round), k, n);
  }

  function Elements<T(==)>(s: seq<T>): set<T> {
    set x | x in s
  }

  /** The markers of the first rounds. */
  ghost function SeenIn<T>(markers: seq<T>, maximum: nat, cursor: nat, rounds: nat): set<T>
    requires maximum >= 1
  {
    if rounds == 0 then {}
    else SeenIn(markers, maximum, cursor, rounds - 1) + Elements(Batch(markers, maximum, cursor, rounds - 1))
  }

  /** The marker at the q-th position of the ring. */
  function RingAt<T>(markers: seq<T>, cursor: nat, q: nat): T
    requires markers != []
  {
    markers[(cursor + q) % |markers|]
  }

  lemma {:induction false} SeenPositions<T>(markers: seq<T>, maximum: nat, cursor: nat, rounds: nat, q: nat)
    requires 1 <= maximum < |markers| && q < Taken(maximum, rounds)
    ensures RingAt(markers, cursor, q) in SeenIn(markers, maximum, cursor, rounds)
    decreases rounds
  {
    var before := Taken(maximum, rounds - 1);
    if q < before {
      SeenPositions(markers, maximum, cursor, rounds - 1, q);
    } else {
      BatchPositions(markers, maximum, cursor, rounds - 1, q - before);
      assert cursor + before + (q - before) == cursor + q;
      assert RingAt(markers, cursor, q) in Batch(markers, maximum, cursor, rounds - 1);
    }
  }

  lemma BatchIndex<T>(markers: seq<T>, maximum: nat, cursor: nat, round: nat, x: T) returns (k: nat)
    requires 1 <= maximum < |markers|
    ensures x in Batch(markers, maximum, cursor, round) ==>
              k < maximum && RingAt(markers, cursor, Taken(maximum, round) + k) == x
  {
    var batch := Batch(markers, maximum, cursor, round);
    k := 0;
    if x in batch {
      BatchPositions(markers, maximum, cursor, round, 0);
      k :| 0 <= k < |batch| && batch[k] == x;
      BatchPositions(markers, maximum, cursor, round, k);
      assert cursor + Taken(maximum, round) + k == cursor + (Taken(maximum, round) + k);
    }
  }

  lemma {:induction false} SeenOnlyPositions<T>(markers: seq<T>, maximum: nat, cursor: nat, rounds: nat, x: T)
    returns (q: nat)
    requires 1 <= maximum < |markers|
    ensures x in SeenIn(markers, maximum, cursor, rounds) ==>
              q < Taken(maximum, rounds) && RingAt(markers, cursor, q) == x
    decreases rounds
  {
    q := 0;
    if rounds > 0 {
      if x in SeenIn(markers, maximum, cursor, rounds - 1) {
        q := SeenOnlyPositions(markers, maximum, cursor, rounds - 1, x);
      } else {
        var k := BatchIndex(markers, maximum, cursor, rounds - 1, x);
        q := Taken(maximum, rounds - 1) + k;
      }
    }
  }

  /** Every marker sits at one of the first |markers| positions of the ring. */
  lemma RingReaches<T>(markers: seq<T>, cursor: nat, i: nat) returns (q: nat)
    requires i < |markers|
    ensures q < |markers| && RingAt(markers, cursor, q) == markers[i]
  {
    var n := |markers|;
    var start := cursor % n;
    q := if i >= start then i - start else i + n - start;
    AddMod(cursor, q, n);
    if i >= start {
      RemainderUnique(start + q, n, 0, i);
    } else {
      RemainderUnique(start + q, n, 1, i);
    }
  }

  lemma RingInjective<T>(markers: seq<T>, cursor: nat, p: nat, q: nat)
    requires NoDuplicates(markers) && p < q < |markers|
    ensures RingAt(markers, cursor, p) != RingAt(markers, cursor, q)
  {
    var n := |markers|;
    var start := cursor % n;
    AddMod(cursor, p, n);
    AddMod(cursor, q, n);
    RemainderUnique(start + p, n, if start + p < n then 0 else 1, if start + p < n then start + p else start + p - n);
    RemainderUnique(start + q, n, if start + q < n then 0 else 1, if start + q < n then start + q else start + q - n);
  }

  /** Rounds whose batches together are at least as large as the list reach every marker, from any cursor. */
  lemma RotationCovers<T>(markers: seq<T>, maximum: nat, cursor: nat, rounds: nat)
    requires maximum >= 1 && Taken(maximum, rounds) >= |markers|
    ensures SeenIn(markers, maximum, cursor, rounds) == Elements(markers)
  {
    var seen := SeenIn(markers, maximum, cursor, rounds);
    SeenAreMarkers(markers, maximum, cursor, rounds);
    forall x | x in markers ensures x in seen {
      var i :| 0 <= i < |markers| && markers[i] == x;
      if |markers| > maximum {
        var q := RingReaches(markers, cursor, i);
        SeenPositions(markers, maximum, cursor, rounds, q);
      } else {
        assert x in Batch(markers, maximum, cursor, rounds - 1);
      }
    }
  }

  lemma {:induction false} SeenAreMarkers<T>(markers: seq<T>, maximum: nat, cursor: nat, rounds: nat)
    requires maximum >= 1
    ensures forall x :: x in SeenIn(markers, maximum, cursor, rounds) ==> x in markers
    decreases rounds
  {
    if rounds > 0 {
      SeenAreMarkers(markers, maximum, cursor, rounds - 1);
    }
  }

  /** As long as the rounds so far are smaller than the list, the next batch has a marker not seen yet. */
  lemma NextBatchIsNew<T>(markers: seq<T>, maximum: nat, cursor: nat, rounds: nat) returns (x: T)
    requires maximum >= 1 && NoDuplicates(markers) && Taken(maximum, rounds) < |markers|
    ensures x in Batch(markers, maximum, cursor, rounds) && x !in SeenIn(markers, maximum, cursor, rounds)
  {
    if |markers| > maximum {
      var q := Taken(maximum, rounds);
      BatchPositions(markers, maximum, cursor, rounds, 0);
      x := RingAt(markers, cursor, q);
      assert x == Batch(markers, maximum, cursor, rounds)[0];
      if x in SeenIn(markers, maximum, cursor, rounds) {
        var p := SeenOnlyPositions(markers, maximum, cursor, rounds, x);
        RingInjective(markers, cursor, p, q);
      }
    } else {
      assert rounds == 0;
      x := markers[0];
    }
  }
}
