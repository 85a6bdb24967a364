/**
 When the historical drain is complete, for adapters that may share keys: each key has a first
 round, given by its positions in the lists and the cursors, and the drain ends at the first
 round that is no key's first.
 */
module DrainTheorems {
  import opened Ordering
  import opened Rotation
  import opened Drain

  /** How far position i lies ahead of the cursor on the ring. */
  function Ahead(n: nat, cursor: nat, i: nat): nat
    requires i < n
  {
    if i >= cursor % n then i - cursor % n else i + n - cursor % n
  }

  /** The round in which the key at position i is first selected. */
  function RoundOf(n: nat, maximum: nat, cursor: nat, i: nat): nat
    requires i < n && maximum >= 1
  {
    if n <= maximum then 0 else Ahead(n, cursor, i) / maximum
  }

  lemma {:induction false} TakenCountsRounds(q: nat, maximum: nat, rounds: nat)
    requires maximum >= 1
    ensures q < Taken(maximum, rounds) <==> q / maximum < rounds
    decreases rounds
  {
    if q < maximum {
      SmallQuotient(q, maximum);
    } else if rounds > 0 {
      DivideShift(q - maximum, maximum);
      TakenCountsRounds(q - maximum, maximum, rounds - 1);
    } else {
      DivideShift(q - maximum, maximum);
    }
  }

  lemma AheadOnRing(keys: seq<nat>, cursor: nat, i: nat)
    requires i < |keys|
    ensures Ahead(|keys|, cursor, i) < |keys| && RingAt(keys, cursor, Ahead(|keys|, cursor, i)) == keys[i]
  {
    var n := |keys|;
    var start, q := cursor % n, Ahead(n, cursor, i);
    AddMod(cursor, q, n);
    RemainderUnique(start + q, n, if i >= start then 0 else 1, i);
  }

  lemma SeenByAhead(keys: seq<nat>, maximum: nat, cursor: nat, rounds: nat, i: nat)
    requires 1 <= maximum < |keys| && NoDuplicates(keys) && i < |keys|
    ensures keys[i] in SeenIn(keys, maximum, cursor, rounds) <==> Ahead(|keys|, cursor, i) < Taken(maximum, rounds)
  {
    var q := Ahead(|keys|, cursor, i);
    AheadOnRing(keys, cursor, i);
    if q < Taken(maximum, rounds) {
      SeenPositions(keys, maximum, cursor, rounds, q);
    } else if keys[i] in SeenIn(keys, maximum, cursor, rounds) {
      var p := SeenOnlyPositions(keys, maximum, cursor, rounds, keys[i]);
      RingInjective(keys, cursor, p, q);
    }
  }

  lemma {:induction false} ShortListSeen(keys: seq<nat>, maximum: nat, cursor: nat, rounds: nat)
    requires maximum >= 1 && |keys| <= maximum
    ensures SeenIn(keys, maximum, cursor, rounds) == if rounds == 0 then {} else Elements(keys)
    decreases rounds
  {
    if rounds > 0 {
      ShortListSeen(keys, maximum, cursor, rounds - 1);
    }
  }

  /** A key of a list without repetitions has been selected exactly after its round. */
  lemma SeenAfterItsRound(keys: seq<nat>, maximum: nat, cursor: nat, rounds: nat, i: nat)
    requires maximum >= 1 && NoDuplicates(keys) && i < |keys|
    ensures keys[i] in SeenIn(keys, maximum, cursor, rounds) <==> RoundOf(|keys|, maximum, cursor, i) < rounds
  {
    if |keys| <= maximum {
      ShortListSeen(keys, maximum, cursor, rounds);
    } else {
      SeenByAhead(keys, maximum, cursor, rounds, i);
      TakenCountsRounds(Ahead(|keys|, cursor, i), maximum, rounds);
    }
  }

  // All adapters together.

  /** No adapter lists a key twice; adapters may share keys. */
  ghost predicate OwnKeysDistinct(sources: seq<Source>) {
    forall a :: 0 <= a < |sources| ==> NoDuplicates(sources[a].keys)
  }

  /** Some adapter first selects the key in the round. */
  ghost predicate SelectedIn(sources: seq<Source>, maximum: nat, x: nat, round: nat)
    requires maximum >= 1
  {
    exists a, i :: 0 <= a < |sources| && 0 <= i < |sources[a].keys| && sources[a].keys[i] == x &&
                   RoundOf(|sources[a].keys|, maximum, sources[a].cursor, i) == round
  }

  /** The earliest such round. */
  ghost predicate FirstIn(sources: seq<Source>, maximum: nat, x: nat, round: nat)
    requires maximum >= 1
  {
    SelectedIn(sources, maximum, x, round) && forall r :: 0 <= r < round ==> !SelectedIn(sources, maximum, x, r)
  }

  lemma SeenWhenSelected(sources: seq<Source>, maximum: nat, passes: nat, x: nat, round: nat)
    requires maximum >= 1 && OwnKeysDistinct(sources) && SelectedIn(sources, maximum, x, round) && round < passes
    ensures Seen(sources, maximum, passes, x)
  {
    var a, i :| 0 <= a < |sources| && 0 <= i < |sources[a].keys| && sources[a].keys[i] == x &&
                RoundOf(|sources[a].keys|, maximum, sources[a].cursor, i) == round;
    SeenAfterItsRound(sources[a].keys, maximum, sources[a].cursor, passes, i);
  }

  lemma SelectedWhenSeen(sources: seq<Source>, maximum: nat, passes: nat, x: nat) returns (round: nat)
    requires maximum >= 1 && OwnKeysDistinct(sources)
    ensures Seen(sources, maximum, passes, x) ==> round < passes && SelectedIn(sources, maximum, x, round)
  {
    round := 0;
    if a :| 0 <= a < |sources| && x in SeenIn(sources[a].keys, maximum, sources[a].cursor, passes) {
      var keys := sources[a].keys;
      SeenAreMarkers(keys, maximum, sources[a].cursor, passes);
      var i :| 0 <= i < |keys| && keys[i] == x;
      SeenAfterItsRound(keys, maximum, sources[a].cursor, passes, i);
      round := RoundOf(|keys|, maximum, sources[a].cursor, i);
    }
  }

  lemma {:induction false} Earliest(sources: seq<Source>, maximum: nat, x: nat, round: nat) returns (first: nat)
    requires maximum >= 1 && SelectedIn(sources, maximum, x, round)
    ensures first <= round && FirstIn(sources, maximum, x, first)
    decreases round
  {
    if r :| 0 <= r < round && SelectedIn(sources, maximum, x, r) {
      first := Earliest(sources, maximum, x, r);
    } else {
      first := round;
    }
  }

  /** A key has been seen exactly after its first round. */
  lemma SeenAfterFirst(sources: seq<Source>, maximum: nat, passes: nat, x: nat, round: nat)
    requires maximum >= 1 && OwnKeysDistinct(sources) && FirstIn(sources, maximum, x, round)
    ensures Seen(sources, maximum, passes, x) <==> round < passes
  {
    if round < passes {
      SeenWhenSelected(sources, maximum, passes, x, round);
    } else if Seen(sources, maximum, passes, x) {
      var _ := SelectedWhenSeen(sources, maximum, passes, x);
    }
  }

  lemma KeyHasFirst(sources: seq<Source>, maximum: nat, x: nat) returns (round: nat)
    requires maximum >= 1 && IsKey(sources, x)
    ensures FirstIn(sources, maximum, x, round)
  {
    var a :| 0 <= a < |sources| && x in sources[a].keys;
    var i :| 0 <= i < |sources[a].keys| && sources[a].keys[i] == x;
    round := Earliest(sources, maximum, x, RoundOf(|sources[a].keys|, maximum, sources[a].cursor, i));
  }

  lemma FirstIsKey(sources: seq<Source>, maximum: nat, x: nat, round: nat)
    requires maximum >= 1 && FirstIn(sources, maximum, x, round)
    ensures IsKey(sources, x)
  {
  }

  ghost predicate HasFirst(sources: seq<Source>, maximum: nat, round: nat)
    requires maximum >= 1
  {
    exists x :: FirstIn(sources, maximum, x, round)
  }

  /** A pass brings nothing new exactly if it is no key's first round. */
  lemma QuietExactlyWithoutFirst(sources: seq<Source>, maximum: nat, pass: nat)
    requires maximum >= 1 && OwnKeysDistinct(sources)
    ensures QuietPass(sources, maximum, pass) <==> !HasFirst(sources, maximum, pass)
  {
    if x :| FirstIn(sources, maximum, x, pass) {
      SeenAfterFirst(sources, maximum, pass, x, pass);
      SeenAfterFirst(sources, maximum, pass + 1, x, pass);
      SeenStep(sources, maximum, pass, x);
      FirstIsKey(sources, maximum, x, pass);
      assert x in PassSet(sources, maximum, pass) && x !in SeenSet(sources, maximum, pass);
    } else {
      forall x | x in PassSet(sources, maximum, pass) ensures x in SeenSet(sources, maximum, pass) {
        SeenStep(sources, maximum, pass, x);
        var r := SelectedWhenSeen(sources, maximum, pass + 1, x);
        var first := Earliest(sources, maximum, x, r);
        assert first != pass;
        SeenAfterFirst(sources, maximum, pass, x, first);
      }
    }
  }

  ghost predicate AllSeen(sources: seq<Source>, maximum: nat, passes: nat)
    requires maximum >= 1
  {
    forall x :: IsKey(sources, x) ==> Seen(sources, maximum, passes, x)
  }

  /** The rounds that are some key's first. */
  ghost function Firsts(sources: seq<Source>, maximum: nat): nat -> bool
    requires maximum >= 1
  {
    (round: nat) => HasFirst(sources, maximum, round)
  }

  /** Below every such round there are only such rounds. */
  ghost predicate NoGap(first: nat -> bool) {
    forall round: nat, r: nat :: first(round) && r < round ==> first(r)
  }

  lemma GapAtFirstMiss(first: nat -> bool, stop: nat)
    requires !first(stop) && forall r: nat :: r < stop ==> first(r)
    ensures NoGap(first) <==> forall r: nat :: first(r) ==> r < stop
  {
  }

  lemma AllSeenMeansBefore(sources: seq<Source>, maximum: nat, passes: nat)
    requires maximum >= 1 && OwnKeysDistinct(sources)
    ensures AllSeen(sources, maximum, passes) <==>
            forall round: nat :: Firsts(sources, maximum)(round) ==> round < passes
  {
    if AllSeen(sources, maximum, passes) {
      forall round: nat | Firsts(sources, maximum)(round) ensures round < passes {
        var x :| FirstIn(sources, maximum, x, round);
        FirstIsKey(sources, maximum, x, round);
        SeenAfterFirst(sources, maximum, passes, x, round);
      }
    } else {
      var x :| IsKey(sources, x) && !Seen(sources, maximum, passes, x);
      var round := KeyHasFirst(sources, maximum, x);
      SeenAfterFirst(sources, maximum, passes, x, round);
      assert Firsts(sources, maximum)(round) && round >= passes;
    }
  }

  /** The drain ends with every key seen if and only if the first rounds of the keys leave no gap. */
  lemma CompleteExactlyWithoutGap(sources: seq<Source>, maximum: nat, limit: nat)
    requires maximum >= 1 && OwnKeysDistinct(sources) && StopPass(sources, maximum, limit) < limit
    ensures AllSeen(sources, maximum, StopPass(sources, maximum, limit)) <==> NoGap(Firsts(sources, maximum))
  {
    var stop := StopPass(sources, maximum, limit);
    AllSeenMeansBefore(sources, maximum, stop);
    StopAtFirstMiss(sources, maximum, limit);
    GapAtFirstMiss(Firsts(sources, maximum), stop);
  }

  lemma StopAtFirstMiss(sources: seq<Source>, maximum: nat, limit: nat)
    requires maximum >= 1 && OwnKeysDistinct(sources) && StopPass(sources, maximum, limit) < limit
    ensures var stop, first := StopPass(sources, maximum, limit), Firsts(sources, maximum);
            !first(stop) && forall r: nat :: r < stop ==> first(r)
  {
    var stop, quiet := StopPass(sources, maximum, limit), Quiets(sources, maximum);
    FirstQuietMeaning(quiet, 0, limit);
    assert quiet(stop);
    QuietExactlyWithoutFirst(sources, maximum, stop);
    forall r: nat | r < stop ensures Firsts(sources, maximum)(r) {
      assert !quiet(r);
      QuietExactlyWithoutFirst(sources, maximum, r);
    }
  }

  // An input on which it is not.

  /** Two fresh adapters; the keys of the second are two of the first. */
  function Shared(): seq<Source> {
    [Source([1, 2, 3, 4], 0), Source([2, 3], 0)]
  }

  lemma SharedRounds(x: nat, round: nat)
    ensures SelectedIn(Shared(), 1, x, round) <==>
            (1 <= x <= 4 && round == x - 1) || (2 <= x <= 3 && round == x - 2)
  {
    var sources := Shared();
    assert forall i :: 0 <= i < 4 ==> RoundOf(4, 1, 0, i) == i;
    assert forall i :: 0 <= i < 2 ==> RoundOf(2, 1, 0, i) == i;
    if 1 <= x <= 4 && round == x - 1 {
      assert sources[0].keys[x - 1] == x;
    }
    if 2 <= x <= 3 && round == x - 2 {
      assert sources[1].keys[x - 2] == x;
    }
  }

  lemma SharedFirsts()
    ensures HasFirst(Shared(), 1, 0) && HasFirst(Shared(), 1, 1) && !HasFirst(Shared(), 1, 2)
    ensures FirstIn(Shared(), 1, 4, 3)
  {
    forall x: nat, r: nat
      ensures SelectedIn(Shared(), 1, x, r) <==> (1 <= x <= 4 && r == x - 1) || (2 <= x <= 3 && r == x - 2)
    {
      SharedRounds(x, r);
    }
    assert FirstIn(Shared(), 1, 1, 0) && FirstIn(Shared(), 1, 3, 1);
  }

  lemma SharedDistinct()
    ensures OwnKeysDistinct(Shared())
  {
  }

  /** With a batch of one their third pass repeats known keys, so the drain ends there and never sees the last key. */
  lemma SharedKeysStopEarly(limit: nat)
    requires limit > 2
    ensures StopPass(Shared(), 1, limit) == 2 && IsKey(Shared(), 4) && !Seen(Shared(), 1, 2, 4)
  {
    SharedFirsts();
    SharedDistinct();
    QuietExactlyWithoutFirst(Shared(), 1, 0);
    QuietExactlyWithoutFirst(Shared(), 1, 1);
    QuietExactlyWithoutFirst(Shared(), 1, 2);
    StopsAtTwo(Quiets(Shared(), 1), limit);
    FirstIsKey(Shared(), 1, 4, 3);
    SeenAfterFirst(Shared(), 1, 2, 4, 3);
  }

  lemma StopsAtTwo(quiet: nat -> bool, limit: nat)
    requires limit > 2 && !quiet(0) && !quiet(1) && quiet(2)
    ensures FirstQuiet(quiet, 0, limit) == 2
  {
    assert FirstQuiet(quiet, 2, limit) == 2 && FirstQuiet(quiet, 1, limit) == 2;
  }
}
