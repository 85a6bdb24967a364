/**
 The historical drain (`HistoricalImporter.run`): passes over all adapters until a pass
 reports no key that was not seen before. The adapters' source trees do not change during
 the run.
 */
module Drain {
  import opened Options
  import opened Ordering
  import opened Rotation

  /** An adapter: the keys of its markers in sorted order, and its discovery cursor at the start. */
  datatype Source = Source(keys: seq<nat>, cursor: nat)

  /** An adapter's keys are distinct and no key belongs to two adapters. */
  ghost predicate Separate(sources: seq<Source>) {
    && (forall i :: 0 <= i < |sources| ==> NoDuplicates(sources[i].keys))
    && (forall i, j, x :: 0 <= i < j < |sources| && x in sources[i].keys ==> x !in sources[j].keys)
  }

  /** The keys that a pass reports. */
  ghost predicate Reports(sources: seq<Source>, maximum: nat, pass: nat, x: nat)
    requires maximum >= 1
  {
    exists i :: 0 <= i < |sources| && x in Batch(sources[i].keys, maximum, sources[i].cursor, pass)
  }

  /** The keys of the passes so far. */
  ghost predicate Seen(sources: seq<Source>, maximum: nat, passes: nat, x: nat)
    requires maximum >= 1
  {
    exists i :: 0 <= i < |sources| && x in SeenIn(sources[i].keys, maximum, sources[i].cursor, passes)
  }

  ghost predicate IsKey(sources: seq<Source>, x: nat) {
    exists i :: 0 <= i < |sources| && x in sources[i].keys
  }

  /** Every adapter has been through its whole list. */
  ghost predicate Exhausted(sources: seq<Source>, maximum: nat, passes: nat) {
    forall i :: 0 <= i < |sources| ==> Taken(maximum, passes) >= |sources[i].keys|
  }

  lemma SeenStep(sources: seq<Source>, maximum: nat, passes: nat, x: nat)
    requires maximum >= 1
    ensures Seen(sources, maximum, passes + 1, x) <==>
              Seen(sources, maximum, passes, x) || Reports(sources, maximum, passes, x)
  {
    if Seen(sources, maximum, passes + 1, x) {
      var i :| 0 <= i < |sources| && x in SeenIn(sources[i].keys, maximum, sources[i].cursor, passes + 1);
    }
    if Seen(sources, maximum, passes, x) {
      var i :| 0 <= i < |sources| && x in SeenIn(sources[i].keys, maximum, sources[i].cursor, passes);
      assert x in SeenIn(sources[i].keys, maximum, sources[i].cursor, passes + 1);
    }
    if Reports(sources, maximum, passes, x) {
      var i :| 0 <= i < |sources| && x in Batch(sources[i].keys, maximum, sources[i].cursor, passes);
      assert x in SeenIn(sources[i].keys, maximum, sources[i].cursor, passes + 1);
    }
  }

  lemma ExhaustedSeesAll(sources: seq<Source>, maximum: nat, passes: nat, x: nat)
    requires maximum >= 1 && Exhausted(sources, maximum, passes)
    ensures Seen(sources, maximum, passes, x) <==> IsKey(sources, x)
  {
    forall i | 0 <= i < |sources|
      ensures SeenIn(sources[i].keys, maximum, sources[i].cursor, passes) == Elements(sources[i].keys)
    {
      RotationCovers(sources[i].keys, maximum, sources[i].cursor, passes);
    }
    if IsKey(sources, x) {
      var i :| 0 <= i < |sources| && x in sources[i].keys;
      assert x in SeenIn(sources[i].keys, maximum, sources[i].cursor, passes);
    }
    if Seen(sources, maximum, passes, x) {
      var i :| 0 <= i < |sources| && x in SeenIn(sources[i].keys, maximum, sources[i].cursor, passes);
      assert x in sources[i].keys;
    }
  }

  lemma BatchFromList(keys: seq<nat>, maximum: nat, cursor: nat, round: nat, x: nat)
    requires maximum >= 1
    ensures x in Batch(keys, maximum, cursor, round) ==> x in keys
  {
  }

  /** A pass brings nothing new exactly when every adapter has been through its whole list. */
  lemma NothingNewMeansExhausted(sources: seq<Source>, maximum: nat, passes: nat)
    requires maximum >= 1 && Separate(sources)
    ensures Exhausted(sources, maximum, passes) <==>
            forall x :: Reports(sources, maximum, passes, x) ==> Seen(sources, maximum, passes, x)
  {
    if Exhausted(sources, maximum, passes) {
      forall x | Reports(sources, maximum, passes, x) ensures Seen(sources, maximum, passes, x) {
        var i :| 0 <= i < |sources| && x in Batch(sources[i].keys, maximum, sources[i].cursor, passes);
        BatchFromList(sources[i].keys, maximum, sources[i].cursor, passes, x);
        assert IsKey(sources, x);
        ExhaustedSeesAll(sources, maximum, passes, x);
      }
    } else {
      var i :| 0 <= i < |sources| && Taken(maximum, passes) < |sources[i].keys|;
      var x := NextBatchIsNew(sources[i].keys, maximum, sources[i].cursor, passes);
      assert Reports(sources, maximum, passes, x);
      BatchFromList(sources[i].keys, maximum, sources[i].cursor, passes, x);
      SeenByItsOwner(sources, maximum, passes, i, x);
    }
  }

  lemma SeenByItsOwner(sources: seq<Source>, maximum: nat, passes: nat, i: nat, x: nat)
    requires maximum >= 1 && Separate(sources) && i < |sources|
    requires x in sources[i].keys
    ensures Seen(sources, maximum, passes, x) ==> x in SeenIn(sources[i].keys, maximum, sources[i].cursor, passes)
  {
    if j :| 0 <= j < |sources| && x in SeenIn(sources[j].keys, maximum, sources[j].cursor, passes) {
      SeenAreMarkers(sources[j].keys, maximum, sources[j].cursor, passes);
      assert i == j;
    }
  }

  // How many passes that takes.

  /** Rounded up: the rounds of size `maximum` that a list of n markers needs. */
  function Rounds(n: nat, maximum: nat): nat
    requires maximum >= 1
    decreases n
  {
    if n <= maximum then (if n == 0 then 0 else 1) else 1 + Rounds(n - maximum, maximum)
  }

  lemma {:induction false} RoundsIsCeiling(n: nat, maximum: nat)
    requires maximum >= 1
    ensures Rounds(n, maximum) == (n + maximum - 1) / maximum
    decreases n
  {
    if n > maximum {
      RoundsIsCeiling(n - maximum, maximum);
      assert (n + maximum - 1) / maximum == 1 + (n - maximum + maximum - 1) / maximum by {
        DivideShift(n - 1, maximum);
      }
    } else if n > 0 {
      DivideShift(n - 1, maximum);
      SmallQuotient(n - 1, maximum);
    } else {
      SmallQuotient(maximum - 1, maximum);
    }
  }

  lemma SmallQuotient(x: nat, m: nat)
    requires x < m
    ensures x / m == 0
  {
    assert m * (x / m) + x % m == x;
    if x / m >= 1 {
      MultipleAtLeast(m, x / m);
    }
  }

  lemma DivideShift(x: nat, m: nat)
    requires m >= 1
    ensures (x + m) / m == x / m + 1
  {
    ModSubtract(x + m, m);
    assert m * ((x + m) / m) + (x + m) % m == x + m;
    assert m * (x / m) + x % m == x;
    assert m * ((x + m) / m) == m * (x / m + 1);
    var d := (x + m) / m - (x / m + 1);
    assert m * d == 0;
    if d >= 1 { MultipleAtLeast(m, d); }
    if d <= -1 { MultipleAtLeast(m, -d); }
  }

  lemma {:induction false} TakenMeetsRounds(n: nat, maximum: nat, rounds: nat)
    requires maximum >= 1
    ensures Taken(maximum, rounds) >= n <==> rounds >= Rounds(n, maximum)
    decreases rounds
  {
    if rounds > 0 {
      TakenMeetsRounds(if n <= maximum then 0 else n - maximum, maximum, rounds - 1);
    }
  }

  /** What the longest adapter needs. */
  function Longest(sources: seq<Source>, maximum: nat): nat
    requires maximum >= 1
  {
    if sources == [] then 0
    else
      var rest := Longest(sources[1..], maximum);
      var first := Rounds(|sources[0].keys|, maximum);
      if first >= rest then first else rest
  }

  lemma {:induction false} ExhaustedAtLongest(sources: seq<Source>, maximum: nat, passes: nat)
    requires maximum >= 1
    ensures Exhausted(sources, maximum, passes) <==> passes >= Longest(sources, maximum)
    decreases |sources|
  {
    if sources != [] {
      ExhaustedAtLongest(sources[1..], maximum, passes);
      TakenMeetsRounds(|sources[0].keys|, maximum, passes);
      assert sources == [sources[0]] + sources[1..];
    }
  }

  // The drain itself.

  ghost function KeySet(sources: seq<Source>): set<nat> {
    set i, x | 0 <= i < |sources| && x in sources[i].keys :: x
  }

  ghost function SeenSet(sources: seq<Source>, maximum: nat, passes: nat): set<nat>
    requires maximum >= 1
  {
    set x | x in KeySet(sources) && Seen(sources, maximum, passes, x)
  }

  ghost function PassSet(sources: seq<Source>, maximum: nat, pass: nat): set<nat>
    requires maximum >= 1
  {
    set x | x in KeySet(sources) && Reports(sources, maximum, pass, x)
  }

  lemma ReportedAreKeys(sources: seq<Source>, maximum: nat, pass: nat, x: nat)
    requires maximum >= 1
    ensures Reports(sources, maximum, pass, x) ==> x in KeySet(sources)
  {
    if i :| 0 <= i < |sources| && x in Batch(sources[i].keys, maximum, sources[i].cursor, pass) {
      BatchFromList(sources[i].keys, maximum, sources[i].cursor, pass, x);
    }
  }

  lemma SeenSetStep(sources: seq<Source>, maximum: nat, pass: nat)
    requires maximum >= 1
    ensures SeenSet(sources, maximum, pass + 1) == SeenSet(sources, maximum, pass) + PassSet(sources, maximum, pass)
  {
    forall x ensures x in SeenSet(sources, maximum, pass + 1) <==>
                     x in SeenSet(sources, maximum, pass) || x in PassSet(sources, maximum, pass)
    {
      SeenStep(sources, maximum, pass, x);
    }
  }

  /** A pass brings nothing new exactly from the number of passes on that the longest adapter needs. */
  lemma NothingNewAtLongest(sources: seq<Source>, maximum: nat, pass: nat)
    requires maximum >= 1 && Separate(sources)
    ensures PassSet(sources, maximum, pass) <= SeenSet(sources, maximum, pass) <==> pass >= Longest(sources, maximum)
  {
    ExhaustedAtLongest(sources, maximum, pass);
    NothingNewMeansExhausted(sources, maximum, pass);
    if pass >= Longest(sources, maximum) {
      forall x | x in PassSet(sources, maximum, pass) ensures x in SeenSet(sources, maximum, pass) {
      }
    } else {
      var x :| Reports(sources, maximum, pass, x) && !Seen(sources, maximum, pass, x);
      ReportedAreKeys(sources, maximum, pass, x);
      assert x in PassSet(sources, maximum, pass) && x !in SeenSet(sources, maximum, pass);
    }
  }

  lemma AllSeenAtLongest(sources: seq<Source>, maximum: nat, passes: nat)
    requires maximum >= 1 && passes >= Longest(sources, maximum)
    ensures SeenSet(sources, maximum, passes) == KeySet(sources)
  {
    ExhaustedAtLongest(sources, maximum, passes);
    forall x | x in KeySet(sources) ensures Seen(sources, maximum, passes, x) {
      assert IsKey(sources, x);
      ExhaustedSeesAll(sources, maximum, passes, x);
    }
  }

  ghost predicate CursorsAt(sources: seq<Source>, maximum: nat, pass: nat, cursors: seq<nat>)
    requires maximum >= 1
  {
    |cursors| == |sources| &&
    forall i :: 0 <= i < |sources| ==> cursors[i] == CursorAt(sources[i].keys, maximum, sources[i].cursor, pass)
  }

  /** One `run_once`: the reported keys, and every adapter's next cursor. */
  method RunOnce(sources: seq<Source>, maximum: nat, ghost pass: nat, cursors: seq<nat>)
    returns (keys: set<nat>, next: seq<nat>)
    requires maximum >= 1 && CursorsAt(sources, maximum, pass, cursors)
    ensures keys == PassSet(sources, maximum, pass)
    ensures CursorsAt(sources, maximum, pass + 1, next)
  {
    keys, next := {}, [];
    for a := 0 to |sources|
      invariant |next| == a
      invariant forall i :: 0 <= i < a ==> next[i] == CursorAt(sources[i].keys, maximum, sources[i].cursor, pass + 1)
      invariant forall x :: x in keys <==>
                exists i :: 0 <= i < a && x in Batch(sources[i].keys, maximum, sources[i].cursor, pass)
    {
      var (selected, cursor) := Rotate(sources[a].keys, maximum, cursors[a]);
      assert selected == Batch(sources[a].keys, maximum, sources[a].cursor, pass);
      keys := keys + (set x | x in selected);
      next := next + [cursor];
    }
    forall x ensures x in keys <==> x in PassSet(sources, maximum, pass) {
      if Reports(sources, maximum, pass, x) {
        ReportedAreKeys(sources, maximum, pass, x);
      }
    }
  }

  datatype Report = Report(seen: set<nat>, passes: nat, limitReached: bool)

  /** The pass reports no key that was not seen before. */
  ghost predicate QuietPass(sources: seq<Source>, maximum: nat, pass: nat)
    requires maximum >= 1
  {
    PassSet(sources, maximum, pass) <= SeenSet(sources, maximum, pass)
  }

  ghost function Quiets(sources: seq<Source>, maximum: nat): nat -> bool
    requires maximum >= 1
  {
    (pass: nat) => QuietPass(sources, maximum, pass)
  }

  /** The first quiet pass from `pass` on, or the limit. */
  ghost function FirstQuiet(quiet: nat -> bool, pass: nat, limit: nat): nat
    requires pass <= limit
    decreases limit - pass
  {
    if pass == limit || quiet(pass) then pass else FirstQuiet(quiet, pass + 1, limit)
  }

  lemma {:induction false} FirstQuietMeaning(quiet: nat -> bool, pass: nat, limit: nat)
    requires pass <= limit
    ensures var stop := FirstQuiet(quiet, pass, limit);
            && pass <= stop <= limit
            && (stop < limit ==> quiet(stop))
            && forall p :: pass <= p < stop ==> !quiet(p)
    decreases limit - pass
  {
    if pass < limit && !quiet(pass) {
      FirstQuietMeaning(quiet, pass + 1, limit);
    }
  }

  ghost function StopPass(sources: seq<Source>, maximum: nat, limit: nat): nat
    requires maximum >= 1
  {
    FirstQuiet(Quiets(sources, maximum), 0, limit)
  }

  lemma {:induction false} FirstQuietAt(quiet: nat -> bool, pass: nat, limit: nat, first: nat)
    requires pass <= limit && pass <= first && forall p: nat :: quiet(p) <==> p >= first
    ensures FirstQuiet(quiet, pass, limit) == if limit <= first then limit else first
    decreases limit - pass
  {
    if pass < limit && pass < first {
      FirstQuietAt(quiet, pass + 1, limit, first);
    }
  }

  /** When no key belongs to two adapters, the first quiet pass is the one after the longest adapter's need. */
  lemma SeparateStop(sources: seq<Source>, maximum: nat, limit: nat)
    requires maximum >= 1 && Separate(sources)
    ensures var longest := Longest(sources, maximum);
            StopPass(sources, maximum, limit) == if limit <= longest then limit else longest
  {
    forall p: nat ensures Quiets(sources, maximum)(p) <==> p >= Longest(sources, maximum) {
      NothingNewAtLongest(sources, maximum, p);
    }
    FirstQuietAt(Quiets(sources, maximum), 0, limit, Longest(sources, maximum));
  }

  /**
   The drain stops without the pass-limit error at the first quiet pass. When no key belongs
   to two adapters that is after every key of every adapter was seen, in exactly one pass more
   than the longest adapter needs; the limit is reported exactly when that many passes were
   not allowed.
   */
  method Run(sources: seq<Source>, maximumPerAdapter: int, maximumPasses: int) returns (r: Result<Report, string>)
    ensures r.Err? <==> maximumPerAdapter < 1 || maximumPasses < 1
    ensures r.Ok? ==> var stop := StopPass(sources, maximumPerAdapter, maximumPasses);
                      && (r.value.limitReached <==> stop == maximumPasses)
                      && (!r.value.limitReached ==> r.value.passes == stop + 1)
                      && r.value.seen == SeenSet(sources, maximumPerAdapter, stop)
    ensures r.Ok? && Separate(sources) ==>
              (r.value.limitReached <==> maximumPasses <= Longest(sources, maximumPerAdapter))
    ensures r.Ok? && Separate(sources) && !r.value.limitReached ==>
              r.value.passes == Longest(sources, maximumPerAdapter) + 1 && r.value.seen == KeySet(sources)
  {
    if maximumPerAdapter < 1 || maximumPasses < 1 {
      return Err("historical import bounds must be positive");
    }
    var report := DrainPasses(sources, maximumPerAdapter, maximumPasses);
    if Separate(sources) {
      SeparateStop(sources, maximumPerAdapter, maximumPasses);
      AllSeenAtLongest(sources, maximumPerAdapter, Longest(sources, maximumPerAdapter));
    }
    r := Ok(report);
  }

  /** The loop over the passes. */
  method DrainPasses(sources: seq<Source>, maximum: nat, maximumPasses: nat) returns (r: Report)
    requires maximum >= 1
    ensures var stop := StopPass(sources, maximum, maximumPasses);
            && (r.limitReached <==> stop == maximumPasses)
            && (!r.limitReached ==> r.passes == stop + 1)
            && r.seen == SeenSet(sources, maximum, stop)
  {
    var cursors: seq<nat> := seq(|sources|, i requires 0 <= i < |sources| => sources[i].cursor);
    var seen: set<nat> := {};
    NothingSeenYet(sources, maximum);
    for pass := 0 to maximumPasses
      invariant CursorsAt(sources, maximum, pass, cursors)
      invariant seen == SeenSet(sources, maximum, pass)
      invariant StopPass(sources, maximum, maximumPasses) == FirstQuiet(Quiets(sources, maximum), pass, maximumPasses)
    {
      var newlySeen;
      newlySeen, cursors := MakePass(sources, maximum, pass, cursors, seen);
      if newlySeen == {} {
        return Report(seen, pass + 1, false);
      }
      seen := seen + newlySeen;
    }
    r := Report(seen, maximumPasses, true);
  }

  lemma NewOnes(keys: set<nat>, seen: set<nat>)
    ensures keys - seen == {} <==> keys <= seen
    ensures seen + (keys - seen) == seen + keys
  {
    assert forall x :: x in keys && x !in seen ==> x in keys - seen;
  }

  /** One pass and its keys that were not seen before. */
  method MakePass(sources: seq<Source>, maximum: nat, ghost pass: nat, cursors: seq<nat>, seen: set<nat>)
    returns (newlySeen: set<nat>, next: seq<nat>)
    requires maximum >= 1 && CursorsAt(sources, maximum, pass, cursors)
    requires seen == SeenSet(sources, maximum, pass)
    ensures newlySeen == {} <==> QuietPass(sources, maximum, pass)
    ensures seen + newlySeen == SeenSet(sources, maximum, pass + 1)
    ensures CursorsAt(sources, maximum, pass + 1, next)
  {
    var keys;
    keys, next := RunOnce(sources, maximum, pass, cursors);
    newlySeen := keys - seen;
    SeenSetStep(sources, maximum, pass);
    NewOnes(keys, seen);
  }

  lemma NothingSeenYet(sources: seq<Source>, maximum: nat)
    requires maximum >= 1
    ensures SeenSet(sources, maximum, 0) == {}
  {
  }
}
