/**
 Watermark paging of the correlation worker (`_candidate_batch`): each run takes the first
 `limit` document versions, in (parsed_at, id) order, that lie beyond the watermark or are
 uncorrelated within the lookback, and moves the watermark to the last of them. The three
 recorded settings (parser activation, correlation and pricing algorithm) are one value;
 a change of it, or a deleted watermark, restarts from the beginning.
 */
module Watermark {
  import opened Options

  datatype Version = Version(parsedAt: int, id: nat)

  datatype Mark = Mark(cursor: Version, settings: nat)

  predicate Before(a: Version, b: Version) {
    a.parsedAt < b.parsedAt || (a.parsedAt == b.parsedAt && a.id < b.id)
  }

  predicate AtMost(a: Version, b: Version) {
    a == b || Before(a, b)
  }

  /** What one run is given besides the watermark and the eligible versions. */
  datatype Query = Query(settings: nat, uncorrelated: set<Version>, lookback: nat, limit: nat)

  predicate Restarts(mark: Option<Mark>, settings: nat) {
    mark.None? || mark.value.settings != settings
  }

  /** The versions a run has not passed yet. */
  function Beyond(mark: Option<Mark>, settings: nat, eligible: set<Version>): set<Version> {
    if Restarts(mark, settings) then eligible
    else set v | v in eligible && Before(mark.value.cursor, v)
  }

  /** The versions already passed that a run looks at again. */
  function Revisited(mark: Option<Mark>, q: Query, eligible: set<Version>): set<Version> {
    if Restarts(mark, q.settings) then {}
    else set v | v in eligible && v in q.uncorrelated && AtMost(v, mark.value.cursor)
                 && v.parsedAt >= mark.value.cursor.parsedAt - q.lookback
  }

  /** The rows of the seed statement, before its limit. */
  function Candidates(mark: Option<Mark>, q: Query, eligible: set<Version>): set<Version> {
    if Restarts(mark, q.settings) then eligible
    else set v | v in eligible && v.parsedAt >= mark.value.cursor.parsedAt - q.lookback
                 && (Before(mark.value.cursor, v) || v in q.uncorrelated)
  }

  /** `page` is the first `limit` members of `all`. */
  ghost predicate IsPage(page: set<Version>, all: set<Version>, limit: nat) {
    && page <= all
    && |page| == (if |all| < limit then |all| else limit)
    && forall a, b :: a in page && b in all && b !in page ==> Before(a, b)
  }

  ghost predicate IsLast(v: Version, s: set<Version>) {
    v in s && forall a :: a in s ==> AtMost(a, v)
  }

  ghost predicate IsFirst(v: Version, s: set<Version>) {
    v in s && forall a :: a in s ==> AtMost(v, a)
  }

  /** The watermark after a run whose seeds were `seeds`. */
  ghost predicate Moves(mark: Option<Mark>, settings: nat, seeds: set<Version>, next: Option<Mark>) {
    if seeds == {} then next == mark
    else exists last :: IsLast(last, seeds) && next == Moved(mark, settings, last)
  }

  function Moved(mark: Option<Mark>, settings: nat, last: Version): Option<Mark> {
    if Restarts(mark, settings) || Before(mark.value.cursor, last) then Some(Mark(last, settings)) else mark
  }

  // First and last.

  lemma Total(a: Version, b: Version)
    ensures a == b || Before(a, b) || Before(b, a)
  {
    match (a, b) {
      case (Version(p, i), Version(q, j)) =>
    }
  }

  lemma {:induction false} FirstExists(s: set<Version>)
    requires s != {}
    ensures exists v :: IsFirst(v, s)
    decreases s
  {
    var x :| x in s;
    if s == {x} {
      assert IsFirst(x, s);
    } else {
      FirstExists(s - {x});
      var y :| IsFirst(y, s - {x});
      Total(x, y);
      var m := if Before(x, y) then x else y;
      forall a | a in s ensures AtMost(m, a) {
        assert a == x || a in s - {x};
      }
      assert IsFirst(m, s);
    }
  }

  lemma {:induction false} LastExists(s: set<Version>)
    requires s != {}
    ensures exists v :: IsLast(v, s)
    decreases s
  {
    var x :| x in s;
    if s == {x} {
      assert IsLast(x, s);
    } else {
      LastExists(s - {x});
      var y :| IsLast(y, s - {x});
      Total(x, y);
      var m := if Before(x, y) then y else x;
      forall a | a in s ensures AtMost(a, m) {
        assert a == x || a in s - {x};
      }
      assert IsLast(m, s);
    }
  }

  lemma SubsetSize(a: set<Version>, b: set<Version>)
    requires a <= b
    ensures |a| <= |b|
    ensures |a| == |b| ==> a == b
    ensures |b - a| == |b| - |a|
  {
    assert b == a + (b - a);
  }

  // One run.

  /** The candidates are the versions beyond the watermark and the revisited ones below it. */
  lemma CandidatesSplit(mark: Option<Mark>, q: Query, eligible: set<Version>)
    ensures Candidates(mark, q, eligible) == Revisited(mark, q, eligible) + Beyond(mark, q.settings, eligible)
    ensures Revisited(mark, q, eligible) !! Beyond(mark, q.settings, eligible)
    ensures forall a, b :: a in Revisited(mark, q, eligible) && b in Beyond(mark, q.settings, eligible) ==> Before(a, b)
    ensures |Candidates(mark, q, eligible)| == |Revisited(mark, q, eligible)| + |Beyond(mark, q.settings, eligible)|
  {
  }

  /** A page of a lower and an upper part takes the lower one first. */
  lemma PageOfTwoParts(page: set<Version>, lower: set<Version>, upper: set<Version>, limit: nat)
    requires lower !! upper
    requires forall a, b :: a in lower && b in upper ==> Before(a, b)
    requires IsPage(page, lower + upper, limit)
    ensures |lower| >= limit ==> page <= lower
    ensures |lower| < limit ==>
              lower <= page && |upper - page| == if |lower + upper| <= limit then 0 else |lower + upper| - limit
    ensures |lower| < limit && upper != {} ==> page * upper != {}
  {
    var all := lower + upper;
    if a :| a in page && a in upper {
      forall b | b in lower ensures b in page {
        assert b !in page ==> Before(a, b);
      }
      assert lower + {a} <= page;
      SubsetSize(lower + {a}, page);
    }
    if |lower| < limit {
      if page * upper == {} {
        assert page <= lower;
        SubsetSize(page, lower);
        SubsetSize(page, all);
        assert page == all;
      } else {
        var a :| a in page * upper;
        assert lower <= page;
      }
      assert upper - page == all - page;
      SubsetSize(page, all);
    }
  }

  /**
   What one run leaves beyond the watermark: exactly the beyond-versions that were not seeds,
   and their number is what did not fit in the limit after the revisited ones. When the
   revisited versions fill the limit the watermark does not move.
   */
  lemma RunAdvances(mark: Option<Mark>, q: Query, eligible: set<Version>, seeds: set<Version>, next: Option<Mark>)
    requires IsPage(seeds, Candidates(mark, q, eligible), q.limit)
    requires Moves(mark, q.settings, seeds, next)
    ensures Beyond(next, q.settings, eligible) == Beyond(mark, q.settings, eligible) - seeds
    ensures |Revisited(mark, q, eligible)| < q.limit ==>
              |Beyond(next, q.settings, eligible)| ==
              if |Candidates(mark, q, eligible)| <= q.limit then 0 else |Candidates(mark, q, eligible)| - q.limit
    ensures |Revisited(mark, q, eligible)| >= q.limit ==> next == mark && seeds <= Revisited(mark, q, eligible)
  {
    var lower, upper := Revisited(mark, q, eligible), Beyond(mark, q.settings, eligible);
    CandidatesSplit(mark, q, eligible);
    PageOfTwoParts(seeds, lower, upper, q.limit);
    if seeds != {} {
      var last :| IsLast(last, seeds) && next == Moved(mark, q.settings, last);
      BeyondAfter(mark, q, eligible, seeds, last);
    }
  }

  lemma BeyondAfter(mark: Option<Mark>, q: Query, eligible: set<Version>, seeds: set<Version>, last: Version)
    requires IsPage(seeds, Candidates(mark, q, eligible), q.limit) && IsLast(last, seeds)
    ensures Beyond(Moved(mark, q.settings, last), q.settings, eligible) == Beyond(mark, q.settings, eligible) - seeds
  {
    var next := Moved(mark, q.settings, last);
    CandidatesSplit(mark, q, eligible);
    forall v | v in eligible
      ensures v in Beyond(next, q.settings, eligible) <==> v in Beyond(mark, q.settings, eligible) && v !in seeds
    {
      assert v in Candidates(mark, q, eligible) && v !in seeds ==> Before(last, v);
      assert v in seeds ==> AtMost(v, last);
    }
  }

  /**
   The watermark strictly advances if and only if something lies beyond it and fewer than
   `limit` uncorrelated versions lie at or below it in the lookback.
   */
  lemma AdvancesExactlyWithRoom(mark: Option<Mark>, q: Query, eligible: set<Version>, seeds: set<Version>,
                                next: Option<Mark>)
    requires IsPage(seeds, Candidates(mark, q, eligible), q.limit)
    requires Moves(mark, q.settings, seeds, next)
    requires !Restarts(mark, q.settings)
    ensures next.Some? && next.value.settings == mark.value.settings
    ensures AtMost(mark.value.cursor, next.value.cursor)
    ensures Before(mark.value.cursor, next.value.cursor) <==>
            Beyond(mark, q.settings, eligible) != {} && |Revisited(mark, q, eligible)| < q.limit
  {
    var lower, upper := Revisited(mark, q, eligible), Beyond(mark, q.settings, eligible);
    CandidatesSplit(mark, q, eligible);
    PageOfTwoParts(seeds, lower, upper, q.limit);
    if seeds != {} {
      var last :| IsLast(last, seeds) && next == Moved(mark, q.settings, last);
      if upper != {} && |lower| < q.limit {
        var a :| a in seeds * upper;
        assert AtMost(a, last);
      }
    }
  }

  /**
   An uncorrelated version at or below the watermark is a seed as long as all such versions in
   the lookback fit in the limit: so a version that arrives late is taken up by the next run.
   */
  lemma RevisitedAreSeeds(mark: Option<Mark>, q: Query, eligible: set<Version>, seeds: set<Version>)
    requires IsPage(seeds, Candidates(mark, q, eligible), q.limit)
    requires |Revisited(mark, q, eligible)| <= q.limit
    ensures Revisited(mark, q, eligible) <= seeds
  {
    var lower, upper := Revisited(mark, q, eligible), Beyond(mark, q.settings, eligible);
    CandidatesSplit(mark, q, eligible);
    PageOfTwoParts(seeds, lower, upper, q.limit);
    if |lower| == q.limit {
      SubsetSize(seeds, lower);
    }
  }

  // Whole runs.

  datatype State = State(mark: Option<Mark>, eligible: set<Version>)

  /** Versions appear and disappear; a job review deletes the watermark. */
  datatype Step =
    | Arrive(version: Version)
    | Withdraw(version: Version)
    | Forget
    | Batch(query: Query, seeds: set<Version>)

  ghost predicate Allowed(s: State, step: Step, t: State) {
    match step
    case Arrive(v) => t == s.(eligible := s.eligible + {v})
    case Withdraw(v) => t == s.(eligible := s.eligible - {v})
    case Forget => t == s.(mark := None)
    case Batch(q, seeds) =>
      && IsPage(seeds, Candidates(s.mark, q, s.eligible), q.limit)
      && Moves(s.mark, q.settings, seeds, t.mark)
      && t.eligible == s.eligible
  }

  ghost predicate IsRun(states: seq<State>, steps: seq<Step>) {
    && |states| == |steps| + 1
    && forall i :: 0 <= i < |steps| ==> Allowed(states[i], steps[i], states[i + 1])
  }

  /** The seeds of the batches since the last one that restarted from the beginning. */
  ghost function SeededSince(states: seq<State>, steps: seq<Step>): set<Version>
    requires |states| == |steps| + 1
    decreases |steps|
  {
    if steps == [] then {}
    else
      var n := |steps| - 1;
      var earlier := SeededSince(states[..n + 1], steps[..n]);
      match steps[n]
      case Batch(q, seeds) => if Restarts(states[n].mark, q.settings) && seeds != {} then seeds else earlier + seeds
      case _ => earlier
  }

  /** The versions that arrived at or below the watermark since then. */
  ghost function LateSince(states: seq<State>, steps: seq<Step>): set<Version>
    requires |states| == |steps| + 1
    decreases |steps|
  {
    if steps == [] then {}
    else
      var n := |steps| - 1;
      var earlier := LateSince(states[..n + 1], steps[..n]);
      match steps[n]
      case Batch(q, seeds) => if Restarts(states[n].mark, q.settings) && seeds != {} then {} else earlier
      case Arrive(v) =>
        if states[n].mark.Some? && AtMost(v, states[n].mark.value.cursor) then earlier + {v} else earlier
      case _ => earlier
  }

  ghost predicate Swept(s: State, seeded: set<Version>) {
    s.mark.Some? ==> forall v :: v in s.eligible && AtMost(v, s.mark.value.cursor) ==> v in seeded
  }

  lemma BatchSweeps(s: State, q: Query, seeds: set<Version>, t: State, seeded: set<Version>)
    requires Allowed(s, Batch(q, seeds), t) && Swept(s, seeded)
    ensures Swept(t, if Restarts(s.mark, q.settings) && seeds != {} then seeds else seeded + seeds)
  {
    if t.mark.Some? {
      forall v | v in s.eligible && AtMost(v, t.mark.value.cursor)
        ensures v in if Restarts(s.mark, q.settings) && seeds != {} then seeds else seeded + seeds
      {
        NotBeyond(s, q, seeds, t, v);
      }
    }
  }

  lemma NotBeyond(s: State, q: Query, seeds: set<Version>, t: State, v: Version)
    requires Allowed(s, Batch(q, seeds), t)
    requires t.mark.Some? && v in s.eligible && AtMost(v, t.mark.value.cursor)
    ensures
      || v in seeds
      || (s.mark.Some? && AtMost(v, s.mark.value.cursor) && (seeds == {} || !Restarts(s.mark, q.settings)))
  {
    RunAdvances(s.mark, q, s.eligible, seeds, t.mark);
    if seeds != {} {
      assert !Restarts(t.mark, q.settings);
      assert v !in Beyond(t.mark, q.settings, s.eligible);
      if s.mark.Some? {
        Total(v, s.mark.value.cursor);
      }
    }
  }

  /**
   Nothing is skipped: in every run that starts without a watermark, every eligible version at
   or below the watermark has been a seed since the last restart, or arrived late since then.
   */
  lemma {:induction false} NothingIsSkipped(states: seq<State>, steps: seq<Step>)
    requires IsRun(states, steps) && states[0].mark.None?
    ensures Swept(states[|steps|], SeededSince(states, steps) + LateSince(states, steps))
    decreases |steps|
  {
    if steps != [] {
      var n := |steps| - 1;
      NothingIsSkipped(states[..n + 1], steps[..n]);
      var seeded, late := SeededSince(states[..n + 1], steps[..n]), LateSince(states[..n + 1], steps[..n]);
      assert Allowed(states[n], steps[n], states[n + 1]);
      if steps[n].Batch? {
        BatchSweeps(states[n], steps[n].query, steps[n].seeds, states[n + 1], seeded + late);
      }
    }
  }

  /** Every step is a batch with the same settings and with room beside the revisited versions. */
  ghost predicate SteadyRun(states: seq<State>, steps: seq<Step>, settings: nat) {
    && IsRun(states, steps)
    && forall i :: 0 <= i < |steps| ==>
         && steps[i].Batch? && steps[i].query.settings == settings
         && |Revisited(states[i].mark, steps[i].query, states[i].eligible)| < steps[i].query.limit
  }

  /** Over a static set the versions beyond the watermark dwindle by at least one in every run. */
  lemma {:induction false} SteadyRunDwindles(states: seq<State>, steps: seq<Step>, settings: nat)
    requires SteadyRun(states, steps, settings)
    ensures states[|steps|].eligible == states[0].eligible
    ensures var left := Beyond(states[0].mark, settings, states[0].eligible);
            |Beyond(states[|steps|].mark, settings, states[0].eligible)|
            <= if |left| < |steps| then 0 else |left| - |steps|
    decreases |steps|
  {
    if steps != [] {
      var n := |steps| - 1;
      SteadyRunDwindles(states[..n + 1], steps[..n], settings);
      var q, s := steps[n].query, states[n];
      assert Allowed(s, steps[n], states[n + 1]);
      RunAdvances(s.mark, q, s.eligible, steps[n].seeds, states[n + 1].mark);
      CandidatesSplit(s.mark, q, s.eligible);
    }
  }

  lemma {:induction false} SteadyRunHasNoneLate(states: seq<State>, steps: seq<Step>, settings: nat)
    requires SteadyRun(states, steps, settings)
    ensures LateSince(states, steps) == {}
    decreases |steps|
  {
    if steps != [] {
      SteadyRunHasNoneLate(states[..|steps|], steps[..|steps| - 1], settings);
    }
  }

  /** As many runs as there are versions make every version a seed. */
  lemma EveryVersionBecomesASeed(states: seq<State>, steps: seq<Step>, settings: nat)
    requires SteadyRun(states, steps, settings) && states[0].mark.None?
    requires |steps| >= |states[0].eligible|
    ensures states[0].eligible <= SeededSince(states, steps)
  {
    SteadyRunDwindles(states, steps, settings);
    NothingIsSkipped(states, steps);
    SteadyRunHasNoneLate(states, steps, settings);
    var t := states[|steps|];
    assert Beyond(t.mark, settings, t.eligible) == {};
    forall v | v in t.eligible ensures v in SeededSince(states, steps) {
      assert v !in Beyond(t.mark, settings, t.eligible);
      assert t.mark.Some? && !Before(t.mark.value.cursor, v);
    }
  }

  // Stalling.

  /**
   Every step leaves the stuck versions eligible, and every batch finds them uncorrelated, in
   its lookback, and as many as its limit. Documents that are not part of any sale are never
   correlated, so their versions are such.
   */
  ghost predicate StuckRun(states: seq<State>, steps: seq<Step>, mark: Mark, stuck: set<Version>) {
    && IsRun(states, steps) && states[0].mark == Some(mark)
    && (forall v :: v in stuck ==> AtMost(v, mark.cursor))
    && (forall i :: 0 <= i < |states| ==> stuck <= states[i].eligible)
    && forall i :: 0 <= i < |steps| ==>
         && !steps[i].Forget?
         && (steps[i].Batch? ==> Stalls(steps[i].query, mark, stuck))
  }

  ghost predicate Stalls(q: Query, mark: Mark, stuck: set<Version>) {
    && q.settings == mark.settings && stuck <= q.uncorrelated && |stuck| >= q.limit
    && forall v :: v in stuck ==> v.parsedAt >= mark.cursor.parsedAt - q.lookback
  }

  lemma StuckBatch(mark: Mark, q: Query, eligible: set<Version>, seeds: set<Version>, next: Option<Mark>,
                   stuck: set<Version>)
    requires Stalls(q, mark, stuck) && stuck <= eligible && forall v :: v in stuck ==> AtMost(v, mark.cursor)
    requires IsPage(seeds, Candidates(Some(mark), q, eligible), q.limit) && Moves(Some(mark), q.settings, seeds, next)
    ensures next == Some(mark) && forall v :: v in seeds ==> AtMost(v, mark.cursor)
  {
    SubsetSize(stuck, Revisited(Some(mark), q, eligible));
    RunAdvances(Some(mark), q, eligible, seeds, next);
  }

  /**
   A stall is permanent: while the stuck versions stay uncorrelated no version beyond the
   watermark is ever a seed.
   */
  lemma {:induction false} StallIsPermanent(states: seq<State>, steps: seq<Step>, mark: Mark, stuck: set<Version>)
    requires StuckRun(states, steps, mark, stuck)
    ensures states[|steps|].mark == Some(mark)
    ensures forall i, v :: 0 <= i < |steps| && steps[i].Batch? && v in steps[i].seeds ==> AtMost(v, mark.cursor)
    decreases |steps|
  {
    if steps != [] {
      var n := |steps| - 1;
      StallIsPermanent(states[..n + 1], steps[..n], mark, stuck);
      assert Allowed(states[n], steps[n], states[n + 1]);
      if steps[n].Batch? {
        StuckBatch(mark, steps[n].query, states[n].eligible, steps[n].seeds, states[n + 1].mark, stuck);
      }
      forall i, v | 0 <= i < |steps| && steps[i].Batch? && v in steps[i].seeds ensures AtMost(v, mark.cursor) {
        assert i < n ==> steps[..n][i] == steps[i];
      }
    }
  }

  /** One never correlated version and a limit of one: the second run already does not move. */
  lemma StallExample()
    ensures var first, second := Version(0, 0), Version(1, 0);
            var eligible, q := {first, second}, Query(0, {first}, 0, 1);
            var mark := Mark(first, 0);
            && Allowed(State(None, eligible), Batch(q, {first}), State(Some(mark), eligible))
            && Allowed(State(Some(mark), eligible), Batch(q, {first}), State(Some(mark), eligible))
            && Beyond(Some(mark), 0, eligible) == {second}
  {
    var first, second := Version(0, 0), Version(1, 0);
    var eligible, q := {first, second}, Query(0, {first}, 0, 1);
    assert Candidates(None, q, eligible) == eligible && Candidates(Some(Mark(first, 0)), q, eligible) == eligible;
    assert IsLast(first, {first});
    assert |eligible| == 2;
  }

  // The stored watermark.

  class AnalysisWatermark {
    var mark: Option<Mark>

    constructor ()
      ensures mark == None
    {
      mark := None;
    }

    /** The seeds of one run, taken in order, and the watermark moved to the last of them. */
    method CandidateBatch(q: Query, eligible: set<Version>) returns (seeds: set<Version>)
      modifies this
      ensures IsPage(seeds, Candidates(old(mark), q, eligible), q.limit)
      ensures Moves(old(mark), q.settings, seeds, mark)
    {
      seeds := FirstRows(Candidates(mark, q, eligible), q.limit);
      if seeds == {} {
        return;
      }
      LastExists(seeds);
      var last :| last in seeds && forall a :: a in seeds ==> AtMost(a, last);
      assert IsLast(last, seeds);
      if mark.None? {
        mark := Some(Mark(last, q.settings));
      } else if mark.value.settings != q.settings || Before(mark.value.cursor, last) {
        mark := Some(Mark(last, q.settings));
      }
    }
  }

  method FirstRows(all: set<Version>, limit: nat) returns (page: set<Version>)
    ensures IsPage(page, all, limit)
  {
    page := {};
    var rest := all;
    while rest != {} && |page| < limit
      invariant page !! rest && page + rest == all
      invariant |page| <= limit
      invariant forall a, b :: a in page && b in rest ==> Before(a, b)
      decreases rest
    {
      FirstExists(rest);
      var v :| v in rest && forall a :: a in rest ==> AtMost(v, a);
      forall b | b in rest - {v} ensures Before(v, b) {
        assert b in rest && AtMost(v, b);
      }
      page, rest := page + {v}, rest - {v};
    }
    SubsetSize(page, all);
  }
}
