/**
 Local time and UTC in the period selector (`frontend/src/period.ts`): the two-pass
 resolution of a wall clock, and the preset periods built on it. Instants and wall clocks
 are whole minutes; a wall clock is the minute count that `Date.UTC` gives for its calendar
 fields. A time zone is its offset at each instant.
 */
module Period {

  type Zone = int -> int

  const MINUTES_PER_DAY: int := 1440

  /** The wall clock that the zone shows at an instant (`parts`). */
  function Local(zone: Zone, instant: int): int {
    instant + zone(instant)
  }

  /** The offset does not change both before and after `y`. */
  predicate OneChange(zone: Zone, x: int, y: int, z: int) {
    zone(x) == zone(y) || zone(y) == zone(z)
  }

  /** Any `width` minutes contain at most one change. */
  ghost predicate Sparse(zone: Zone, width: nat) {
    forall x, y, z :: x <= y <= z <= x + width ==> OneChange(zone, x, y, z)
  }

  /** No offset is negative or above `widest`, and any `widest` minutes contain at most one change. */
  ghost predicate Regular(zone: Zone, widest: nat) {
    && (forall x :: 0 <= zone(x) <= widest)
    && Sparse(zone, widest)
  }

  ghost predicate Exists(zone: Zone, wall: int) {
    exists x :: Local(zone, x) == wall
  }

  /** The instant after both passes. */
  function Resolve(zone: Zone, wall: int): int {
    wall - zone(wall - zone(wall))
  }

  method ZonedToUtc(zone: Zone, wall: int) returns (candidate: int)
    ensures candidate == Resolve(zone, wall)
  {
    candidate := wall;
    for index := 0 to 2
      invariant index == 0 ==> candidate == wall
      invariant index == 1 ==> candidate == wall - zone(wall)
      invariant index == 2 ==> candidate == Resolve(zone, wall)
    {
      var observed := Local(zone, candidate);
      candidate := candidate - (observed - wall);
    }
  }

  /** An instant that reads `wall` forces the second pass to land on it or on a later one that reads `wall`. */
  lemma ResolveFrom(zone: Zone, widest: nat, wall: int, x: int)
    requires Regular(zone, widest) && Local(zone, x) == wall
    ensures Local(zone, Resolve(zone, wall)) == wall && x <= Resolve(zone, wall)
  {
    var first := wall - zone(wall);
    var second := wall - zone(first);
    assert wall - widest <= x <= wall && wall - widest <= first <= wall && wall - widest <= second <= wall;
    if first <= x {
      assert OneChange(zone, first, x, wall);
      assert x <= second ==> OneChange(zone, x, second, wall);
      assert second <= x ==> OneChange(zone, second, x, wall);
      assert first <= second <= x ==> OneChange(zone, first, second, x);
    } else {
      assert OneChange(zone, x, first, wall);
    }
  }

  /**
   A wall clock that exists resolves to the latest instant that shows it; so reading a
   resolved input back gives the input, and only then.
   */
  lemma ResolvesToLatest(zone: Zone, widest: nat, wall: int)
    requires Regular(zone, widest)
    ensures Exists(zone, wall) <==> Local(zone, Resolve(zone, wall)) == wall
    ensures forall x :: Local(zone, x) == wall ==> x <= Resolve(zone, wall)
  {
    forall x | Local(zone, x) == wall
      ensures Local(zone, Resolve(zone, wall)) == wall && x <= Resolve(zone, wall)
    {
      ResolveFrom(zone, widest, wall, x);
    }
  }

  /** A wall clock that is skipped resolves past the gap: it reads later than asked. */
  lemma SkippedResolvesForward(zone: Zone, widest: nat, wall: int)
    requires Regular(zone, widest) && !Exists(zone, wall)
    ensures Local(zone, Resolve(zone, wall)) > wall
    ensures Local(zone, Resolve(zone, wall)) <= wall + widest
  {
    var first := wall - zone(wall);
    var second := wall - zone(first);
    assert Local(zone, first) != wall && Local(zone, second) != wall;
    assert first <= second ==> OneChange(zone, first, second, wall);
    assert second <= first ==> OneChange(zone, second, first, wall);
  }

  /** Resolving a displayed instant gives the instant back exactly when nothing later reads the same. */
  lemma DisplayRoundTrip(zone: Zone, widest: nat, instant: int)
    requires Regular(zone, widest)
    ensures Resolve(zone, Local(zone, instant)) == instant <==>
            forall x :: Local(zone, x) == Local(zone, instant) ==> x <= instant
  {
    ResolvesToLatest(zone, widest, Local(zone, instant));
  }

  /** Nothing at or after the resolved instant reads earlier than `wall`. */
  lemma NothingAfterReadsEarlier(zone: Zone, widest: nat, wall: int, x: int)
    requires Regular(zone, widest) && x >= Resolve(zone, wall)
    ensures Local(zone, x) >= wall
  {
    var first := wall - zone(wall);
    assert first <= x <= wall ==> OneChange(zone, first, x, wall);
    assert x <= first ==> OneChange(zone, x, first, wall);
  }

  lemma ExistingKeepsOrder(zone: Zone, widest: nat, wall: int, later: int)
    requires Regular(zone, widest) && Exists(zone, wall) && wall < later
    ensures Resolve(zone, wall) < Resolve(zone, later)
  {
    ResolvesToLatest(zone, widest, wall);
    if Resolve(zone, wall) >= Resolve(zone, later) {
      NothingAfterReadsEarlier(zone, widest, later, Resolve(zone, wall));
    }
  }

  /** The two passes on a skipped wall clock: the offsets before and after the gap. */
  lemma AcrossTheGap(zone: Zone, widest: nat, wall: int)
    requires Regular(zone, widest) && !Exists(zone, wall)
    ensures var first := wall - zone(wall);
            && zone(first) < zone(wall) && zone(Resolve(zone, wall)) == zone(wall) && first < Resolve(zone, wall)
  {
    var first := wall - zone(wall);
    var second := wall - zone(first);
    assert Local(zone, first) != wall && Local(zone, second) != wall;
    assert first <= second ==> OneChange(zone, first, second, wall);
    assert second <= first ==> OneChange(zone, second, first, wall);
  }

  lemma SkippedKeepOrder(zone: Zone, widest: nat, wall: int, later: int)
    requires Regular(zone, widest) && !Exists(zone, wall) && !Exists(zone, later) && wall < later
    ensures Resolve(zone, wall) < Resolve(zone, later)
  {
    AcrossTheGap(zone, widest, wall);
    AcrossTheGap(zone, widest, later);
    var f1, f2 := wall - zone(wall), later - zone(later);
    var x, z := Resolve(zone, wall), Resolve(zone, later);
    assert z <= x ==> OneChange(zone, f2, z, x) && OneChange(zone, f2, x, later);
    assert f1 <= f2 <= wall ==> OneChange(zone, f1, f2, wall);
  }

  /**
   Wall clocks keep their order if and only if the earlier one exists, or the later one does
   not, or some instant after the earlier one's reads the later one.
   */
  lemma ResolveKeepsOrder(zone: Zone, widest: nat, wall: int, later: int)
    requires Regular(zone, widest) && wall < later
    ensures Resolve(zone, wall) < Resolve(zone, later) <==>
            Exists(zone, wall) || !Exists(zone, later) || exists x :: x > Resolve(zone, wall) && Local(zone, x) == later
  {
    ResolvesToLatest(zone, widest, later);
    if Exists(zone, wall) {
      ExistingKeepsOrder(zone, widest, wall, later);
    } else if !Exists(zone, later) {
      SkippedKeepOrder(zone, widest, wall, later);
    }
  }

  /** The minutes by which the clock jumps over a skipped wall clock. */
  function Jump(zone: Zone, wall: int): int {
    zone(wall) - zone(wall - zone(wall))
  }

  /**
   In a zone with at most one change in any twice as long a time, the last case is that the later
   wall clock lies further away than the jump over the earlier one.
   */
  lemma ResolveKeepsOrderAcrossJump(zone: Zone, widest: nat, wall: int, later: int)
    requires Regular(zone, widest) && Sparse(zone, 2 * widest) && wall < later
    ensures Resolve(zone, wall) < Resolve(zone, later) <==>
            Exists(zone, wall) || !Exists(zone, later) || later - wall > Jump(zone, wall)
  {
    ResolveKeepsOrder(zone, widest, wall, later);
    if !Exists(zone, wall) && Exists(zone, later) {
      LaterAfterJump(zone, widest, wall, later);
    }
  }

  lemma LaterAfterJump(zone: Zone, widest: nat, wall: int, later: int)
    requires Regular(zone, widest) && Sparse(zone, 2 * widest) && wall < later
    requires !Exists(zone, wall) && Exists(zone, later)
    ensures Resolve(zone, wall) < Resolve(zone, later) <==> later - wall > Jump(zone, wall)
  {
    AcrossTheGap(zone, widest, wall);
    ResolvesToLatest(zone, widest, later);
    var first, x, z := wall - zone(wall), Resolve(zone, wall), Resolve(zone, later);
    var y := later - zone(x);
    assert x <= y <= first + 2 * widest ==> OneChange(zone, first, x, y);
    assert zone(y) == zone(x) ==> Local(zone, y) == later;
    assert x <= z <= first + 2 * widest ==> OneChange(zone, first, x, z);
  }

  /** A zone whose offset grows from one hour to two at instant 0, as at the start of summer time. */
  function SpringForward(x: int): int {
    if x < 0 then 60 else 120
  }

  lemma SpringForwardIsRegular()
    ensures Regular(SpringForward, 120)
  {
    forall x ensures 0 <= SpringForward(x) <= 120 {
    }
    forall x, y, z | x <= y <= z <= x + 120
      ensures OneChange(SpringForward, x, y, z)
    {
    }
  }

  /** A skipped wall clock can resolve after a later one: a custom period across the gap may be inverted. */
  lemma SkippedBreaksOrder()
    ensures Regular(SpringForward, 120) && !Exists(SpringForward, 119) && Exists(SpringForward, 120)
    ensures Resolve(SpringForward, 119) > Resolve(SpringForward, 120)
  {
    SpringForwardIsRegular();
    assert Local(SpringForward, 0) == 120;
    forall x ensures Local(SpringForward, x) != 119 {
      assert SpringForward(x) == if x < 0 then 60 else 120;
    }
  }

  // Days.

  function Day(wall: int): int {
    wall / MINUTES_PER_DAY
  }

  function Midnight(day: int): int {
    day * MINUTES_PER_DAY
  }

  /** The resolved instant separates the instants that read before `wall` from the others. */
  ghost predicate Separates(zone: Zone, wall: int) {
    forall x :: x < Resolve(zone, wall) <==> Local(zone, x) < wall
  }

  /** One instant only reads `wall`, or `wall` is the first minute that the clock skips. */
  ghost predicate Clean(zone: Zone, wall: int) {
    (exists x :: OnlyReading(zone, wall, x)) || (!Exists(zone, wall) && Exists(zone, wall - 1))
  }

  ghost predicate OnlyReading(zone: Zone, wall: int, x: int) {
    Local(zone, x) == wall && forall y :: Local(zone, y) == wall ==> y == x
  }

  lemma OneReadingBefore(zone: Zone, widest: nat, wall: int, x: int)
    requires Regular(zone, widest) && OnlyReading(zone, wall, Resolve(zone, wall)) && x < Resolve(zone, wall)
    ensures Local(zone, x) < wall
  {
    var r := Resolve(zone, wall);
    var y := wall - zone(x);
    assert zone(y) == zone(x) ==> Local(zone, y) == wall;
    assert y <= x ==> OneChange(zone, y, x, r);
  }

  lemma FirstSkippedBefore(zone: Zone, widest: nat, wall: int, x: int)
    requires Regular(zone, widest) && !Exists(zone, wall) && Exists(zone, wall - 1) && x < Resolve(zone, wall)
    ensures Local(zone, x) < wall
  {
    AcrossTheGap(zone, widest, wall);
    var r, first := Resolve(zone, wall), wall - zone(wall);
    ResolvesToLatest(zone, widest, wall - 1);
    var e := Resolve(zone, wall - 1);
    var y := wall - zone(x);
    assert Local(zone, x) != wall && Local(zone, y) != wall && Local(zone, e) == wall - 1;
    assert y <= x ==> OneChange(zone, y, x, wall) && OneChange(zone, y, x, r);
    assert first <= x <= e ==> OneChange(zone, first, x, e);
    assert first <= e <= x ==> OneChange(zone, first, e, x);
    assert e <= first <= x ==> OneChange(zone, e, first, x);
  }

  lemma CleanSeparates(zone: Zone, widest: nat, wall: int, x: int)
    requires Regular(zone, widest) && Clean(zone, wall)
    ensures x < Resolve(zone, wall) <==> Local(zone, x) < wall
  {
    if x >= Resolve(zone, wall) {
      NothingAfterReadsEarlier(zone, widest, wall, x);
    } else if Exists(zone, wall) {
      ResolvesToLatest(zone, widest, wall);
      OneReadingBefore(zone, widest, wall, x);
    } else {
      FirstSkippedBefore(zone, widest, wall, x);
    }
  }

  /** The resolved instant is a boundary for all instants exactly when the wall clock is clean. */
  lemma SeparatesExactlyWhenClean(zone: Zone, widest: nat, wall: int)
    requires Regular(zone, widest)
    ensures Separates(zone, wall) <==> Clean(zone, wall)
  {
    if Clean(zone, wall) {
      forall x ensures x < Resolve(zone, wall) <==> Local(zone, x) < wall {
        CleanSeparates(zone, widest, wall, x);
      }
    } else if Separates(zone, wall) {
      SeparatesIsClean(zone, widest, wall);
    }
  }

  lemma SeparatesIsClean(zone: Zone, widest: nat, wall: int)
    requires Regular(zone, widest) && Separates(zone, wall)
    ensures Clean(zone, wall)
  {
    var r := Resolve(zone, wall);
    forall x | Local(zone, x) == wall ensures x == r {
      ResolveFrom(zone, widest, wall, x);
    }
    assert Local(zone, r - 1) < wall && Local(zone, r) >= wall;
    if Local(zone, r) == wall {
      assert OnlyReading(zone, wall, r);
    } else {
      var first := wall - zone(wall);
      assert first < r ==> OneChange(zone, first, r - 1, r);
      assert r < first ==> OneChange(zone, r - 1, r, first);
      assert Local(zone, r - 1) == wall - 1;
    }
  }

  // Presets.

  datatype Preset = Today | Yesterday | Week

  datatype Interval = Interval(from: int, to: int)

  /** The first day of a preset and the day after its last. */
  function Days(preset: Preset, today: int): (int, int) {
    match preset
    case Today => (today, today + 1)
    case Yesterday => (today - 1, today)
    case Week => (today - 6, today + 1)
  }

  function PresetPeriod(zone: Zone, preset: Preset, now: int): Interval {
    var (start, end) := Days(preset, Day(Local(zone, now)));
    Interval(Resolve(zone, Midnight(start)), Resolve(zone, Midnight(end)))
  }

  /**
   When both midnights are clean, as they are in a zone that changes its offset at night but not
   around midnight, a preset holds exactly the instants whose local day is one of its days.
   */
  lemma PresetHoldsItsDays(zone: Zone, widest: nat, preset: Preset, now: int, x: int)
    requires Regular(zone, widest)
    requires var (start, end) := Days(preset, Day(Local(zone, now)));
             Clean(zone, Midnight(start)) && Clean(zone, Midnight(end))
    ensures var (start, end) := Days(preset, Day(Local(zone, now)));
            var period := PresetPeriod(zone, preset, now);
            period.from <= x < period.to <==> start <= Day(Local(zone, x)) < end
  {
    var (start, end) := Days(preset, Day(Local(zone, now)));
    SeparatesExactlyWhenClean(zone, widest, Midnight(start));
    SeparatesExactlyWhenClean(zone, widest, Midnight(end));
    assert x < Resolve(zone, Midnight(start)) <==> Local(zone, x) < Midnight(start);
    assert x < Resolve(zone, Midnight(end)) <==> Local(zone, x) < Midnight(end);
    DayBefore(Local(zone, x), start);
    DayBefore(Local(zone, x), end);
  }

  /** How many local days before `now` an instant lies. */
  function DaysAgo(zone: Zone, now: int, x: int): int {
    Day(Local(zone, now)) - Day(Local(zone, x))
  }

  predicate Holds(period: Interval, x: int) {
    period.from <= x < period.to
  }

  /**
   With clean midnights, today holds the instants of the local day of `now`, yesterday those of
   the day before, and the week those of that day and the six before it.
   */
  lemma PresetsByDaysAgo(zone: Zone, widest: nat, now: int, x: int)
    requires Regular(zone, widest)
    requires var today := Day(Local(zone, now));
             && Clean(zone, Midnight(today - 6)) && Clean(zone, Midnight(today - 1))
             && Clean(zone, Midnight(today)) && Clean(zone, Midnight(today + 1))
    ensures Holds(PresetPeriod(zone, Today, now), x) <==> DaysAgo(zone, now, x) == 0
    ensures Holds(PresetPeriod(zone, Yesterday, now), x) <==> DaysAgo(zone, now, x) == 1
    ensures Holds(PresetPeriod(zone, Week, now), x) <==> 0 <= DaysAgo(zone, now, x) <= 6
  {
    PresetHoldsItsDays(zone, widest, Today, now, x);
    PresetHoldsItsDays(zone, widest, Yesterday, now, x);
    PresetHoldsItsDays(zone, widest, Week, now, x);
  }

  lemma DayBefore(wall: int, day: int)
    ensures wall < Midnight(day) <==> Day(wall) < day
  {
  }

  lemma MidnightsKeepOrder(zone: Zone, widest: nat, day: int)
    requires Regular(zone, widest) && widest < MINUTES_PER_DAY
    ensures Resolve(zone, Midnight(day)) < Resolve(zone, Midnight(day + 1))
  {
    assert Midnight(day) + MINUTES_PER_DAY == Midnight(day + 1);
  }

  lemma TodayEndsAfterNow(zone: Zone, widest: nat, now: int)
    requires Regular(zone, widest)
    ensures now < Resolve(zone, Midnight(Day(Local(zone, now)) + 1))
  {
    var end := Midnight(Day(Local(zone, now)) + 1);
    DayBefore(Local(zone, now), Day(Local(zone, now)) + 1);
    if now >= Resolve(zone, end) {
      NothingAfterReadsEarlier(zone, widest, end, now);
    }
  }

  /** Yesterday and today are not empty, meet exactly, and the week ends with today, which ends after now. */
  lemma PresetsMeet(zone: Zone, widest: nat, now: int)
    requires Regular(zone, widest) && widest < MINUTES_PER_DAY
    ensures PresetPeriod(zone, Yesterday, now).from < PresetPeriod(zone, Yesterday, now).to
    ensures PresetPeriod(zone, Yesterday, now).to == PresetPeriod(zone, Today, now).from
    ensures PresetPeriod(zone, Today, now).from < PresetPeriod(zone, Today, now).to
    ensures PresetPeriod(zone, Today, now).to == PresetPeriod(zone, Week, now).to
    ensures now < PresetPeriod(zone, Today, now).to
  {
    var today := Day(Local(zone, now));
    MidnightsKeepOrder(zone, widest, today - 1);
    MidnightsKeepOrder(zone, widest, today);
    TodayEndsAfterNow(zone, widest, now);
  }
}
