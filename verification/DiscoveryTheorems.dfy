/**
 The incremental index against a full scan, over every run of spool changes and refreshes.
 A change of directory entries is noticed if it gives the directory another modification
 time than the index recorded for it; publishing a marker changes a job directory and leaves
 the device directory alone.
 */
module DiscoveryTheorems {
  import opened Discovery

  datatype Change =
    | AddDevice(device: nat, dir: DeviceDir, rootMtime: int)
    | RemoveDevice(device: nat, rootMtime: int)
    | AddJob(device: nat, job: nat, marker: Marker, mtime: int)
    | RemoveJob(device: nat, job: nat, mtime: int)
    | SetMarker(device: nat, job: nat, marker: Marker)

  predicate Possible(s: Spool, c: Change) {
    match c
    case AddDevice(d, dir, t) => d !in s.devices && t >= 0 && dir.mtime >= 0
    case RemoveDevice(d, t) => d in s.devices && t >= 0
    case AddJob(d, j, _, t) => d in s.devices && j !in s.devices[d].jobs && t >= 0
    case RemoveJob(d, j, t) => Exists(s, (d, j)) && t >= 0
    case SetMarker(d, j, _) => Exists(s, (d, j))
  }

  predicate Differs(x: Index, d: nat, t: int) {
    d in x.deviceMtimes ==> t != x.deviceMtimes[d]
  }

  /** No directory whose entries change ends up with the time that the index recorded for it. */
  predicate Noticed(x: Index, c: Change) {
    match c
    case AddDevice(d, dir, t) => t != x.rootMtime && Differs(x, d, dir.mtime)
    case RemoveDevice(_, t) => t != x.rootMtime
    case AddJob(d, _, _, t) => Differs(x, d, t)
    case RemoveJob(d, _, t) => Differs(x, d, t)
    case SetMarker(_, _, _) => true
  }

  /** A marker disappears from a job that stays. */
  predicate Withdraws(s: Spool, c: Change) {
    c.SetMarker? && HasMarker(s, (c.device, c.job)) && c.marker != Regular
  }

  function Changed(s: Spool, c: Change): Spool
    requires Possible(s, c)
  {
    match c
    case AddDevice(d, dir, t) => Spool(t, s.devices[d := dir])
    case RemoveDevice(d, t) => Spool(t, s.devices - {d})
    case AddJob(d, j, m, t) => s.(devices := s.devices[d := DeviceDir(t, s.devices[d].jobs[j := m])])
    case RemoveJob(d, j, t) => s.(devices := s.devices[d := DeviceDir(t, s.devices[d].jobs - {j})])
    case SetMarker(d, j, m) =>
      s.(devices := s.devices[d := s.devices[d].(jobs := s.devices[d].jobs[j := m])])
  }

  // The invariant.

  /** No directory has the impossible time. */
  ghost predicate TimesValid(s: Spool) {
    s.rootMtime >= 0 && forall d {:trigger s.devices[d]} :: d in s.devices ==> s.devices[d].mtime >= 0
  }

  /** The index has read the device directory as it is. */
  ghost predicate Current(s: Spool, x: Index, d: nat) {
    d in x.deviceMtimes && d in s.devices && x.deviceMtimes[d] == s.devices[d].mtime
  }

  /** For a directory read as it is, the index knows its job directories, with or without marker. */
  ghost predicate JobsKnown(s: Spool, x: Index, d: nat)
    requires d in s.devices
  {
    d in x.markers && forall j :: j in s.devices[d].jobs <==> j in x.markers[d] || (d, j) in x.unready
  }

  ghost predicate MarkersPresent(s: Spool, x: Index, d: nat)
    requires d in s.devices
  {
    d in x.markers ==> forall j :: j in x.markers[d] ==> HasMarker(s, (d, j))
  }

  ghost predicate Consistent(s: Spool, x: Index) {
    && TimesValid(s)
    && (x.rootMtime == s.rootMtime ==> x.deviceMtimes.Keys == s.devices.Keys)
    && x.markers.Keys <= x.deviceMtimes.Keys
    && (forall u :: u in x.unready ==> u.0 in x.deviceMtimes)
    && (forall d :: Current(s, x, d) ==> JobsKnown(s, x, d))
  }

  /** No indexed marker has been withdrawn. */
  ghost predicate Clean(s: Spool, x: Index) {
    forall d :: Current(s, x, d) ==> MarkersPresent(s, x, d)
  }

  lemma TimesStayValid(s: Spool, c: Change)
    requires TimesValid(s) && Possible(s, c)
    ensures TimesValid(Changed(s, c))
  {
  }

  /** A change leaves no directory current whose entries it touched. */
  lemma ChangeKeepsCurrent(s: Spool, x: Index, c: Change, d: nat)
    requires Possible(s, c) && Noticed(x, c) && Current(Changed(s, c), x, d)
    ensures Current(s, x, d) && Changed(s, c).devices[d].jobs.Keys == s.devices[d].jobs.Keys
    ensures !c.SetMarker? ==> Changed(s, c).devices[d] == s.devices[d]
  {
  }

  lemma ChangeKeepsConsistent(s: Spool, x: Index, c: Change)
    requires Consistent(s, x) && Possible(s, c) && Noticed(x, c)
    ensures Consistent(Changed(s, c), x)
  {
    var t := Changed(s, c);
    TimesStayValid(s, c);
    forall d | Current(t, x, d) ensures JobsKnown(t, x, d) {
      ChangeKeepsCurrent(s, x, c, d);
      assert JobsKnown(s, x, d);
    }
  }

  lemma ChangeKeepsClean(s: Spool, x: Index, c: Change)
    requires Consistent(s, x) && Clean(s, x) && Possible(s, c) && Noticed(x, c) && !Withdraws(s, c)
    ensures Clean(Changed(s, c), x)
  {
    var t := Changed(s, c);
    forall d | Current(t, x, d) ensures MarkersPresent(t, x, d) {
      ChangeKeepsCurrent(s, x, c, d);
      assert MarkersPresent(s, x, d);
      forall j | d in x.markers && j in x.markers[d] ensures HasMarker(t, (d, j)) {
        assert HasMarker(s, (d, j));
      }
    }
  }

  // A refresh re-establishes agreement.

  lemma RootKeeps(s: Spool, x: Index)
    requires Consistent(s, x)
    ensures Consistent(s, ReadRoot(x, s)) && ReadRoot(x, s).rootMtime == s.rootMtime
    ensures Clean(s, x) ==> Clean(s, ReadRoot(x, s))
  {
    var y := ReadRoot(x, s);
    if y != x {
      forall d | Current(s, y, d)
        ensures JobsKnown(s, y, d) && Current(s, x, d) && d in x.markers && y.markers[d] == x.markers[d]
      {
        assert Current(s, x, d);
        assert JobsKnown(s, x, d);
      }
      if Clean(s, x) {
        forall d | Current(s, y, d) ensures MarkersPresent(s, y, d) {
          assert MarkersPresent(s, x, d);
        }
      }
    }
  }

  lemma ScanKeepsDevice(s: Spool, x: Index, d: nat)
    requires Consistent(s, x) && x.rootMtime == s.rootMtime && d in s.devices
    ensures var y := ScannedIndex(x, s, x.deviceMtimes.Keys);
            && Current(s, y, d) && JobsKnown(s, y, d)
            && (Clean(s, x) ==> MarkersPresent(s, y, d))
  {
    var y := ScannedIndex(x, s, x.deviceMtimes.Keys);
    if Stale(x, s, d) {
      forall j ensures j in s.devices[d].jobs <==> j in y.markers[d] || (d, j) in y.unready {
      }
    } else {
      assert Current(s, x, d);
      assert JobsKnown(s, x, d);
      assert y.markers[d] == x.markers[d];
      assert forall j :: (d, j) in y.unready <==> (d, j) in x.unready;
      if Clean(s, x) {
        assert MarkersPresent(s, x, d);
      }
    }
  }

  /** Everything of `Consistent` but the jobs of the devices. */
  ghost predicate Booked(s: Spool, x: Index) {
    && TimesValid(s)
    && x.deviceMtimes.Keys == s.devices.Keys
    && x.markers.Keys <= x.deviceMtimes.Keys
    && (forall u :: u in x.unready ==> u.0 in x.deviceMtimes)
  }

  lemma ScanBooked(s: Spool, x: Index)
    requires Booked(s, x)
    ensures Booked(s, ScannedIndex(x, s, x.deviceMtimes.Keys))
  {
  }

  lemma ScanKeeps(s: Spool, x: Index)
    requires Consistent(s, x) && x.rootMtime == s.rootMtime
    ensures var y := ScannedIndex(x, s, x.deviceMtimes.Keys);
            && Consistent(s, y) && y.rootMtime == s.rootMtime && (forall d :: d in s.devices ==> Current(s, y, d))
            && (Clean(s, x) ==> Clean(s, y))
  {
    ScanBooked(s, x);
    var y := ScannedIndex(x, s, x.deviceMtimes.Keys);
    forall d | d in s.devices
      ensures Current(s, y, d) && JobsKnown(s, y, d) && (Clean(s, x) ==> MarkersPresent(s, y, d))
    {
      ScanKeepsDevice(s, x, d);
    }
  }

  lemma RecheckKeepsDevice(s: Spool, x: Index, d: nat)
    requires Consistent(s, x) && Current(s, x, d)
    ensures var y := RecheckedIndex(x, s, x.unready);
            && JobsKnown(s, y, d)
            && (Clean(s, x) ==> MarkersPresent(s, y, d))
  {
    var y := RecheckedIndex(x, s, x.unready);
    assert JobsKnown(s, x, d);
    var found := Found(s, x.unready);
    forall j ensures j in y.markers[d] <==> j in x.markers[d] || (d, j) in found {
      assert j in JobsOf(found, d) <==> (d, j) in found;
    }
    if Clean(s, x) {
      assert MarkersPresent(s, x, d);
    }
  }

  lemma RecheckBooked(s: Spool, x: Index)
    requires Booked(s, x)
    ensures Booked(s, RecheckedIndex(x, s, x.unready))
  {
    var y := RecheckedIndex(x, s, x.unready);
    forall d | d in DevicesOf(Found(s, x.unready)) ensures d in x.deviceMtimes {
      var u :| u in Found(s, x.unready) && u.0 == d;
    }
    assert y.deviceMtimes == x.deviceMtimes;
  }

  lemma RecheckKeeps(s: Spool, x: Index)
    requires Consistent(s, x) && x.rootMtime == s.rootMtime && forall d :: d in s.devices ==> Current(s, x, d)
    ensures var y := RecheckedIndex(x, s, x.unready);
            && Consistent(s, y) && (forall d :: d in s.devices ==> Current(s, y, d))
            && (forall u :: u in y.unready ==> !HasMarker(s, u))
            && (Clean(s, x) ==> Clean(s, y))
  {
    RecheckBooked(s, x);
    var y := RecheckedIndex(x, s, x.unready);
    forall d | d in s.devices
      ensures Current(s, y, d) && JobsKnown(s, y, d) && (Clean(s, x) ==> MarkersPresent(s, y, d))
    {
      assert Current(s, x, d);
      RecheckKeepsDevice(s, x, d);
    }
  }

  ghost predicate Indexed(x: Index, job: Job) {
    job.0 in x.markers && job.1 in x.markers[job.0]
  }

  /** After a refresh no marker is missing and every indexed job exists; when clean, the index is exact. */
  lemma RefreshAgrees(s: Spool, x: Index)
    requires Consistent(s, x)
    ensures Consistent(s, Refreshed(x, s)) && Refreshed(x, s).rootMtime == s.rootMtime
    ensures forall d :: d in s.devices ==> Current(s, Refreshed(x, s), d)
    ensures forall job :: HasMarker(s, job) ==> Indexed(Refreshed(x, s), job)
    ensures forall job :: Indexed(Refreshed(x, s), job) ==> Exists(s, job)
    ensures Clean(s, x) ==> Clean(s, Refreshed(x, s))
    ensures Clean(s, x) ==> forall job :: Indexed(Refreshed(x, s), job) <==> HasMarker(s, job)
  {
    var a := ReadRoot(x, s);
    RootKeeps(s, x);
    var b := ScannedIndex(a, s, a.deviceMtimes.Keys);
    ScanKeeps(s, a);
    RecheckKeeps(s, b);
    var y := Refreshed(x, s);
    forall job | HasMarker(s, job) ensures Indexed(y, job) {
      assert Current(s, y, job.0);
      assert JobsKnown(s, y, job.0);
      assert job == (job.0, job.1);
    }
    forall job | Indexed(y, job) ensures Exists(s, job) && (Clean(s, x) ==> HasMarker(s, job)) {
      assert job.0 in y.deviceMtimes && job.0 in s.devices;
      assert Current(s, y, job.0);
      assert JobsKnown(s, y, job.0);
      if Clean(s, x) {
        assert MarkersPresent(s, y, job.0);
        assert job == (job.0, job.1);
      }
    }
  }

  /** A refresh does not look again at the indexed markers of a directory it takes to be unchanged. */
  lemma TrustedMarkersStay(s: Spool, x: Index, job: Job)
    requires Consistent(s, x) && Current(s, x, job.0) && Indexed(x, job)
    ensures Indexed(Refreshed(x, s), job)
  {
    var a := ReadRoot(x, s);
    assert job.0 in a.markers && a.markers[job.0] == x.markers[job.0] && a.deviceMtimes[job.0] == x.deviceMtimes[job.0];
    var b := ScannedIndex(a, s, a.deviceMtimes.Keys);
    assert job.0 in b.markers && b.markers[job.0] == x.markers[job.0];
    assert job.1 in At(b.markers, job.0);
  }

  /**
   A refresh gives exactly what a full scan finds iff no directory it takes to be unchanged has
   lost an indexed marker.
   */
  lemma RefreshExactlyWhenClean(s: Spool, x: Index)
    requires Consistent(s, x)
    ensures (forall job :: Indexed(Refreshed(x, s), job) <==> HasMarker(s, job)) <==> Clean(s, x)
  {
    RefreshAgrees(s, x);
    if forall job :: Indexed(Refreshed(x, s), job) <==> HasMarker(s, job) {
      forall d | Current(s, x, d) ensures MarkersPresent(s, x, d) {
        forall j | d in x.markers && j in x.markers[d] ensures HasMarker(s, (d, j)) {
          TrustedMarkersStay(s, x, (d, j));
        }
      }
    }
  }

  // Runs.

  datatype Action = Env(change: Change) | Poll

  datatype World = World(spool: Spool, index: Index)

  predicate Enabled(w: World, a: Action) {
    a.Env? ==> Possible(w.spool, a.change) && Noticed(w.index, a.change)
  }

  ghost function Do(w: World, a: Action): World
    requires Enabled(w, a)
  {
    if a.Env? then w.(spool := Changed(w.spool, a.change)) else w.(index := Refreshed(w.index, w.spool))
  }

  ghost predicate IsRun(w: World, actions: seq<Action>)
    decreases |actions|
  {
    actions == [] || (Enabled(w, actions[0]) && IsRun(Do(w, actions[0]), actions[1..]))
  }

  ghost function After(w: World, actions: seq<Action>): World
    requires IsRun(w, actions)
    decreases |actions|
  {
    if actions == [] then w else After(Do(w, actions[0]), actions[1..])
  }

  ghost predicate NothingWithdrawn(w: World, actions: seq<Action>)
    requires IsRun(w, actions)
    decreases |actions|
  {
    actions == [] ||
    (!(actions[0].Env? && Withdraws(w.spool, actions[0].change)) && NothingWithdrawn(Do(w, actions[0]), actions[1..]))
  }

  /** A new adapter on any spool. */
  ghost predicate Initial(w: World) {
    w.index == EMPTY_INDEX && TimesValid(w.spool)
  }

  lemma {:induction false} RunKeeps(w: World, actions: seq<Action>)
    requires IsRun(w, actions) && Consistent(w.spool, w.index)
    ensures Consistent(After(w, actions).spool, After(w, actions).index)
    ensures Clean(w.spool, w.index) && NothingWithdrawn(w, actions) ==>
              Clean(After(w, actions).spool, After(w, actions).index)
    decreases |actions|
  {
    if actions != [] {
      var v := Do(w, actions[0]);
      if actions[0].Env? {
        ChangeKeepsConsistent(w.spool, w.index, actions[0].change);
        if Clean(w.spool, w.index) && !Withdraws(w.spool, actions[0].change) {
          ChangeKeepsClean(w.spool, w.index, actions[0].change);
        }
      } else {
        RefreshAgrees(w.spool, w.index);
      }
      RunKeeps(v, actions[1..]);
    }
  }

  /**
   After any run of device and job creation and removal, late publication and refreshes, the
   next refresh indexes every marker that a full scan would find and only existing jobs. It
   indexes exactly what a full scan finds iff no directory that is unchanged since it was read
   has lost an indexed marker; so it does whenever no marker was withdrawn from a surviving job.
   */
  lemma IndexAgreesWithFullScan(w: World, actions: seq<Action>)
    requires Initial(w) && IsRun(w, actions)
    ensures var v := After(w, actions);
            var x := Do(v, Poll).index;
            && (forall job :: HasMarker(v.spool, job) ==> Indexed(x, job))
            && (forall job :: Indexed(x, job) ==> Exists(v.spool, job))
            && ((forall job :: Indexed(x, job) <==> HasMarker(v.spool, job)) <==> Clean(v.spool, v.index))
            && (NothingWithdrawn(w, actions) ==> Clean(v.spool, v.index))
  {
    RunKeeps(w, actions);
    var v := After(w, actions);
    RefreshAgrees(v.spool, v.index);
    RefreshExactlyWhenClean(v.spool, v.index);
  }

  lemma WithdrawalIsMissed(s: Spool, x: Index, job: Job, marker: Marker)
    requires Consistent(s, x) && Current(s, x, job.0)
    requires Exists(s, job) && Indexed(x, job) && marker != Regular
    ensures var t := Changed(s, SetMarker(job.0, job.1, marker));
            !HasMarker(t, job) && Indexed(Refreshed(x, t), job)
  {
    var c := SetMarker(job.0, job.1, marker);
    ChangeKeepsConsistent(s, x, c);
    TrustedMarkersStay(Changed(s, c), x, job);
  }

  lemma RunThenRefresh(w: World, actions: seq<Action>)
    requires Initial(w) && IsRun(w, actions)
    ensures var v := Do(After(w, actions), Poll);
            && Consistent(v.spool, v.index) && v.index.rootMtime == v.spool.rootMtime
            && (forall d :: d in v.spool.devices ==> Current(v.spool, v.index, d))
            && (forall job :: HasMarker(v.spool, job) ==> Indexed(v.index, job))
  {
    RunKeeps(w, actions);
    RefreshAgrees(After(w, actions).spool, After(w, actions).index);
  }

  /**
   Withdrawal is the one change the index does not notice: after every run and a refresh, a
   marker that is taken away from a surviving job is still indexed after the next refresh.
   */
  lemma WithdrawnMarkerStaysIndexed(w: World, actions: seq<Action>, job: Job, marker: Marker)
    requires Initial(w) && IsRun(w, actions)
    requires HasMarker(After(w, actions).spool, job) && marker != Regular
    ensures var v, a := Do(After(w, actions), Poll), Env(SetMarker(job.0, job.1, marker));
            && Enabled(v, a)
            && !HasMarker(Do(v, a).spool, job) && Indexed(Do(Do(v, a), Poll).index, job)
  {
    RunThenRefresh(w, actions);
    var v := Do(After(w, actions), Poll);
    WithdrawalIsMissed(v.spool, v.index, job, marker);
  }

  lemma ReuseIsMissed(s: Spool, x: Index, job: Job)
    requires Consistent(s, x) && x.rootMtime == s.rootMtime && Current(s, x, job.0) && !Exists(s, job)
    ensures var c := AddJob(job.0, job.1, Regular, x.deviceMtimes[job.0]);
            && Possible(s, c) && !Noticed(x, c)
            && HasMarker(Changed(s, c), job) && !Indexed(Refreshed(x, Changed(s, c)), job)
  {
    var c := AddJob(job.0, job.1, Regular, x.deviceMtimes[job.0]);
    assert s.devices[job.0].mtime >= 0;
    assert JobsKnown(s, x, job.0);
    var t := Changed(s, c);
    assert ReadRoot(x, t) == x;
    var b := ScannedIndex(x, t, x.deviceMtimes.Keys);
    assert b.markers[job.0] == x.markers[job.0] && job !in b.unready;
    assert job !in Found(t, b.unready);
    assert job.1 !in JobsOf(Found(t, b.unready), job.0);
  }

  /**
   The assumption on times is needed: after every run and a refresh, a job published without a
   new time of its device directory is missed by the next refresh.
   */
  lemma ReusedTimeHidesJob(w: World, actions: seq<Action>, job: Job)
    requires Initial(w) && IsRun(w, actions)
    requires job.0 in After(w, actions).spool.devices && !Exists(After(w, actions).spool, job)
    ensures var v := Do(After(w, actions), Poll);
            var c := AddJob(job.0, job.1, Regular, v.spool.devices[job.0].mtime);
            && Possible(v.spool, c) && HasMarker(Changed(v.spool, c), job)
            && !Indexed(Refreshed(v.index, Changed(v.spool, c)), job)
  {
    RunThenRefresh(w, actions);
    var v := Do(After(w, actions), Poll);
    assert Current(v.spool, v.index, job.0);
    ReuseIsMissed(v.spool, v.index, job);
  }

  /** A spool of one device with one ready job, and a new adapter on it. */
  function OneJob(): World {
    World(Spool(0, map[0 := DeviceDir(0, map[0 := Regular])]), EMPTY_INDEX)
  }

  /** Its marker, withdrawn after the first refresh, stays indexed, and a second job in the same tick is missed. */
  lemma OneJobIsMisread()
    ensures var v := Do(OneJob(), Poll);
            var withdrawn := Env(SetMarker(0, 0, Missing));
            var second := AddJob(0, 1, Regular, 0);
            && Enabled(v, withdrawn) && !HasMarker(Do(v, withdrawn).spool, (0, 0))
            && Indexed(Do(Do(v, withdrawn), Poll).index, (0, 0))
            && Possible(v.spool, second) && HasMarker(Changed(v.spool, second), (0, 1))
            && !Indexed(Refreshed(v.index, Changed(v.spool, second)), (0, 1))
  {
    assert Initial(OneJob()) && IsRun(OneJob(), []) && After(OneJob(), []) == OneJob();
    WithdrawnMarkerStaysIndexed(OneJob(), [], (0, 0), Missing);
    ReusedTimeHidesJob(OneJob(), [], (0, 1));
  }
}
