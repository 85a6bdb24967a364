/**
 The canonical adapter's incremental discovery index (`_scan_device`,
 `_refresh_discovery_index`): modification times decide which directories are read again.
 The spool is a value here and a refresh sees one state of it; devices, jobs and their
 directories are numbered, and only directory entries are represented.
 */
module Discovery {

  /** The `.ready` entry of a job directory. */
  datatype Marker = Missing | Irregular | Regular

  datatype DeviceDir = DeviceDir(mtime: int, jobs: map<nat, Marker>)

  /** The spool tree. */
  datatype Spool = Spool(rootMtime: int, devices: map<nat, DeviceDir>)

  type Job = (nat, nat)  // device and job directory

  datatype Index = Index(
    rootMtime: int,
    deviceMtimes: map<nat, int>,
    markers: map<nat, set<nat>>,
    unready: set<Job>)

  const EMPTY_INDEX := Index(-1, map[], map[], {})

  function ReadyJobs(d: DeviceDir): set<nat> {
    set j | j in d.jobs && d.jobs[j] == Regular
  }

  predicate Exists(s: Spool, job: Job) {
    job.0 in s.devices && job.1 in s.devices[job.0].jobs
  }

  predicate HasMarker(s: Spool, job: Job) {
    Exists(s, job) && s.devices[job.0].jobs[job.1] == Regular
  }

  // A refresh, in its three parts.

  /** Devices that vanished are forgotten, new ones are added with an impossible time. */
  function ReadRoot(x: Index, s: Spool): Index {
    if s.rootMtime == x.rootMtime then x
    else
      Index(s.rootMtime,
            map d | d in s.devices :: if d in x.deviceMtimes then x.deviceMtimes[d] else -1,
            map d | d in x.markers && (d in s.devices || d !in x.deviceMtimes) :: x.markers[d],
            set u | u in x.unready && (u.0 in s.devices || u.0 !in x.deviceMtimes))
  }

  /** The device directory changed since it was last read. */
  predicate Stale(x: Index, s: Spool, d: nat) {
    d in x.deviceMtimes && d in s.devices && s.devices[d].mtime != x.deviceMtimes[d]
  }

  function ScanDevice(x: Index, s: Spool, d: nat): Index
    requires d in s.devices
  {
    var dir := s.devices[d];
    x.(deviceMtimes := x.deviceMtimes[d := dir.mtime],
       markers := x.markers[d := ReadyJobs(dir)],
       unready := (set u | u in x.unready && u.0 != d) + (set j | j in dir.jobs && dir.jobs[j] != Regular :: (d, j)))
  }

  /** The index after the stale devices among `done` have been read again. */
  ghost function ScannedIndex(x: Index, s: Spool, done: set<nat>): Index {
    var stale := set d | d in done && Stale(x, s, d);
    Index(x.rootMtime,
          map d | d in x.deviceMtimes :: if d in stale then s.devices[d].mtime else x.deviceMtimes[d],
          map d | d in x.markers.Keys + stale :: if d in stale then ReadyJobs(s.devices[d]) else x.markers[d],
          (set u | u in x.unready && u.0 !in stale) +
          (set d, j | d in stale && j in s.devices[d].jobs && s.devices[d].jobs[j] != Regular :: (d, j)))
  }

  function RecheckJob(x: Index, s: Spool, job: Job): Index {
    if !Exists(s, job) then x.(unready := x.unready - {job})
    else if HasMarker(s, job) then
      x.(markers := x.markers[job.0 := At(x.markers, job.0) + {job.1}],
         unready := x.unready - {job})
    else x
  }

  function At(markers: map<nat, set<nat>>, d: nat): set<nat> {
    if d in markers then markers[d] else {}
  }

  ghost function JobsOf(jobs: set<Job>, d: nat): set<nat> {
    set u | u in jobs && u.0 == d :: u.1
  }

  ghost function DevicesOf(jobs: set<Job>): set<nat> {
    set u | u in jobs :: u.0
  }

  ghost function AddMarkers(markers: map<nat, set<nat>>, jobs: set<Job>): map<nat, set<nat>> {
    map d | d in markers.Keys + DevicesOf(jobs) :: At(markers, d) + JobsOf(jobs, d)
  }

  /** The index after the jobs among `done` have been looked at again. */
  ghost function RecheckedIndex(x: Index, s: Spool, done: set<Job>): Index {
    var found := Found(s, done);
    x.(markers := AddMarkers(x.markers, found),
       unready := set u | u in x.unready && (u !in done || (Exists(s, u) && !HasMarker(s, u))))
  }

  ghost function Refreshed(x: Index, s: Spool): Index {
    var a := ReadRoot(x, s);
    var b := ScannedIndex(a, s, a.deviceMtimes.Keys);
    RecheckedIndex(b, s, b.unready)
  }

  lemma ScanStep(x: Index, s: Spool, done: set<nat>, d: nat)
    requires d in x.deviceMtimes && d !in done
    ensures var y := ScannedIndex(x, s, done);
            && (Stale(x, s, d) <==> d in s.devices && d in y.deviceMtimes && s.devices[d].mtime != y.deviceMtimes[d])
            && (Stale(x, s, d) ==> ScannedIndex(x, s, done + {d}) == ScanDevice(y, s, d))
            && (!Stale(x, s, d) ==> ScannedIndex(x, s, done + {d}) == y)
  {
    var y, z := ScannedIndex(x, s, done), ScannedIndex(x, s, done + {d});
    if Stale(x, s, d) {
      var w := ScanDevice(y, s, d);
      assert z.deviceMtimes == w.deviceMtimes;
      assert z.markers == w.markers;
      assert z.unready == w.unready;
    } else {
      assert (set e | e in done + {d} && Stale(x, s, e)) == (set e | e in done && Stale(x, s, e));
    }
  }

  lemma ScanNothing(x: Index, s: Spool)
    ensures ScannedIndex(x, s, {}) == x
  {
    var y := ScannedIndex(x, s, {});
    assert y.deviceMtimes == x.deviceMtimes;
    assert y.markers == x.markers;
    assert y.unready == x.unready;
  }

  lemma RecheckNothing(x: Index, s: Spool)
    ensures RecheckedIndex(x, s, {}) == x
  {
    var y := RecheckedIndex(x, s, {});
    assert Found(s, {}) == {} && DevicesOf({}) == {};
    forall d | d in x.markers ensures y.markers[d] == x.markers[d] {
      JobsNeedDevice({}, d);
    }
    assert y.markers == x.markers;
    assert y.unready == x.unready;
  }

  ghost function Found(s: Spool, done: set<Job>): set<Job> {
    set u | u in done && HasMarker(s, u)
  }

  lemma JobsStep(jobs: set<Job>, u: Job, d: nat)
    ensures JobsOf(jobs + {u}, d) == JobsOf(jobs, d) + if u.0 == d then {u.1} else {}
    ensures DevicesOf(jobs + {u}) == DevicesOf(jobs) + {u.0}
  {
    forall j ensures j in JobsOf(jobs + {u}, d) <==> j in JobsOf(jobs, d) || (u.0 == d && j == u.1) {
      assert (d, j) in jobs + {u} <==> (d, j) in jobs || (d, j) == u;
    }
    forall e ensures e in DevicesOf(jobs + {u}) <==> e in DevicesOf(jobs) || e == u.0 {
      assert u in jobs + {u};
      if e in DevicesOf(jobs) {
        var v :| v in jobs && v.0 == e;
        assert v in jobs + {u};
      }
    }
  }

  lemma JobsNeedDevice(jobs: set<Job>, d: nat)
    requires d !in DevicesOf(jobs)
    ensures JobsOf(jobs, d) == {}
  {
  }

  lemma AddMarkersStep(markers: map<nat, set<nat>>, jobs: set<Job>, u: Job)
    ensures var added := AddMarkers(markers, jobs);
            AddMarkers(markers, jobs + {u}) == added[u.0 := At(added, u.0) + {u.1}]
  {
    var added, more := AddMarkers(markers, jobs), AddMarkers(markers, jobs + {u});
    var updated := added[u.0 := At(added, u.0) + {u.1}];
    JobsStep(jobs, u, u.0);
    assert more.Keys == updated.Keys;
    forall d | d in more ensures more[d] == updated[d] {
      JobsStep(jobs, u, d);
      if d !in DevicesOf(jobs) {
        JobsNeedDevice(jobs, d);
      }
    }
  }

  lemma RecheckFound(x: Index, s: Spool, done: set<Job>, u: Job)
    requires u in x.unready && u !in done && HasMarker(s, u)
    ensures RecheckedIndex(x, s, done + {u}) == RecheckJob(RecheckedIndex(x, s, done), s, u)
  {
    AddMarkersStep(x.markers, Found(s, done), u);
    assert Found(s, done + {u}) == Found(s, done) + {u};
    assert RecheckedIndex(x, s, done + {u}).unready == RecheckJob(RecheckedIndex(x, s, done), s, u).unready;
  }

  lemma RecheckStep(x: Index, s: Spool, done: set<Job>, u: Job)
    requires u in x.unready && u !in done
    ensures RecheckedIndex(x, s, done + {u}) == RecheckJob(RecheckedIndex(x, s, done), s, u)
  {
    if HasMarker(s, u) {
      RecheckFound(x, s, done, u);
    } else {
      assert Found(s, done + {u}) == Found(s, done);
      assert RecheckedIndex(x, s, done + {u}).unready == RecheckJob(RecheckedIndex(x, s, done), s, u).unready;
    }
  }

  class Adapter {
    var rootMtime: int
    var deviceMtimes: map<nat, int>
    var markersByDevice: map<nat, set<nat>>
    var unreadyJobs: set<Job>

    function State(): Index
      reads this
    {
      Index(rootMtime, deviceMtimes, markersByDevice, unreadyJobs)
    }

    constructor ()
      ensures State() == EMPTY_INDEX
    {
      rootMtime, deviceMtimes, markersByDevice, unreadyJobs := -1, map[], map[], {};
    }

    method ReadRootDirectory(s: Spool)
      modifies this
      ensures State() == ReadRoot(old(State()), s)
    {
      if s.rootMtime != rootMtime {
        var removed := deviceMtimes.Keys - s.devices.Keys;
        markersByDevice := map d | d in markersByDevice && d !in removed :: markersByDevice[d];
        unreadyJobs := set u | u in unreadyJobs && u.0 !in removed;
        deviceMtimes := map d | d in s.devices :: if d in deviceMtimes then deviceMtimes[d] else -1;
        rootMtime := s.rootMtime;
      }
    }

    method Scan(s: Spool, d: nat)
      requires d in s.devices
      modifies this
      ensures State() == ScanDevice(old(State()), s, d)
    {
      var dir := s.devices[d];
      markersByDevice := markersByDevice[d := ReadyJobs(dir)];
      unreadyJobs := set u | u in unreadyJobs && u.0 != d;
      unreadyJobs := unreadyJobs + (set j | j in dir.jobs && dir.jobs[j] != Regular :: (d, j));
      deviceMtimes := deviceMtimes[d := dir.mtime];
    }

    /** Reads the changed device directories again, in any order. */
    method ScanChangedDevices(s: Spool)
      modifies this
      ensures State() == ScannedIndex(old(State()), s, old(deviceMtimes).Keys)
    {
      ghost var a := State();
      ScanNothing(a, s);
      var todo, done := deviceMtimes.Keys, {};
      while todo != {}
        invariant todo !! done && todo + done == a.deviceMtimes.Keys
        invariant State() == ScannedIndex(a, s, done)
        decreases todo
      {
        var d :| d in todo;
        ScanStep(a, s, done, d);
        if d in s.devices && s.devices[d].mtime != deviceMtimes[d] {
          Scan(s, d);
        }
        todo, done := todo - {d}, done + {d};
      }
    }

    /** Looks at the jobs without a marker again, in any order. */
    method RecheckUnreadyJobs(s: Spool)
      modifies this
      ensures State() == RecheckedIndex(old(State()), s, old(unreadyJobs))
    {
      ghost var b := State();
      RecheckNothing(b, s);
      var jobs, seen := unreadyJobs, {};
      while jobs != {}
        invariant jobs !! seen && jobs + seen == b.unready
        invariant State() == RecheckedIndex(b, s, seen)
        decreases jobs
      {
        var u :| u in jobs;
        RecheckStep(b, s, seen, u);
        if !Exists(s, u) {
          unreadyJobs := unreadyJobs - {u};
        } else if HasMarker(s, u) {
          markersByDevice := markersByDevice[u.0 := At(markersByDevice, u.0) + {u.1}];
          unreadyJobs := unreadyJobs - {u};
        }
        jobs, seen := jobs - {u}, seen + {u};
      }
    }

    method Refresh(s: Spool)
      modifies this
      ensures State() == Refreshed(old(State()), s)
    {
      ReadRootDirectory(s);
      ScanChangedDevices(s);
      RecheckUnreadyJobs(s);
    }
  }
}
