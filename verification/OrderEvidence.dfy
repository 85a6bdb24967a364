/**
 Append-only order evidence (`_append_order_evidence`): each desired event that is not stored
 yet extends the event chain and the snapshot chain of its order.
 */
module OrderEvidence {
  import opened Lines
  import opened HashChain
  import opened DesiredEvents

  datatype EventBody = EventBody(identity: Identity, documentId: nat, sequence: nat, time: int)
  datatype SnapshotBody = SnapshotBody(identity: Identity, sequence: nat, time: int, lines: seq<DocumentLine>)

  /** The stored events and snapshots of one order. */
  datatype Log = Log(events: seq<Record<EventBody>>, snapshots: seq<Record<SnapshotBody>>)

  datatype Hashers = Hashers(event: Hasher<EventBody>, snapshot: Hasher<SnapshotBody>)

  predicate Stored(events: seq<Record<EventBody>>, id: Identity) {
    exists i :: 0 <= i < |events| && events[i].body.identity == id
  }

  predicate SnapshotStored(snapshots: seq<Record<SnapshotBody>>, id: Identity) {
    exists i :: 0 <= i < |snapshots| && snapshots[i].body.identity == id
  }

  function LastEvent(events: seq<Record<EventBody>>): nat {
    if events == [] then 0 else events[|events| - 1].body.sequence
  }

  function LastSnapshot(snapshots: seq<Record<SnapshotBody>>): nat {
    if snapshots == [] then 0 else snapshots[|snapshots| - 1].body.sequence
  }

  function AppendOne(log: Log, e: OrderEvent, h: Hashers): Log {
    var id := IdentityOf(e);
    if Stored(log.events, id) then log
    else
      var events := Extend(log.events, EventBody(id, e.documentId, LastEvent(log.events) + 1, e.time), h.event);
      if SnapshotStored(log.snapshots, id) then log.(events := events)
      else
        var snapshot := SnapshotBody(id, LastSnapshot(log.snapshots) + 1, e.time, e.lines);
        Log(events, Extend(log.snapshots, snapshot, h.snapshot))
  }

  function AppendAll(log: Log, desired: seq<OrderEvent>, h: Hashers): Log {
    if desired == [] then log
    else
      var n := |desired| - 1;
      AppendOne(AppendAll(log, desired[..n], h), desired[n], h)
  }

  /** Both chains verify, are numbered from one without gap, and every snapshot belongs to a stored event. */
  ghost predicate WellKept(log: Log, h: Hashers) {
    && Chained(log.events, h.event) && Chained(log.snapshots, h.snapshot)
    && (forall i :: 0 <= i < |log.events| ==> log.events[i].body.sequence == i + 1)
    && (forall i :: 0 <= i < |log.snapshots| ==> log.snapshots[i].body.sequence == i + 1)
    && (forall i :: 0 <= i < |log.snapshots| ==> Stored(log.events, log.snapshots[i].body.identity))
  }

  lemma StoredExtends(events: seq<Record<EventBody>>, more: seq<Record<EventBody>>, id: Identity)
    requires events <= more && Stored(events, id)
    ensures Stored(more, id)
  {
    var i :| 0 <= i < |events| && events[i].body.identity == id;
    assert more[i] == events[i];
  }

  lemma AppendOneKeeps(log: Log, e: OrderEvent, h: Hashers)
    requires WellKept(log, h)
    ensures var next := AppendOne(log, e, h);
            && WellKept(next, h)
            && log.events <= next.events && log.snapshots <= next.snapshots
            && Stored(next.events, IdentityOf(e))
            && |next.events| - |log.events| == |next.snapshots| - |log.snapshots|
            && (forall id :: Stored(next.events, id) <==> Stored(log.events, id) || id == IdentityOf(e))
  {
    var id, next := IdentityOf(e), AppendOne(log, e, h);
    if !Stored(log.events, id) {
      assert !SnapshotStored(log.snapshots, id);
      ExtendChained(log.events, EventBody(id, e.documentId, LastEvent(log.events) + 1, e.time), h.event);
      ExtendChained(log.snapshots, SnapshotBody(id, LastSnapshot(log.snapshots) + 1, e.time, e.lines), h.snapshot);
      assert next.events[|log.events|].body.identity == id;
      forall i | 0 <= i < |next.snapshots| ensures Stored(next.events, next.snapshots[i].body.identity) {
        if i < |log.snapshots| {
          StoredExtends(log.events, next.events, log.snapshots[i].body.identity);
        }
      }
      forall other ensures Stored(next.events, other) <==> Stored(log.events, other) || other == id {
        if Stored(log.events, other) {
          StoredExtends(log.events, next.events, other);
        }
      }
    }
  }

  ghost predicate Wanted(desired: seq<OrderEvent>, id: Identity) {
    exists i :: 0 <= i < |desired| && IdentityOf(desired[i]) == id
  }

  lemma WantedStep(desired: seq<OrderEvent>, id: Identity)
    requires desired != []
    ensures var n := |desired| - 1; Wanted(desired, id) <==> Wanted(desired[..n], id) || id == IdentityOf(desired[n])
  {
    var n := |desired| - 1;
    if Wanted(desired[..n], id) {
      var i :| 0 <= i < n && IdentityOf(desired[..n][i]) == id;
      assert desired[i] == desired[..n][i];
    }
    if Wanted(desired, id) {
      var i :| 0 <= i < |desired| && IdentityOf(desired[i]) == id;
      assert i < n ==> desired[..n][i] == desired[i];
    }
  }

  /**
   An append run extends both chains with contiguous, verifiable records, one snapshot per
   event, and stores exactly the desired identities besides those already there.
   */
  lemma {:induction false} AppendAllKeeps(log: Log, desired: seq<OrderEvent>, h: Hashers)
    requires WellKept(log, h)
    ensures var next := AppendAll(log, desired, h);
            && WellKept(next, h)
            && log.events <= next.events && log.snapshots <= next.snapshots
            && |next.events| - |log.events| == |next.snapshots| - |log.snapshots|
            && (forall id :: Stored(next.events, id) <==> Stored(log.events, id) || Wanted(desired, id))
    decreases |desired|
  {
    if desired != [] {
      var n := |desired| - 1;
      AppendAllKeeps(log, desired[..n], h);
      AppendOneKeeps(AppendAll(log, desired[..n], h), desired[n], h);
      forall id ensures Wanted(desired, id) <==> Wanted(desired[..n], id) || id == IdentityOf(desired[n]) {
        WantedStep(desired, id);
      }
    }
  }

  lemma {:induction false} NothingToAppend(log: Log, desired: seq<OrderEvent>, h: Hashers)
    requires forall i :: 0 <= i < |desired| ==> Stored(log.events, IdentityOf(desired[i]))
    ensures AppendAll(log, desired, h) == log
    decreases |desired|
  {
    if desired != [] {
      NothingToAppend(log, desired[..|desired| - 1], h);
    }
  }

  /** A second run on the same order and transaction appends nothing. */
  lemma AppendIsIdempotent(log: Log, desired: seq<OrderEvent>, h: Hashers)
    requires WellKept(log, h)
    ensures AppendAll(AppendAll(log, desired, h), desired, h) == AppendAll(log, desired, h)
  {
    AppendAllKeeps(log, desired, h);
    var next := AppendAll(log, desired, h);
    forall i | 0 <= i < |desired| ensures Stored(next.events, IdentityOf(desired[i])) {
      assert Wanted(desired, IdentityOf(desired[i]));
    }
    NothingToAppend(next, desired, h);
  }

  /** How many desired events are missing from the store. */
  function Missing(events: seq<Record<EventBody>>, desired: seq<OrderEvent>): nat {
    if desired == [] then 0
    else
      var n := |desired| - 1;
      Missing(events, desired[..n]) + (if Stored(events, IdentityOf(desired[n])) then 0 else 1)
  }

  /** With distinct identities a run inserts exactly the missing events. */
  lemma {:induction false} InsertsExactlyMissing(log: Log, desired: seq<OrderEvent>, h: Hashers)
    requires WellKept(log, h) && Distinct(desired)
    ensures |AppendAll(log, desired, h).events| == |log.events| + Missing(log.events, desired)
    decreases |desired|
  {
    if desired != [] {
      var n := |desired| - 1;
      InsertsExactlyMissing(log, desired[..n], h);
      AppendAllKeeps(log, desired[..n], h);
      NotWantedBefore(desired);
    }
  }

  lemma NotWantedBefore(desired: seq<OrderEvent>)
    requires desired != [] && Distinct(desired)
    ensures !Wanted(desired[..|desired| - 1], IdentityOf(desired[|desired| - 1]))
  {
    var n := |desired| - 1;
    forall i | 0 <= i < n ensures IdentityOf(desired[..n][i]) != IdentityOf(desired[n]) {
      assert desired[..n][i] == desired[i];
    }
  }

  /** The desired events that are missing from the store, in their order. */
  function MissingEvents(events: seq<Record<EventBody>>, desired: seq<OrderEvent>): seq<OrderEvent> {
    if desired == [] then []
    else
      var n := |desired| - 1;
      MissingEvents(events, desired[..n]) + (if Stored(events, IdentityOf(desired[n])) then [] else [desired[n]])
  }

  /** The record tells the event's identity, document and time. */
  ghost predicate RecordsEvent(r: Record<EventBody>, e: OrderEvent) {
    && r.body.identity == (e.versionId, e.eventType, e.details)
    && r.body.documentId == e.documentId && r.body.time == e.time
  }

  /** The snapshot belongs to the event and shows its time and lines. */
  ghost predicate ShowsLines(r: Record<SnapshotBody>, e: OrderEvent) {
    && r.body.identity == (e.versionId, e.eventType, e.details)
    && r.body.time == e.time && r.body.lines == e.lines
  }

  ghost predicate HoldsBehind(log: Log, next: Log, added: seq<OrderEvent>) {
    && |next.events| == |log.events| + |added| && |next.snapshots| == |log.snapshots| + |added|
    && log.events <= next.events && log.snapshots <= next.snapshots
    && (forall k :: 0 <= k < |added| ==> RecordsEvent(next.events[|log.events| + k], added[k]))
    && (forall k :: 0 <= k < |added| ==> ShowsLines(next.snapshots[|log.snapshots| + k], added[k]))
  }

  lemma AppendOneHolds(log: Log, now: Log, added: seq<OrderEvent>, e: OrderEvent, h: Hashers)
    requires HoldsBehind(log, now, added) && !Stored(now.events, IdentityOf(e))
    requires !SnapshotStored(now.snapshots, IdentityOf(e))
    ensures HoldsBehind(log, AppendOne(now, e, h), added + [e])
  {
    var next, more := AppendOne(now, e, h), added + [e];
    forall k | 0 <= k < |more| ensures RecordsEvent(next.events[|log.events| + k], more[k]) {
      if k < |added| {
        assert next.events[|log.events| + k] == now.events[|log.events| + k];
      }
    }
    forall k | 0 <= k < |more| ensures ShowsLines(next.snapshots[|log.snapshots| + k], more[k]) {
      if k < |added| {
        assert next.snapshots[|log.snapshots| + k] == now.snapshots[|log.snapshots| + k];
      }
    }
  }

  /** A run stores the missing events in their order, each with its document and time and a snapshot of its lines. */
  lemma {:induction false} AppendsTheMissing(log: Log, desired: seq<OrderEvent>, h: Hashers)
    requires WellKept(log, h) && Distinct(desired)
    ensures HoldsBehind(log, AppendAll(log, desired, h), MissingEvents(log.events, desired))
    decreases |desired|
  {
    if desired != [] {
      var n := |desired| - 1;
      AppendsTheMissing(log, desired[..n], h);
      AgreesWithStored(log, desired, n, h);
      var now := AppendAll(log, desired[..n], h);
      if !Stored(log.events, IdentityOf(desired[n])) {
        AppendOneHolds(log, now, MissingEvents(log.events, desired[..n]), desired[n], h);
      }
    }
  }

  class OrderLog {
    const hashers: Hashers
    var events: seq<Record<EventBody>>
    var snapshots: seq<Record<SnapshotBody>>

    function State(): Log
      reads this
    {
      Log(events, snapshots)
    }

    ghost predicate Valid()
      reads this
    {
      WellKept(State(), hashers)
    }

    constructor (hashers: Hashers)
      ensures Valid() && events == [] && snapshots == []
    {
      this.hashers := hashers;
      events, snapshots := [], [];
    }

    /** Adds one event, and its snapshot unless one exists, at the running sequence numbers and digests. */
    method Add(e: OrderEvent, eventSequence: nat, eventHash: Hash, snapshotSequence: nat, snapshotHash: Hash,
               hasSnapshot: bool)
      requires eventSequence == LastEvent(events) + 1 && eventHash == Head(events)
      requires snapshotSequence == LastSnapshot(snapshots) + 1 && snapshotHash == Head(snapshots)
      requires !Stored(events, IdentityOf(e)) && hasSnapshot == SnapshotStored(snapshots, IdentityOf(e))
      modifies this
      ensures State() == AppendOne(old(State()), e, hashers)
      ensures |events| == |old(events)| + 1 && LastEvent(events) == eventSequence
      ensures |snapshots| == |old(snapshots)| + (if hasSnapshot then 0 else 1)
    {
      var body := EventBody(IdentityOf(e), e.documentId, eventSequence, e.time);
      events := events + [Record(body, eventHash, hashers.event(body, eventHash, eventHash))];
      if !hasSnapshot {
        var state := SnapshotBody(IdentityOf(e), snapshotSequence, e.time, e.lines);
        snapshots := snapshots + [Record(state, snapshotHash, hashers.snapshot(state, snapshotHash, snapshotHash))];
      }
    }

    /**
     The loop of a run. Events are looked up among the rows stored before the run; because the
     desired identities are distinct this agrees with looking at the rows added meanwhile.
     */
    method AppendEvents(desired: seq<OrderEvent>)
      requires Valid() && Distinct(desired)
      modifies this
      ensures State() == AppendAll(old(State()), desired, hashers)
    {
      var stored, storedSnapshots := events, snapshots;
      for i := 0 to |desired|
        invariant State() == AppendAll(old(State()), desired[..i], hashers)
      {
        var e := desired[i];
        assert desired[..i + 1][..i] == desired[..i];
        AgreesWithStored(Log(stored, storedSnapshots), desired, i, hashers);
        if Stored(stored, IdentityOf(e)) {
          continue;
        }
        Add(e, LastEvent(events) + 1, Head(events), LastSnapshot(snapshots) + 1, Head(snapshots),
            SnapshotStored(storedSnapshots, IdentityOf(e)));
      }
      assert desired[..|desired|] == desired;
    }

    method AppendCounted(desired: seq<OrderEvent>) returns (eventsInserted: nat, snapshotsInserted: nat)
      requires Valid() && Distinct(desired)
      modifies this
      ensures Valid() && State() == AppendAll(old(State()), desired, hashers)
      ensures eventsInserted == Missing(old(events), desired) == |events| - |old(events)|
      ensures snapshotsInserted == |snapshots| - |old(snapshots)| == eventsInserted
    {
      AppendAllKeeps(State(), desired, hashers);
      InsertsExactlyMissing(State(), desired, hashers);
      var storedEvents, storedSnapshots := |events|, |snapshots|;
      AppendEvents(desired);
      eventsInserted, snapshotsInserted := |events| - storedEvents, |snapshots| - storedSnapshots;
    }

    method AppendOrderEvidence(t: Transaction) returns (eventsInserted: nat, snapshotsInserted: nat)
      requires Valid() && DistinctVersions(t.documents)
      modifies this
      ensures Valid() && State() == AppendAll(old(State()), Desired(t), hashers)
      ensures eventsInserted == Missing(old(events), Desired(t)) == |events| - |old(events)|
      ensures snapshotsInserted == |snapshots| - |old(snapshots)| == eventsInserted
    {
      var desired := DesiredEventsOf(t);
      DesiredDistinct(t);
      eventsInserted, snapshotsInserted := AppendCounted(desired);
    }
  }

  /** Before the i-th desired event, its identity is stored exactly if it was stored at the start. */
  lemma AgreesWithStored(log: Log, desired: seq<OrderEvent>, i: nat, h: Hashers)
    requires WellKept(log, h) && Distinct(desired) && i < |desired|
    ensures var now := AppendAll(log, desired[..i], h);
            && (Stored(now.events, IdentityOf(desired[i])) <==> Stored(log.events, IdentityOf(desired[i])))
            && (!Stored(log.events, IdentityOf(desired[i])) ==>
                  && !SnapshotStored(now.snapshots, IdentityOf(desired[i]))
                  && !SnapshotStored(log.snapshots, IdentityOf(desired[i])))
  {
    AppendAllKeeps(log, desired[..i], h);
    assert desired[..i + 1][..i] == desired[..i];
    NotWantedBefore(desired[..i + 1]);
  }
}
