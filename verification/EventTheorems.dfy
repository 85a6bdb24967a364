/**
 Which order events a transaction calls for, said of its documents (`_desired_events` of the
 correlation worker): its creation and closing, its printed documents and payments, and every
 change between the line lists that the worker compares.
 */
module EventTheorems {
  import opened Options
  import opened Ordering
  import opened Lines
  import opened OrderChanges
  import opened Documents
  import opened OrderTimeline
  import opened DesiredEvents

  // Documents.

  predicate OpensOrder(d: Document) {
    d.docType == Order || d.docType == KitchenOrder || d.docType == PreBill || d.docType == ManagementDocument
  }

  predicate Receipt(d: Document) {
    d.docType == CommercialDocument && d.complete
  }

  predicate RoomClosure(d: Document) {
    d.docType == ManagementDocument && (d.economicClose || d.roomCharge)
  }

  ghost predicate HasReceipt(documents: seq<Document>) {
    exists d :: d in documents && Receipt(d)
  }

  /** Complete receipts close a sale; without any, the management documents that settle do. */
  ghost predicate Closes(documents: seq<Document>, d: Document) {
    d in documents && if HasReceipt(documents) then Receipt(d) else RoomClosure(d)
  }

  predicate Earlier(a: Document, b: Document) {
    a.time < b.time || (a.time == b.time && a.id < b.id)
  }

  lemma {:induction false} FilterMembers(documents: seq<Document>, keep: Document -> bool)
    ensures forall d :: d in Filter(documents, keep) <==> d in documents && keep(d)
    decreases |documents|
  {
    if documents != [] {
      FilterMembers(documents[..|documents| - 1], keep);
    }
  }

  lemma EarlierByKey(a: Document, b: Document)
    ensures Earlier(a, b) <==> LexLess(TimeOrder()(a), TimeOrder()(b))
  {
    var x, y := TimeOrder()(a), TimeOrder()(b);
    assert x[1..][1..] == [] && y[1..][1..] == [];
    assert LexLess(x[1..], y[1..]) <==> a.id < b.id;
  }

  lemma SortedMembers<T>(s: seq<T>, key: T -> seq<int>)
    ensures forall x :: x in SortBy(s, key) <==> x in s
  {
    forall x ensures x in SortBy(s, key) <==> x in s {
      assert x in multiset(SortBy(s, key)) <==> x in multiset(s);
    }
  }

  lemma FirstIsEarliest(documents: seq<Document>)
    requires documents != []
    ensures var first := SortBy(documents, TimeOrder())[0];
            first in documents && forall d :: d in documents ==> !Earlier(d, first)
  {
    var sorted := SortBy(documents, TimeOrder());
    SortByIsSorted(documents, TimeOrder());
    SortedMembers(documents, TimeOrder());
    assert sorted[0] in sorted;
    forall d | d in documents ensures !Earlier(d, sorted[0]) {
      assert d in sorted;
      EarlierByKey(d, sorted[0]);
      LexIrreflexive(TimeOrder()(d));
    }
  }

  lemma LatestIsLatest(documents: seq<Document>)
    requires documents != []
    ensures Latest(documents) in documents && forall d :: d in documents ==> !Earlier(Latest(documents), d)
  {
    var sorted := SortBy(documents, TimeOrder());
    SortByIsSorted(documents, TimeOrder());
    SortedMembers(documents, TimeOrder());
    var last := sorted[|sorted| - 1];
    assert last in sorted;
    forall d | d in documents ensures !Earlier(last, d) {
      assert d in sorted;
      EarlierByKey(last, d);
      LexIrreflexive(TimeOrder()(d));
    }
  }

  lemma ClosuresMembers(documents: seq<Document>)
    ensures forall d :: d in FinalClosures(documents) <==> Closes(documents, d)
  {
    var receipts := (d: Document) => IsFiscal(d.docType) && d.complete;
    FilterMembers(documents, receipts);
    FilterMembers(documents, (d: Document) => d.docType == ManagementDocument && Settles(d));
    var fiscals := Filter(documents, receipts);
    if fiscals != [] {
      assert fiscals[0] in fiscals;
    }
  }

  // The events without changes.

  /** The creation of the order by its earliest opening document. */
  ghost predicate IsCreation(documents: seq<Document>, e: OrderEvent) {
    exists d :: d in documents && OpensOrder(d) && (forall o :: o in documents && OpensOrder(o) ==> !Earlier(o, d)) &&
                e == OrderEvent(d.time, OrderCreated, d.id, d.versionId, CreatedDetails(d.docType, d.grossTotal),
                                d.lines)
  }

  /** The closing by the latest document that closes. */
  ghost predicate IsClosing(t: Transaction, e: OrderEvent) {
    exists d :: Closes(t.documents, d) && (forall o :: Closes(t.documents, o) ==> !Earlier(d, o)) &&
                e == OrderEvent(d.time, OrderClosed, d.id, d.versionId,
                                ClosedDetails(t.fiscalTotal, t.observedTotal, d.docType == ManagementDocument), d.lines)
  }

  predicate PrintsAs(t: DocumentType, e: EventType) {
    || (t == PreBill && e == PreBillPrinted) || (t == CommercialDocument && e == FiscalDocumentIssued)
    || (t == Payment && e == PaymentRecorded) || (t == ConformingCopy && e == CopyPrinted)
    || (t == Reprint && e == CopyPrinted) || (t == Cancellation && e == OrderVoided)
  }

  ghost predicate IsPrint(documents: seq<Document>, e: OrderEvent) {
    exists d :: d in documents && PrintsAs(d.docType, e.eventType) &&
                e == OrderEvent(d.time, e.eventType, d.id, d.versionId,
                                DocumentDetails(d.docType, d.externalCode, d.grossTotal), d.lines)
  }

  ghost predicate IsPayment(documents: seq<Document>, e: OrderEvent) {
    exists d :: d in documents && d.payments != [] && d.docType != Payment &&
                e == OrderEvent(d.time, PaymentRecorded, d.id, d.versionId, PaymentDetails(d.payments), d.lines)
  }

  lemma CreationExactly(documents: seq<Document>, e: OrderEvent)
    ensures e in Creation(documents) ==> IsCreation(documents, e)
    ensures (exists d :: d in documents && OpensOrder(d)) <==> |Creation(documents)| == 1
  {
    var opens := (d: Document) => IsSource(d.docType) && d.docType != OrderChange;
    var openings := Filter(documents, opens);
    FilterMembers(documents, opens);
    assert forall d :: d in openings <==> d in documents && OpensOrder(d);
    if openings != [] {
      FirstIsEarliest(openings);
      assert openings[0] in openings;
    }
  }

  lemma ClosingExactly(t: Transaction, e: OrderEvent)
    ensures e in Closing(t) ==> IsClosing(t, e)
    ensures (exists d :: Closes(t.documents, d)) <==> |Closing(t)| == 1
  {
    var closures := FinalClosures(t.documents);
    ClosuresMembers(t.documents);
    if closures != [] {
      LatestIsLatest(closures);
      assert closures[0] in closures;
    }
  }

  lemma DocumentEventsExactly(d: Document, e: OrderEvent)
    ensures e in DocumentEvents(d) <==> IsPrint([d], e) || IsPayment([d], e)
  {
    assert d in [d];
  }

  lemma MorePrints(documents: seq<Document>, e: OrderEvent)
    requires documents != []
    ensures var n := |documents| - 1;
            && (IsPrint(documents, e) <==> IsPrint(documents[..n], e) || IsPrint([documents[n]], e))
            && (IsPayment(documents, e) <==> IsPayment(documents[..n], e) || IsPayment([documents[n]], e))
  {
    var n := |documents| - 1;
    assert documents == documents[..n] + [documents[n]];
    assert forall d :: d in documents <==> d in documents[..n] || d in [documents[n]];
  }

  /** One event per printed document, of the type its document type demands, and one per list of payments. */
  lemma {:induction false} PrintedExactly(documents: seq<Document>, e: OrderEvent)
    ensures e in Printed(documents) <==> IsPrint(documents, e) || IsPayment(documents, e)
    decreases |documents|
  {
    if documents != [] {
      var n := |documents| - 1;
      PrintedExactly(documents[..n], e);
      DocumentEventsExactly(documents[n], e);
      MorePrints(documents, e);
    }
  }

  // Changes.

  /** One side of a recorded change, without its description. */
  predicate SameSide(recorded: Option<Entry>, side: Option<Entry>) {
    match (recorded, side)
    case (None, None) => true
    case (Some(r), Some(e)) =>
      && r.quantity == e.quantity && r.unitPrice == e.unitPrice && r.discount == e.discount
      && r.total == e.total && r.source == e.source
    case _ => false
  }

  predicate NamesChange(c: LineChange, e: EventType) {
    match c.changeType
    case Added => e == ItemAdded
    case Removed => e == ItemRemoved
    case QuantityChanged => e == QuantityChangedEvent
    case PriceChanged => e == PriceChangedEvent
    case DiscountChanged =>
      var left := if c.after.Some? && c.after.value.discount.Some? then c.after.value.discount.value else 0.0;
      e == if left > 0.0 then DiscountApplied else DiscountRemoved
    case Unchanged => false
  }

  /** The description after the change, or else the one before it. */
  function ShownDescription(c: LineChange): Option<string> {
    match (c.before, c.after)
    case (_, Some(e)) => e.description
    case (Some(e), None) => e.description
    case (None, None) => None
  }

  /** The event records the change under its description, with both sides in their places. */
  predicate Records(e: OrderEvent, c: LineChange) {
    && e.details.ChangeDetails? && NamesChange(c, e.eventType)
    && e.details.change.itemKey == c.itemKey && e.details.change.changeType == c.changeType
    && e.details.change.description == ShownDescription(c)
    && SameSide(e.details.change.before, c.before) && SameSide(e.details.change.after, c.after)
  }

  /** The event belongs to the document that caused the change and carries the lines after it. */
  predicate BelongsTo(e: OrderEvent, cause: Document, after: seq<DocumentLine>) {
    e.time == cause.time && e.documentId == cause.id && e.versionId == cause.versionId && e.lines == after
  }

  lemma NewEventRecords(c: LineChange, cause: Document, after: seq<DocumentLine>)
    requires c.changeType != Unchanged
    ensures ChangeEvent(c).Some?
    ensures var e := EventFor(cause, ChangeEvent(c).value, ChangeDetails(Dump(c)), after);
            Records(e, c) && BelongsTo(e, cause, after)
  {
  }

  /** Some compared pair of the list has this change. */
  ghost predicate ChangedBy(comparisons: seq<Comparison>, e: OrderEvent) {
    exists c, i :: c in comparisons && IsChangeOf(c, i, e)
  }

  ghost predicate IsChangeOf(c: Comparison, i: nat, e: OrderEvent) {
    && i < |Diff(c.before, c.after)| && Diff(c.before, c.after)[i].changeType != Unchanged
    && Records(e, Diff(c.before, c.after)[i]) && BelongsTo(e, c.cause, c.after)
  }

  lemma {:induction false} AddedChangesSound(events: seq<OrderEvent>, changes: seq<LineChange>, c: Comparison,
                                             e: OrderEvent)
    requires e in AddChanges(events, changes, c) && e !in events
    ensures exists i :: 0 <= i < |changes| && changes[i].changeType != Unchanged && Records(e, changes[i]) &&
                        BelongsTo(e, c.cause, c.after)
    decreases |changes|
  {
    var n := |changes| - 1;
    if e in AddChanges(events, changes[..n], c) {
      AddedChangesSound(events, changes[..n], c, e);
      var i :| 0 <= i < n && changes[..n][i].changeType != Unchanged && Records(e, changes[..n][i]) &&
               BelongsTo(e, c.cause, c.after);
      assert changes[..n][i] == changes[i];
    } else {
      NewEventRecords(changes[n], c.cause, c.after);
    }
  }

  lemma {:induction false} ChangeEventsSound(comparisons: seq<Comparison>, e: OrderEvent)
    requires e in ChangeEvents(comparisons)
    ensures ChangedBy(comparisons, e)
    decreases |comparisons|
  {
    var n := |comparisons| - 1;
    var c := comparisons[n];
    if e in ChangeEvents(comparisons[..n]) {
      ChangeEventsSound(comparisons[..n], e);
      var d, i :| d in comparisons[..n] && IsChangeOf(d, i, e);
      assert d in comparisons;
    } else {
      AddedChangesSound(ChangeEvents(comparisons[..n]), Diff(c.before, c.after), c, e);
      var i :| 0 <= i < |Diff(c.before, c.after)| && Diff(c.before, c.after)[i].changeType != Unchanged &&
               Records(e, Diff(c.before, c.after)[i]) && BelongsTo(e, c.cause, c.after);
      assert c in comparisons && IsChangeOf(c, i, e);
    }
  }

  lemma {:induction false} AddedChangesComplete(events: seq<OrderEvent>, changes: seq<LineChange>, c: Comparison,
                                                d: ChangeDump)
    ensures Recorded(events, d) ==> Recorded(AddChanges(events, changes, c), d)
    ensures (exists i :: 0 <= i < |changes| && changes[i].changeType != Unchanged && Dump(changes[i]) == d) ==>
              Recorded(AddChanges(events, changes, c), d)
    decreases |changes|
  {
    if changes != [] {
      var n := |changes| - 1;
      var before := AddChanges(events, changes[..n], c);
      AddedChangesComplete(events, changes[..n], c, d);
      RecordedStays(before, AddChanges(events, changes, c), d);
      if i :| 0 <= i < |changes| && changes[i].changeType != Unchanged && Dump(changes[i]) == d {
        if i < n {
          assert changes[..n][i] == changes[i];
        } else {
          LastIsRecorded(events, changes, c);
        }
      }
    }
  }

  lemma RecordedStays(a: seq<OrderEvent>, b: seq<OrderEvent>, d: ChangeDump)
    requires a <= b
    ensures Recorded(a, d) ==> Recorded(b, d)
  {
    if i :| 0 <= i < |a| && a[i].details == ChangeDetails(d) {
      assert b[i] == a[i];
    }
  }

  lemma LastIsRecorded(events: seq<OrderEvent>, changes: seq<LineChange>, c: Comparison)
    requires changes != [] && changes[|changes| - 1].changeType != Unchanged
    ensures Recorded(AddChanges(events, changes, c), Dump(changes[|changes| - 1]))
  {
    var n := |changes| - 1;
    var before, now := AddChanges(events, changes[..n], c), AddChanges(events, changes, c);
    NewEventRecords(changes[n], c.cause, c.after);
    if !Recorded(before, Dump(changes[n])) {
      assert now[|now| - 1].details == ChangeDetails(Dump(changes[n]));
    }
  }

  ghost predicate HasDump(c: Comparison, d: ChangeDump) {
    exists i :: 0 <= i < |Diff(c.before, c.after)| && Diff(c.before, c.after)[i].changeType != Unchanged &&
                Dump(Diff(c.before, c.after)[i]) == d
  }

  lemma ComparisonRecorded(events: seq<OrderEvent>, c: Comparison, d: ChangeDump)
    ensures Recorded(events, d) || HasDump(c, d) ==> Recorded(AddChanges(events, Diff(c.before, c.after), c), d)
  {
    AddedChangesComplete(events, Diff(c.before, c.after), c, d);
  }

  ghost predicate RecordedAfter(comparisons: seq<Comparison>, n: nat, d: ChangeDump) {
    n <= |comparisons| && Recorded(ChangeEvents(comparisons[..n]), d)
  }

  lemma OneMoreComparison(comparisons: seq<Comparison>, n: nat)
    requires n < |comparisons|
    ensures var c := comparisons[n];
            ChangeEvents(comparisons[..n + 1]) ==
            AddChanges(ChangeEvents(comparisons[..n]), Diff(c.before, c.after), c)
  {
    assert comparisons[..n + 1][..n] == comparisons[..n];
  }

  lemma NextComparisonRecorded(comparisons: seq<Comparison>, n: nat, d: ChangeDump)
    requires n < |comparisons| && (RecordedAfter(comparisons, n, d) || HasDump(comparisons[n], d))
    ensures RecordedAfter(comparisons, n + 1, d)
  {
    ComparisonRecorded(ChangeEvents(comparisons[..n]), comparisons[n], d);
    OneMoreComparison(comparisons, n);
  }

  lemma {:induction false} StaysTrue(holds: nat -> bool, first: nat, last: nat)
    requires first <= last && holds(first) && forall n: nat :: first <= n < last && holds(n) ==> holds(n + 1)
    ensures holds(last)
    decreases last
  {
    if first != last {
      StaysTrue(holds, first, last - 1);
    }
  }

  /** A change that some comparison finds is recorded in the end. */
  lemma ChangeEventsComplete(comparisons: seq<Comparison>, k: nat, d: ChangeDump)
    requires k < |comparisons| && HasDump(comparisons[k], d)
    ensures Recorded(ChangeEvents(comparisons), d)
  {
    NextComparisonRecorded(comparisons, k, d);
    forall n: nat | k < n < |comparisons| && RecordedAfter(comparisons, n, d)
      ensures RecordedAfter(comparisons, n + 1, d)
    {
      NextComparisonRecorded(comparisons, n, d);
    }
    StaysTrue((n: nat) => RecordedAfter(comparisons, n, d), k + 1, |comparisons|);
    assert comparisons[..|comparisons|] == comparisons;
  }

  /** Two changes with one recorded form are recorded by the same events. */
  lemma SameDumpSameRecord(e: OrderEvent, c: LineChange, d: LineChange)
    requires Records(e, d) && e.details == ChangeDetails(Dump(c))
    ensures Records(e, c)
  {
  }
}
