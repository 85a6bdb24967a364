/**
 The complete list of order events that a transaction calls for (`_desired_events`), and the
 pairwise distinctness of their identities.
 */
module DesiredEvents {
  import opened Options
  import opened Ordering
  import opened Lines
  import opened Documents
  import opened OrderTimeline

  datatype EventType =
    | CopyPrinted | DiscountApplied | DiscountRemoved | FiscalDocumentIssued | ItemAdded | ItemRemoved
    | OrderClosed | OrderCreated | OrderVoided | PaymentRecorded | PreBillPrinted
    | PriceChangedEvent | QuantityChangedEvent

  /** The alphabetical rank of the event type's name. */
  function Rank(t: EventType): int {
    match t
    case CopyPrinted => 0
    case DiscountApplied => 1
    case DiscountRemoved => 2
    case FiscalDocumentIssued => 3
    case ItemAdded => 4
    case ItemRemoved => 5
    case OrderClosed => 6
    case OrderCreated => 7
    case OrderVoided => 8
    case PaymentRecorded => 9
    case PreBillPrinted => 10
    case PriceChangedEvent => 11
    case QuantityChangedEvent => 12
  }

  /** The serialised form of a line change: one description, then both sides without theirs. */
  datatype ChangeDump = ChangeDump(itemKey: Key, changeType: ChangeType, description: Option<string>,
                                   before: Option<Entry>, after: Option<Entry>)

  function Undescribed(e: Option<Entry>): Option<Entry> {
    if e.Some? then Some(e.value.(description := None)) else None
  }

  function Dump(c: LineChange): ChangeDump {
    var description := if c.after.Some? then c.after.value.description
                       else if c.before.Some? then c.before.value.description else None;
    ChangeDump(c.itemKey, c.changeType, description, Undescribed(c.before), Undescribed(c.after))
  }

  datatype Details =
    | CreatedDetails(docType: DocumentType, total: Option<int>)
    | DocumentDetails(docType: DocumentType, externalCode: Option<string>, total: Option<int>)
    | PaymentDetails(payments: seq<int>)
    | ChangeDetails(change: ChangeDump)
    | ClosedDetails(fiscalTotal: int, observedTotal: int, room: bool)

  datatype OrderEvent = OrderEvent(time: int, eventType: EventType, documentId: nat, versionId: nat, details: Details,
                                   lines: seq<DocumentLine>)

  /** What `uuid5` and the detail digest identify an event of an order by. */
  type Identity = (nat, EventType, Details)

  function IdentityOf(e: OrderEvent): Identity {
    (e.versionId, e.eventType, e.details)
  }

  datatype Transaction = Transaction(documents: seq<Document>, fiscalTotal: int, observedTotal: int)

  // The parts of the list.

  function EventFor(d: Document, t: EventType, details: Details, lines: seq<DocumentLine>): OrderEvent {
    OrderEvent(d.time, t, d.id, d.versionId, details, lines)
  }

  function Filter(documents: seq<Document>, keep: Document -> bool): seq<Document> {
    if documents == [] then []
    else
      var n := |documents| - 1;
      Filter(documents[..n], keep) + (if keep(documents[n]) then [documents[n]] else [])
  }

  function Creation(documents: seq<Document>): (r: seq<OrderEvent>)
    ensures |r| <= 1 && (|r| == 1 ==> r[0].eventType == OrderCreated)
  {
    var opens := (d: Document) => IsSource(d.docType) && d.docType != OrderChange;
    var openings := SortBy(Filter(documents, opens), TimeOrder());
    if openings == [] then []
    else
      var first := openings[0];
      [EventFor(first, OrderCreated, CreatedDetails(first.docType, first.grossTotal), first.lines)]
  }

  function PrintedEvent(t: DocumentType): Option<EventType> {
    match t
    case PreBill => Some(PreBillPrinted)
    case CommercialDocument => Some(FiscalDocumentIssued)
    case Payment => Some(PaymentRecorded)
    case ConformingCopy => Some(CopyPrinted)
    case Reprint => Some(CopyPrinted)
    case Cancellation => Some(OrderVoided)
    case _ => None
  }

  function DocumentEvents(d: Document): seq<OrderEvent> {
    (if PrintedEvent(d.docType).Some?
     then
       var details := DocumentDetails(d.docType, d.externalCode, d.grossTotal);
       [EventFor(d, PrintedEvent(d.docType).value, details, d.lines)]
     else [])
    + (if d.payments != [] && d.docType != Payment
       then [EventFor(d, PaymentRecorded, PaymentDetails(d.payments), d.lines)] else [])
  }

  function Printed(documents: seq<Document>): seq<OrderEvent> {
    if documents == [] then []
    else
      var n := |documents| - 1;
      Printed(documents[..n]) + DocumentEvents(documents[n])
  }

  /** Complete sale documents, or else the management documents that settle. */
  function FinalClosures(documents: seq<Document>): seq<Document> {
    var fiscals := Filter(documents, (d: Document) => IsFiscal(d.docType) && d.complete);
    if fiscals != [] then fiscals
    else Filter(documents, (d: Document) => d.docType == ManagementDocument && Settles(d))
  }

  function AllLines(documents: seq<Document>): seq<DocumentLine> {
    if documents == [] then []
    else
      var n := |documents| - 1;
      AllLines(documents[..n]) + documents[n].lines
  }

  function Latest(documents: seq<Document>): Document
    requires documents != []
  {
    SortBy(documents, TimeOrder())[|documents| - 1]
  }

  function Consecutive(documents: seq<Document>): seq<Comparison> {
    if |documents| < 2 then []
    else
      var n := |documents| - 1;
      Consecutive(documents[..n]) + [Comparison(documents[n - 1].lines, documents[n].lines, documents[n])]
  }

  /** The last prebill against everything that settles. */
  function Settlement(documents: seq<Document>): seq<Comparison> {
    var prebills := Filter(documents, (d: Document) => d.docType == PreBill);
    var closures := FinalClosures(documents);
    if prebills == [] || closures == [] then []
    else [Comparison(prebills[|prebills| - 1].lines, AllLines(closures), Latest(closures))]
  }

  function Sources(documents: seq<Document>): seq<Document> {
    SortBy(Filter(documents, (d: Document) => IsSource(d.docType)), TimeOrder())
  }

  function Comparisons(documents: seq<Document>): seq<Comparison> {
    Boards(Sources(documents)).comparisons + Consecutive(OtherSources(Sources(documents))) + Settlement(documents)
  }

  function ChangeEvent(c: LineChange): Option<EventType> {
    match c.changeType
    case Added => Some(ItemAdded)
    case Removed => Some(ItemRemoved)
    case QuantityChanged => Some(QuantityChangedEvent)
    case PriceChanged => Some(PriceChangedEvent)
    case DiscountChanged =>
      if c.after.Some? && c.after.value.discount.Some? && c.after.value.discount.value > 0.0 then Some(DiscountApplied)
      else Some(DiscountRemoved)
    case Unchanged => None
  }

  predicate Recorded(events: seq<OrderEvent>, d: ChangeDump) {
    exists i :: 0 <= i < |events| && events[i].details == ChangeDetails(d)
  }

  /** The events of one comparison's changes, added to those collected before; a repeated change is left out. */
  function AddChanges(events: seq<OrderEvent>, changes: seq<LineChange>, c: Comparison): seq<OrderEvent> {
    if changes == [] then events
    else
      var n := |changes| - 1;
      var before := AddChanges(events, changes[..n], c);
      if ChangeEvent(changes[n]).None? || Recorded(before, Dump(changes[n])) then before
      else before + [EventFor(c.cause, ChangeEvent(changes[n]).value, ChangeDetails(Dump(changes[n])), c.after)]
  }

  ghost function ChangeEvents(comparisons: seq<Comparison>): seq<OrderEvent> {
    if comparisons == [] then []
    else
      var n := |comparisons| - 1;
      AddChanges(ChangeEvents(comparisons[..n]), Diff(comparisons[n].before, comparisons[n].after), comparisons[n])
  }

  function Closing(t: Transaction): (r: seq<OrderEvent>)
    ensures |r| <= 1 && (|r| == 1 ==> r[0].eventType == OrderClosed)
  {
    var closures := FinalClosures(t.documents);
    if closures == [] then []
    else
      var final := Latest(closures);
      var details := ClosedDetails(t.fiscalTotal, t.observedTotal, final.docType == ManagementDocument);
      [EventFor(final, OrderClosed, details, final.lines)]
  }

  function EventOrder(): OrderEvent -> seq<int> {
    (e: OrderEvent) => [e.time, Rank(e.eventType), e.documentId]
  }

  ghost function Unsorted(t: Transaction): seq<OrderEvent> {
    Creation(t.documents) + Printed(t.documents) + ChangeEvents(Comparisons(t.documents)) + Closing(t)
  }

  ghost function Desired(t: Transaction): seq<OrderEvent> {
    SortBy(Unsorted(t), EventOrder())
  }

  /** One comparison's changes, against the set of changes already seen. */
  method CollectComparison(start: seq<OrderEvent>, known: set<ChangeDump>, changes: seq<LineChange>, c: Comparison)
    returns (events: seq<OrderEvent>, seen: set<ChangeDump>)
    requires forall d :: d in known <==> Recorded(start, d)
    ensures events == AddChanges(start, changes, c)
    ensures forall d :: d in seen <==> Recorded(events, d)
  {
    events, seen := start, known;
    for k := 0 to |changes|
      invariant events == AddChanges(start, changes[..k], c)
      invariant forall d :: d in seen <==> Recorded(events, d)
    {
      assert changes[..k + 1][..k] == changes[..k];
      var event := ChangeEvent(changes[k]);
      var dump := Dump(changes[k]);
      if event.None? || dump in seen {
        continue;
      }
      RecordedStep(events, EventFor(c.cause, event.value, ChangeDetails(dump), c.after), dump);
      seen := seen + {dump};
      events := events + [EventFor(c.cause, event.value, ChangeDetails(dump), c.after)];
    }
    assert changes[..|changes|] == changes;
  }

  /** The change loop of the worker. */
  method CollectChanges(comparisons: seq<Comparison>) returns (events: seq<OrderEvent>)
    ensures events == ChangeEvents(comparisons)
  {
    events := [];
    var seen: set<ChangeDump> := {};
    for i := 0 to |comparisons|
      invariant events == ChangeEvents(comparisons[..i])
      invariant forall d :: d in seen <==> Recorded(events, d)
    {
      assert comparisons[..i + 1][..i] == comparisons[..i];
      var changes := CompareDocumentLines(comparisons[i].before, comparisons[i].after);
      events, seen := CollectComparison(events, seen, changes, comparisons[i]);
    }
    assert comparisons[..|comparisons|] == comparisons;
  }

  lemma RecordedStep(events: seq<OrderEvent>, e: OrderEvent, dump: ChangeDump)
    requires e.details == ChangeDetails(dump)
    ensures forall d :: Recorded(events + [e], d) <==> Recorded(events, d) || d == dump
  {
    forall d ensures Recorded(events + [e], d) <==> Recorded(events, d) || d == dump {
      assert (events + [e])[|events|] == e;
      if Recorded(events, d) {
        var i :| 0 <= i < |events| && events[i].details == ChangeDetails(d);
        assert (events + [e])[i] == events[i];
      }
    }
  }

  method DesiredEventsOf(t: Transaction) returns (events: seq<OrderEvent>)
    ensures events == Desired(t)
  {
    var state, others := TrackBoards(Sources(t.documents));
    var comparisons := state.comparisons + Consecutive(others) + Settlement(t.documents);
    var changes := CollectChanges(comparisons);
    events := SortBy(Creation(t.documents) + Printed(t.documents) + changes + Closing(t), EventOrder());
  }

  // Distinct identities.

  ghost predicate Distinct(events: seq<OrderEvent>) {
    forall i, j :: 0 <= i < j < |events| ==> IdentityOf(events[i]) != IdentityOf(events[j])
  }

  datatype Origin = FromCreation | FromPrint | FromChange | FromClosing

  /** Which part of the list an event type comes from. */
  function OriginOf(t: EventType): Origin {
    match t
    case OrderCreated => FromCreation
    case OrderClosed => FromClosing
    case PreBillPrinted => FromPrint
    case FiscalDocumentIssued => FromPrint
    case PaymentRecorded => FromPrint
    case CopyPrinted => FromPrint
    case OrderVoided => FromPrint
    case _ => FromChange
  }

  ghost predicate AllFrom(events: seq<OrderEvent>, origins: set<Origin>) {
    forall i :: 0 <= i < |events| ==> OriginOf(events[i].eventType) in origins
  }

  lemma JoinDistinct(a: seq<OrderEvent>, b: seq<OrderEvent>, p: set<Origin>, q: set<Origin>)
    requires Distinct(a) && Distinct(b) && AllFrom(a, p) && AllFrom(b, q) && p !! q
    ensures Distinct(a + b) && AllFrom(a + b, p + q)
  {
    var all := a + b;
    forall i, j | 0 <= i < j < |all| ensures IdentityOf(all[i]) != IdentityOf(all[j]) {
      if i < |a| && j >= |a| {
        assert all[i] == a[i] && all[j] == b[j - |a|];
        assert OriginOf(all[i].eventType) in p && OriginOf(all[j].eventType) in q;
      }
    }
  }

  ghost predicate DistinctVersions(documents: seq<Document>) {
    forall i, j :: 0 <= i < j < |documents| ==> documents[i].versionId != documents[j].versionId
  }

  ghost predicate OfDocuments(events: seq<OrderEvent>, documents: seq<Document>) {
    forall i :: 0 <= i < |events| ==> exists k :: 0 <= k < |documents| && events[i].versionId == documents[k].versionId
  }

  lemma DocumentEventsDistinct(d: Document)
    ensures Distinct(DocumentEvents(d)) && AllFrom(DocumentEvents(d), {FromPrint})
    ensures forall i :: 0 <= i < |DocumentEvents(d)| ==> DocumentEvents(d)[i].versionId == d.versionId
  {
  }

  lemma {:induction false} PrintedDistinct(documents: seq<Document>)
    requires DistinctVersions(documents)
    ensures Distinct(Printed(documents)) && AllFrom(Printed(documents), {FromPrint})
    ensures OfDocuments(Printed(documents), documents)
    decreases |documents|
  {
    if documents != [] {
      var n := |documents| - 1;
      PrintedDistinct(documents[..n]);
      DocumentEventsDistinct(documents[n]);
      AddDocument(Printed(documents[..n]), documents, n);
    }
  }

  lemma AddDocument(events: seq<OrderEvent>, documents: seq<Document>, n: nat)
    requires n == |documents| - 1 && DistinctVersions(documents)
    requires Distinct(events) && AllFrom(events, {FromPrint}) && OfDocuments(events, documents[..n])
    requires Distinct(DocumentEvents(documents[n])) && AllFrom(DocumentEvents(documents[n]), {FromPrint})
    requires forall i :: 0 <= i < |DocumentEvents(documents[n])| ==>
              DocumentEvents(documents[n])[i].versionId == documents[n].versionId
    ensures Distinct(events + DocumentEvents(documents[n]))
    ensures AllFrom(events + DocumentEvents(documents[n]), {FromPrint})
    ensures OfDocuments(events + DocumentEvents(documents[n]), documents)
  {
    var more := DocumentEvents(documents[n]);
    var all := events + more;
    forall i | 0 <= i < |events|
      ensures events[i].versionId != documents[n].versionId
      ensures exists k :: 0 <= k < |documents| && events[i].versionId == documents[k].versionId
    {
      var k :| 0 <= k < n && events[i].versionId == documents[..n][k].versionId;
      assert documents[..n][k] == documents[k];
    }
    forall i, j | 0 <= i < j < |all| ensures IdentityOf(all[i]) != IdentityOf(all[j]) {
      if i < |events| && j >= |events| {
        assert all[j] == more[j - |events|];
      }
    }
    forall i | 0 <= i < |all| ensures exists k :: 0 <= k < |documents| && all[i].versionId == documents[k].versionId {
      if i >= |events| {
        assert all[i] == more[i - |events|];
      }
    }
  }

  ghost predicate ChangesOnly(events: seq<OrderEvent>) {
    && AllFrom(events, {FromChange})
    && (forall i :: 0 <= i < |events| ==> events[i].details.ChangeDetails?)
    && (forall i, j :: 0 <= i < j < |events| ==> events[i].details != events[j].details)
  }

  lemma {:induction false} AddChangesDistinct(events: seq<OrderEvent>, changes: seq<LineChange>, c: Comparison)
    requires ChangesOnly(events)
    ensures ChangesOnly(AddChanges(events, changes, c))
    decreases |changes|
  {
    if changes != [] {
      AddChangesDistinct(events, changes[..|changes| - 1], c);
    }
  }

  lemma {:induction false} ChangeEventsDistinct(comparisons: seq<Comparison>)
    ensures ChangesOnly(ChangeEvents(comparisons))
    decreases |comparisons|
  {
    if comparisons != [] {
      var n := |comparisons| - 1;
      ChangeEventsDistinct(comparisons[..n]);
      var c := comparisons[n];
      AddChangesDistinct(ChangeEvents(comparisons[..n]), Diff(c.before, c.after), c);
    }
  }

  lemma JoinFour(a: seq<OrderEvent>, b: seq<OrderEvent>, c: seq<OrderEvent>, d: seq<OrderEvent>)
    requires Distinct(a) && AllFrom(a, {FromCreation})
    requires Distinct(b) && AllFrom(b, {FromPrint})
    requires Distinct(c) && AllFrom(c, {FromChange})
    requires Distinct(d) && AllFrom(d, {FromClosing})
    ensures Distinct(a + b + c + d)
  {
    JoinDistinct(a, b, {FromCreation}, {FromPrint});
    JoinDistinct(a + b, c, {FromCreation} + {FromPrint}, {FromChange});
    JoinDistinct(a + b + c, d, {FromCreation} + {FromPrint} + {FromChange}, {FromClosing});
  }

  lemma AtMostOne(events: seq<OrderEvent>, t: EventType)
    requires |events| <= 1 && (|events| == 1 ==> events[0].eventType == t)
    ensures Distinct(events) && AllFrom(events, {OriginOf(t)})
  {
  }

  lemma CreationDistinct(documents: seq<Document>)
    ensures Distinct(Creation(documents)) && AllFrom(Creation(documents), {FromCreation})
  {
    AtMostOne(Creation(documents), OrderCreated);
  }

  lemma ClosingDistinct(t: Transaction)
    ensures Distinct(Closing(t)) && AllFrom(Closing(t), {FromClosing})
  {
    AtMostOne(Closing(t), OrderClosed);
  }

  lemma ChangesAreDistinct(events: seq<OrderEvent>)
    requires ChangesOnly(events)
    ensures Distinct(events) && AllFrom(events, {FromChange})
  {
  }

  lemma UnsortedDistinct(t: Transaction)
    requires DistinctVersions(t.documents)
    ensures Distinct(Unsorted(t))
  {
    CreationDistinct(t.documents);
    ClosingDistinct(t);
    PrintedDistinct(t.documents);
    ChangeEventsDistinct(Comparisons(t.documents));
    ChangesAreDistinct(ChangeEvents(Comparisons(t.documents)));
    JoinFour(Creation(t.documents), Printed(t.documents), ChangeEvents(Comparisons(t.documents)), Closing(t));
  }

  lemma DistinctUnderPermutation(a: seq<OrderEvent>, b: seq<OrderEvent>)
    requires multiset(a) == multiset(b) && Distinct(b)
    ensures Distinct(a)
  {
    assert NoDuplicates(b);
    SameMultisetSameElements(a, b);
    forall i, j | 0 <= i < j < |a| ensures IdentityOf(a[i]) != IdentityOf(a[j]) {
      assert a[i] in b && a[j] in b && a[i] != a[j];
      var k :| 0 <= k < |b| && b[k] == a[i];
      var l :| 0 <= l < |b| && b[l] == a[j];
    }
  }

  /** The desired events of a transaction have pairwise distinct identities. */
  lemma DesiredDistinct(t: Transaction)
    requires DistinctVersions(t.documents)
    ensures Distinct(Desired(t))
  {
    UnsortedDistinct(t);
    DistinctUnderPermutation(Desired(t), Unsorted(t));
  }
}
