/**
 Which changes of an order are recorded (`_desired_events` of the correlation worker): the
 line lists that are compared, said of the documents, and the events of the whole list.
 */
module RecordedChanges {
  import opened Options
  import opened Ordering
  import opened Lines
  import opened OrderChanges
  import opened Documents
  import opened OrderTimeline
  import opened DesiredEvents
  import opened EventTheorems

  // The settlement: the last prebill against what was billed.

  /** The lines of the chosen documents, one after the other. */
  function LinesWhere(documents: seq<Document>, chosen: Document -> bool): seq<DocumentLine> {
    if documents == [] then []
    else
      var n := |documents| - 1;
      LinesWhere(documents[..n], chosen) + (if chosen(documents[n]) then documents[n].lines else [])
  }

  /** Everything on the complete receipts, or else on the management documents that settle. */
  ghost function BilledLines(documents: seq<Document>): seq<DocumentLine> {
    LinesWhere(documents, if HasReceipt(documents) then Receipt else RoomClosure)
  }

  ghost predicate LastPreBill(documents: seq<Document>, k: nat) {
    && k < |documents| && documents[k].docType == PreBill
    && forall l :: k < l < |documents| ==> documents[l].docType != PreBill
  }

  ghost predicate LastClosure(documents: seq<Document>, d: Document) {
    Closes(documents, d) && forall o :: Closes(documents, o) ==> !Earlier(d, o)
  }

  ghost predicate SettledPair(documents: seq<Document>, c: Comparison) {
    && (exists k: nat :: LastPreBill(documents, k) && c.before == documents[k].lines)
    && c.after == BilledLines(documents)
    && LastClosure(documents, c.cause)
  }

  lemma {:induction false} FilteredLines(documents: seq<Document>, keep: Document -> bool, chosen: Document -> bool)
    requires forall d :: keep(d) == chosen(d)
    ensures AllLines(Filter(documents, keep)) == LinesWhere(documents, chosen)
    decreases |documents|
  {
    if documents != [] {
      var n := |documents| - 1;
      FilteredLines(documents[..n], keep, chosen);
      var before, all := Filter(documents[..n], keep), Filter(documents, keep);
      if keep(documents[n]) {
        assert all == before + [documents[n]];
        assert all[..|all| - 1] == before;
        assert AllLines(all) == AllLines(before) + documents[n].lines;
      } else {
        assert all == before;
      }
    }
  }

  lemma ClosureLines(documents: seq<Document>)
    ensures AllLines(FinalClosures(documents)) == BilledLines(documents)
  {
    var receipts := (d: Document) => IsFiscal(d.docType) && d.complete;
    var rooms := (d: Document) => d.docType == ManagementDocument && Settles(d);
    FilterMembers(documents, receipts);
    var fiscals := Filter(documents, receipts);
    if fiscals != [] {
      assert fiscals[0] in fiscals;
    }
    FilteredLines(documents, receipts, Receipt);
    FilteredLines(documents, rooms, RoomClosure);
  }

  /** The last document that is kept. */
  ghost predicate LastKept(documents: seq<Document>, keep: Document -> bool, k: nat) {
    k < |documents| && keep(documents[k]) && forall l :: k < l < |documents| ==> !keep(documents[l])
  }

  lemma {:induction false} FilterLast(documents: seq<Document>, keep: Document -> bool) returns (k: nat)
    requires Filter(documents, keep) != []
    ensures LastKept(documents, keep, k)
    ensures var kept := Filter(documents, keep); kept[|kept| - 1] == documents[k]
    decreases |documents|
  {
    var n := |documents| - 1;
    if keep(documents[n]) {
      k := n;
    } else {
      k := FilterLast(documents[..n], keep);
      assert forall l :: k < l < n ==> documents[l] == documents[..n][l];
    }
  }

  lemma NoPreBill(documents: seq<Document>)
    requires Filter(documents, (d: Document) => d.docType == PreBill) == []
    ensures forall k: nat :: !LastPreBill(documents, k)
  {
    FilterMembers(documents, (d: Document) => d.docType == PreBill);
    forall k: nat ensures !LastPreBill(documents, k) {
      assert k < |documents| ==> documents[k] in documents;
    }
  }

  /** The pair is compared when there is a prebill and a closure, and only then. */
  lemma SettlementExactly(documents: seq<Document>)
    ensures forall c :: c in Settlement(documents) ==> SettledPair(documents, c)
    ensures (exists k: nat :: LastPreBill(documents, k)) && (exists d :: Closes(documents, d)) <==>
            |Settlement(documents)| == 1
  {
    var prebill := (d: Document) => d.docType == PreBill;
    var prebills, closures := Filter(documents, prebill), FinalClosures(documents);
    ClosuresMembers(documents);
    ClosureLines(documents);
    if prebills == [] {
      NoPreBill(documents);
    } else {
      var k := FilterLast(documents, prebill);
      assert LastPreBill(documents, k);
    }
    if closures != [] {
      LatestIsLatest(closures);
      assert closures[0] in closures;
    }
  }

  // Orders, prebills and management documents, each against the one before.

  predicate TakesTurn(d: Document) {
    d.docType == Order || d.docType == PreBill || d.docType == ManagementDocument
  }

  /** Two such documents without a third one between them. */
  ghost predicate Successive(documents: seq<Document>, a: Document, b: Document) {
    && a in documents && b in documents && TakesTurn(a) && TakesTurn(b) && Earlier(a, b)
    && forall o :: o in documents && TakesTurn(o) ==> !(Earlier(a, o) && Earlier(o, b))
  }

  ghost predicate SuccessivePair(documents: seq<Document>, c: Comparison) {
    exists a :: Successive(documents, a, c.cause) && c.before == a.lines && c.after == c.cause.lines
  }

  ghost predicate DistinctIds(documents: seq<Document>) {
    forall i, j :: 0 <= i < j < |documents| ==> documents[i].id != documents[j].id
  }

  ghost predicate InOrder(documents: seq<Document>) {
    forall i, j :: 0 <= i < j < |documents| ==> Earlier(documents[i], documents[j])
  }

  lemma {:induction false} FilterKeepsIds(documents: seq<Document>, keep: Document -> bool)
    requires DistinctIds(documents)
    ensures DistinctIds(Filter(documents, keep))
    decreases |documents|
  {
    if documents != [] {
      var n := |documents| - 1;
      FilterKeepsIds(documents[..n], keep);
      FilterMembers(documents[..n], keep);
      var kept := Filter(documents[..n], keep);
      forall i | 0 <= i < |kept| ensures kept[i].id != documents[n].id {
        assert kept[i] in documents[..n];
        var k :| 0 <= k < n && documents[..n][k] == kept[i];
      }
    }
  }

  lemma SortedInOrder(documents: seq<Document>)
    requires DistinctIds(documents)
    ensures InOrder(SortBy(documents, TimeOrder()))
  {
    var sorted := SortBy(documents, TimeOrder());
    SortByIsSorted(documents, TimeOrder());
    assert NoDuplicates(documents);
    SameMultisetSameElements(sorted, documents);
    forall i, j | 0 <= i < j < |sorted| ensures Earlier(sorted[i], sorted[j]) {
      var a, b := sorted[i], sorted[j];
      EarlierByKey(b, a);
      assert a in documents && b in documents && a != b;
      IdsTellApart(documents, a, b);
    }
  }

  lemma IdsTellApart(documents: seq<Document>, a: Document, b: Document)
    requires DistinctIds(documents) && a in documents && b in documents && a != b
    ensures a.id != b.id
  {
    var k :| 0 <= k < |documents| && documents[k] == a;
    var l :| 0 <= l < |documents| && documents[l] == b;
  }

  lemma {:induction false} OthersMembers(documents: seq<Document>)
    ensures forall d :: d in OtherSources(documents) <==>
                        d in documents && d.docType != KitchenOrder && d.docType != OrderChange
    decreases |documents|
  {
    if documents != [] {
      OthersMembers(documents[..|documents| - 1]);
    }
  }

  lemma {:induction false} OthersInOrder(documents: seq<Document>)
    requires InOrder(documents)
    ensures InOrder(OtherSources(documents))
    decreases |documents|
  {
    if documents != [] {
      var n := |documents| - 1;
      OthersInOrder(documents[..n]);
      OthersMembers(documents[..n]);
      var rest := OtherSources(documents[..n]);
      forall i | 0 <= i < |rest| ensures Earlier(rest[i], documents[n]) {
        assert rest[i] in documents[..n];
        var k :| 0 <= k < n && documents[..n][k] == rest[i];
      }
    }
  }

  lemma TurnsInOrder(documents: seq<Document>)
    requires DistinctIds(documents)
    ensures var turns := OtherSources(Sources(documents));
            InOrder(turns) && forall d :: d in turns <==> d in documents && TakesTurn(d)
  {
    var source := (d: Document) => IsSource(d.docType);
    var kept := Filter(documents, source);
    FilterMembers(documents, source);
    FilterKeepsIds(documents, source);
    SortedInOrder(kept);
    SortedMembers(kept, TimeOrder());
    OthersInOrder(SortBy(kept, TimeOrder()));
    OthersMembers(SortBy(kept, TimeOrder()));
  }

  ghost predicate Neighbours(documents: seq<Document>, c: Comparison) {
    exists k :: 1 <= k < |documents| && NeighboursAt(documents, c, k)
  }

  predicate NeighboursAt(documents: seq<Document>, c: Comparison, k: nat)
    requires 1 <= k < |documents|
  {
    c == Comparison(documents[k - 1].lines, documents[k].lines, documents[k])
  }

  lemma NeighboursOfLast(documents: seq<Document>, c: Comparison)
    requires |documents| >= 2
    ensures var n := |documents| - 1;
            Neighbours(documents, c) <==> Neighbours(documents[..n], c) || NeighboursAt(documents, c, n)
  {
    var n := |documents| - 1;
    if Neighbours(documents[..n], c) {
      var k :| 1 <= k < n && NeighboursAt(documents[..n], c, k);
      assert NeighboursAt(documents, c, k);
    }
    if k :| 1 <= k < n && NeighboursAt(documents, c, k) {
      assert NeighboursAt(documents[..n], c, k);
    }
  }

  lemma {:induction false} ConsecutiveMembers(documents: seq<Document>, c: Comparison)
    ensures c in Consecutive(documents) <==> Neighbours(documents, c)
    decreases |documents|
  {
    if |documents| >= 2 {
      ConsecutiveMembers(documents[..|documents| - 1], c);
      NeighboursOfLast(documents, c);
    }
  }

  /** In a strictly ordered list, the neighbours are the elements with nothing in between. */
  lemma NeighboursAreSuccessive(turns: seq<Document>, k: nat, o: Document)
    requires InOrder(turns) && 1 <= k < |turns| && o in turns
    ensures !(Earlier(turns[k - 1], o) && Earlier(o, turns[k]))
  {
    var l :| 0 <= l < |turns| && turns[l] == o;
    assert l < k - 1 ==> Earlier(turns[l], turns[k - 1]);
    assert l > k ==> Earlier(turns[k], turns[l]);
  }

  lemma SuccessiveAreNeighbours(turns: seq<Document>, a: Document, b: Document) returns (k: nat)
    requires InOrder(turns) && a in turns && b in turns && Earlier(a, b)
    requires forall o :: o in turns ==> !(Earlier(a, o) && Earlier(o, b))
    ensures 1 <= k < |turns| && turns[k - 1] == a && turns[k] == b
  {
    var i :| 0 <= i < |turns| && turns[i] == a;
    k :| 0 <= k < |turns| && turns[k] == b;
    assert k < i ==> Earlier(turns[k], turns[i]);
    assert i < k;
    var next := turns[i + 1];
    assert next in turns && Earlier(a, next);
    assert i + 1 < k ==> Earlier(next, b);
  }

  /** The worker's pairwise comparisons are those of successive documents. */
  lemma TurnsExactly(documents: seq<Document>, c: Comparison)
    requires DistinctIds(documents)
    ensures c in Consecutive(OtherSources(Sources(documents))) <==> SuccessivePair(documents, c)
  {
    var turns := OtherSources(Sources(documents));
    TurnsInOrder(documents);
    ConsecutiveMembers(turns, c);
    if Neighbours(turns, c) {
      var k :| 1 <= k < |turns| && NeighboursAt(turns, c, k);
      forall o | o in turns ensures !(Earlier(turns[k - 1], o) && Earlier(o, turns[k])) {
        NeighboursAreSuccessive(turns, k, o);
      }
      assert turns[k - 1] in turns && turns[k] in turns;
      assert Successive(documents, turns[k - 1], c.cause);
    }
    if SuccessivePair(documents, c) {
      var a :| Successive(documents, a, c.cause) && c.before == a.lines && c.after == c.cause.lines;
      var k := SuccessiveAreNeighbours(turns, a, c.cause);
      assert NeighboursAt(turns, c, k);
    }
  }

  // Order changes, against what their device and table showed.

  predicate StatesLines(d: Document) {
    TakesTurn(d) || d.docType == KitchenOrder || d.docType == OrderChange
  }

  /** The documents that state what was ordered, earliest first. */
  ghost predicate Chronicle(documents: seq<Document>, sources: seq<Document>) {
    InOrder(sources) && forall d :: d in sources <==> d in documents && StatesLines(d)
  }

  /** What a device and table show: their last ticket, with every later change applied in turn. */
  function Shown(sources: seq<Document>, device: string, table: string): Option<seq<DocumentLine>> {
    if sources == [] then None
    else
      var n := |sources| - 1;
      var d, before := sources[n], Shown(sources[..n], device, table);
      if d.deviceId != device || d.boardTable != table then before
      else if d.docType == KitchenOrder then Some(d.lines)
      else if d.docType == OrderChange && before.Some? then Some(Apply(before.value, d.lines))
      else before
  }

  ghost predicate ChangeAt(sources: seq<Document>, c: Comparison, i: nat) {
    && i < |sources| && c.cause == sources[i] && c.cause.docType == OrderChange && c.cause.boardTable != ""
    && Shown(sources[..i], c.cause.deviceId, c.cause.boardTable) == Some(c.before)
    && c.after == Apply(c.before, c.cause.lines)
  }

  ghost predicate ChangePair(documents: seq<Document>, c: Comparison) {
    exists sources, i :: Chronicle(documents, sources) && ChangeAt(sources, c, i)
  }

  lemma {:induction false} BoardsShow(sources: seq<Document>, b: Board)
    requires b.1 != ""
    ensures b in Boards(sources).lines <==> Shown(sources, b.0, b.1).Some?
    ensures b in Boards(sources).lines ==> Some(Boards(sources).lines[b]) == Shown(sources, b.0, b.1)
    decreases |sources|
  {
    if sources != [] {
      BoardsShow(sources[..|sources| - 1], b);
    }
  }

  ghost predicate SomeChangeAt(sources: seq<Document>, c: Comparison) {
    exists i: nat :: ChangeAt(sources, c, i)
  }

  lemma ChangeAtLast(sources: seq<Document>, c: Comparison)
    requires sources != []
    ensures var n := |sources| - 1;
            SomeChangeAt(sources, c) <==> SomeChangeAt(sources[..n], c) || ChangeAt(sources, c, n)
  {
    var n := |sources| - 1;
    if i: nat :| ChangeAt(sources[..n], c, i) {
      assert sources[..n][..i] == sources[..i];
      assert ChangeAt(sources, c, i);
    }
    if i: nat :| ChangeAt(sources, c, i) && i < n {
      assert sources[..n][..i] == sources[..i];
      assert ChangeAt(sources[..n], c, i);
    }
  }

  lemma NewComparison(sources: seq<Document>, c: Comparison)
    requires sources != []
    ensures var n := |sources| - 1;
            c in Boards(sources).comparisons <==> c in Boards(sources[..n]).comparisons || ChangeAt(sources, c, n)
  {
    var n := |sources| - 1;
    var d := sources[n];
    if d.boardTable != "" {
      BoardsShow(sources[..n], BoardOf(d));
    }
  }

  /** The comparisons of the boards are those of each change with what was shown before it. */
  lemma {:induction false} BoardComparisons(sources: seq<Document>, c: Comparison)
    ensures c in Boards(sources).comparisons <==> SomeChangeAt(sources, c)
    decreases |sources|
  {
    if sources != [] {
      BoardComparisons(sources[..|sources| - 1], c);
      NewComparison(sources, c);
      ChangeAtLast(sources, c);
    }
  }

  lemma SourcesAreChronicle(documents: seq<Document>)
    requires DistinctIds(documents)
    ensures Chronicle(documents, Sources(documents))
  {
    var source := (d: Document) => IsSource(d.docType);
    FilterMembers(documents, source);
    FilterKeepsIds(documents, source);
    SortedInOrder(Filter(documents, source));
    SortedMembers(Filter(documents, source), TimeOrder());
  }

  lemma InOrderIsSorted(s: seq<Document>)
    requires InOrder(s)
    ensures SortedBy(s, TimeOrder()) && NoDuplicates(s) && InjectiveOn(multiset(s), TimeOrder())
  {
    forall i, j | 0 <= i < j < |s| ensures !LexLess(TimeOrder()(s[j]), TimeOrder()(s[i])) {
      EarlierByKey(s[j], s[i]);
      assert Earlier(s[i], s[j]);
    }
    forall a, b | a in multiset(s) && b in multiset(s) && TimeOrder()(a) == TimeOrder()(b) ensures a == b {
      var i :| 0 <= i < |s| && s[i] == a;
      var j :| 0 <= j < |s| && s[j] == b;
      assert TimeOrder()(a) == [a.time, a.id] && TimeOrder()(b) == [b.time, b.id];
      assert i < j ==> Earlier(a, b);
      assert j < i ==> Earlier(b, a);
    }
  }

  lemma ChronicleIsUnique(documents: seq<Document>, a: seq<Document>, b: seq<Document>)
    requires Chronicle(documents, a) && Chronicle(documents, b)
    ensures a == b
  {
    InOrderIsSorted(a);
    InOrderIsSorted(b);
    SameElementsSameMultiset(a, b);
    SortedIsUnique(a, b, TimeOrder());
  }

  lemma ChangesExactly(documents: seq<Document>, c: Comparison)
    requires DistinctIds(documents)
    ensures c in Boards(Sources(documents)).comparisons <==> ChangePair(documents, c)
  {
    SourcesAreChronicle(documents);
    BoardComparisons(Sources(documents), c);
    if ChangePair(documents, c) {
      var sources, i :| Chronicle(documents, sources) && ChangeAt(sources, c, i);
      ChronicleIsUnique(documents, sources, Sources(documents));
    }
  }

  // All pairs.

  /** The three kinds of line lists that are compared. */
  ghost predicate Compared(documents: seq<Document>, c: Comparison) {
    ChangePair(documents, c) || SuccessivePair(documents, c) || SettledPair(documents, c)
  }

  lemma LastClosureIsUnique(documents: seq<Document>, a: Document, b: Document)
    requires DistinctIds(documents) && LastClosure(documents, a) && LastClosure(documents, b)
    ensures a == b
  {
    if a != b {
      IdsTellApart(documents, a, b);
    }
  }

  lemma SettledPairIsCompared(documents: seq<Document>, c: Comparison)
    requires DistinctIds(documents)
    ensures c in Settlement(documents) <==> SettledPair(documents, c)
  {
    SettlementExactly(documents);
    if SettledPair(documents, c) {
      var only := Settlement(documents)[0];
      assert only in Settlement(documents);
      LastClosureIsUnique(documents, only.cause, c.cause);
    }
  }

  lemma ComparisonsExactly(documents: seq<Document>, c: Comparison)
    requires DistinctIds(documents)
    ensures c in Comparisons(documents) <==> Compared(documents, c)
  {
    ChangesExactly(documents, c);
    TurnsExactly(documents, c);
    SettledPairIsCompared(documents, c);
  }

  // The whole list.

  lemma DesiredMembers(t: Transaction, e: OrderEvent)
    ensures e in Desired(t) <==> e in Creation(t.documents) || e in Printed(t.documents) ||
                                 e in ChangeEvents(Comparisons(t.documents)) || e in Closing(t)
  {
    SortedMembers(Unsorted(t), EventOrder());
  }

  predicate RightType(was: Option<Entry>, now: Option<Entry>, change: ChangeType) {
    match (was, now)
    case (None, Some(_)) => change == Added
    case (Some(_), None) => change == Removed
    case (Some(w), Some(n)) =>
      if w.quantity != n.quantity then change == QuantityChanged
      else if w.unitPrice != n.unitPrice then change == PriceChanged
      else w.discount != n.discount && change == DiscountChanged
    case (None, None) => false
  }

  /** The event tells how one article differs between two line lists, each side in its place. */
  ghost predicate Tells(e: OrderEvent, before: seq<DocumentLine>, after: seq<DocumentLine>, key: Key) {
    exists was, now, change :: TellsSides(e, before, after, LineChange(key, change, was, now))
  }

  ghost predicate TellsSides(e: OrderEvent, before: seq<DocumentLine>, after: seq<DocumentLine>, c: LineChange) {
    && Describes(c.before, before, c.itemKey) && Describes(c.after, after, c.itemKey)
    && RightType(c.before, c.after, c.changeType)
    && Records(e, c)
  }

  lemma ReportedIsTold(e: OrderEvent, before: seq<DocumentLine>, after: seq<DocumentLine>, i: nat)
    requires i < |Diff(before, after)| && Diff(before, after)[i].changeType != Unchanged
    requires Records(e, Diff(before, after)[i])
    ensures Tells(e, before, after, Diff(before, after)[i].itemKey)
  {
    var c := Diff(before, after)[i];
    DiffMeaning(before, after, i);
    assert TellsSides(e, before, after, LineChange(c.itemKey, c.changeType, c.before, c.after));
  }

  ghost predicate DifferenceIn(e: OrderEvent, c: Comparison) {
    && e.details.ChangeDetails? && BelongsTo(e, c.cause, c.after)
    && Tells(e, c.before, c.after, e.details.change.itemKey)
  }

  /** A difference of a compared pair, on the document that caused it. */
  ghost predicate IsDifference(documents: seq<Document>, e: OrderEvent) {
    exists c :: Compared(documents, c) && DifferenceIn(e, c)
  }

  lemma ChangesAreDifferences(documents: seq<Document>, e: OrderEvent)
    requires DistinctIds(documents)
    ensures e in ChangeEvents(Comparisons(documents)) ==> IsDifference(documents, e)
  {
    if e in ChangeEvents(Comparisons(documents)) {
      ChangeEventsSound(Comparisons(documents), e);
      var c, i :| c in Comparisons(documents) && IsChangeOf(c, i, e);
      ComparisonsExactly(documents, c);
      ReportedIsTold(e, c.before, c.after, i);
      assert DifferenceIn(e, c);
    }
  }

  /** Nothing else is desired: every event is of one of these five kinds. */
  lemma DesiredKinds(t: Transaction, e: OrderEvent)
    requires DistinctIds(t.documents) && e in Desired(t)
    ensures || IsCreation(t.documents, e) || IsPrint(t.documents, e) || IsPayment(t.documents, e)
            || IsDifference(t.documents, e) || IsClosing(t, e)
  {
    DesiredMembers(t, e);
    CreationExactly(t.documents, e);
    PrintedExactly(t.documents, e);
    ChangesAreDifferences(t.documents, e);
    ClosingExactly(t, e);
  }

  /** Every recorded change is a difference between two line lists that are compared. */
  lemma ChangesAreCompared(t: Transaction, e: OrderEvent)
    requires DistinctIds(t.documents) && e in Desired(t) && e.details.ChangeDetails?
    ensures IsDifference(t.documents, e)
  {
    DesiredKinds(t, e);
  }

  /** The article differs: it is on one side only, or its quantity, price or discount is another. */
  ghost predicate Differs(before: seq<DocumentLine>, after: seq<DocumentLine>, key: Key) {
    exists was, now, change ::
      Describes(was, before, key) && Describes(now, after, key) && RightType(was, now, change)
  }

  lemma DescribedAlike(a: Option<Entry>, b: Option<Entry>, lines: seq<DocumentLine>, key: Key)
    requires Describes(a, lines, key) && Describes(b, lines, key)
    ensures a.Some? <==> b.Some?
    ensures a.Some? ==> a.value.quantity == b.value.quantity && a.value.unitPrice == b.value.unitPrice
    ensures a.Some? ==> a.value.discount == b.value.discount
  {
    if Occurs(lines, key) {
      var i :| 0 <= i < |lines| && LineKey(lines[i], i) == key;
      var first := FirstOccurrence(lines, key, i);
      var last := PreviousWith(lines, key, i);
    }
  }

  /** A key that differs has an entry of the diff that says so. */
  lemma DifferingEntry(before: seq<DocumentLine>, after: seq<DocumentLine>, key: Key) returns (i: nat)
    requires Differs(before, after, key)
    ensures i < |Diff(before, after)| && Diff(before, after)[i].itemKey == key
    ensures Diff(before, after)[i].changeType != Unchanged
  {
    var was, now, change :|
      Describes(was, before, key) && Describes(now, after, key) && RightType(was, now, change);
    DiffReportsEachKeyOnce(before, after);
    i :| 0 <= i < |Diff(before, after)| && Diff(before, after)[i].itemKey == key;
    DiffMeaning(before, after, i);
    DescribedAlike(was, Diff(before, after)[i].before, before, key);
    DescribedAlike(now, Diff(before, after)[i].after, after, key);
  }

  ghost predicate RecordsSome(e: OrderEvent) {
    exists c :: Records(e, c)
  }

  lemma ChangeEventsRecord(comparisons: seq<Comparison>)
    ensures forall e :: e in ChangeEvents(comparisons) ==> RecordsSome(e)
  {
    forall e | e in ChangeEvents(comparisons) ensures RecordsSome(e) {
      ChangeEventsSound(comparisons, e);
    }
  }

  lemma RecordedHasEvent(events: seq<OrderEvent>, c: LineChange)
    requires Recorded(events, Dump(c)) && forall e :: e in events ==> RecordsSome(e)
    ensures exists e :: e in events && Records(e, c)
  {
    var k :| 0 <= k < |events| && events[k].details == ChangeDetails(Dump(c));
    assert events[k] in events;
    var d :| Records(events[k], d);
    SameDumpSameRecord(events[k], c, d);
  }

  lemma FoundIsRecorded(comparisons: seq<Comparison>, c: Comparison, i: nat)
    requires c in comparisons && i < |Diff(c.before, c.after)| && Diff(c.before, c.after)[i].changeType != Unchanged
    ensures exists e :: e in ChangeEvents(comparisons) && Records(e, Diff(c.before, c.after)[i])
  {
    var k :| 0 <= k < |comparisons| && comparisons[k] == c;
    assert HasDump(c, Dump(Diff(c.before, c.after)[i]));
    ChangeEventsComplete(comparisons, k, Dump(Diff(c.before, c.after)[i]));
    ChangeEventsRecord(comparisons);
    RecordedHasEvent(ChangeEvents(comparisons), Diff(c.before, c.after)[i]);
  }

  /** Every article that differs between two compared line lists has an event that tells how. */
  lemma DifferencesAreRecorded(t: Transaction, c: Comparison, key: Key)
    requires DistinctIds(t.documents) && Compared(t.documents, c) && Differs(c.before, c.after, key)
    ensures exists e :: e in Desired(t) && Tells(e, c.before, c.after, key)
  {
    ComparisonsExactly(t.documents, c);
    var i := DifferingEntry(c.before, c.after, key);
    FoundIsRecorded(Comparisons(t.documents), c, i);
    var e :| e in ChangeEvents(Comparisons(t.documents)) && Records(e, Diff(c.before, c.after)[i]);
    ReportedIsTold(e, c.before, c.after, i);
    DesiredMembers(t, e);
  }

  /** What was settled: every article billed otherwise than on the last prebill has an event. */
  lemma SettlementIsRecorded(t: Transaction, k: nat, key: Key)
    requires DistinctIds(t.documents) && LastPreBill(t.documents, k) && (exists d :: Closes(t.documents, d))
    requires Differs(t.documents[k].lines, BilledLines(t.documents), key)
    ensures exists e :: e in Desired(t) && Tells(e, t.documents[k].lines, BilledLines(t.documents), key)
  {
    SettlementExactly(t.documents);
    var c := Settlement(t.documents)[0];
    assert c in Settlement(t.documents);
    var l: nat :| LastPreBill(t.documents, l) && c.before == t.documents[l].lines;
    assert l == k;
    DifferencesAreRecorded(t, c, key);
  }

  // Once.

  /** Exactly one event of the list satisfies the predicate. */
  ghost predicate ExactlyOne(events: seq<OrderEvent>, p: OrderEvent -> bool) {
    exists i :: OnlyAt(events, p, i)
  }

  ghost predicate OnlyAt(events: seq<OrderEvent>, p: OrderEvent -> bool, i: int) {
    0 <= i < |events| && forall j :: 0 <= j < |events| ==> (p(events[j]) <==> j == i)
  }

  lemma {:induction false} OccursOnce(events: seq<OrderEvent>, p: OrderEvent -> bool, i: nat)
    requires OnlyAt(events, p, i)
    ensures multiset(events)[events[i]] == 1
  {
    var x := events[i];
    assert events == events[..i] + [x] + events[i + 1..];
    assert forall j :: 0 <= j < i ==> events[..i][j] == events[j];
    assert x !in events[..i] && x !in events[i + 1..];
    assert multiset(events) == multiset(events[..i]) + multiset{x} + multiset(events[i + 1..]);
  }

  lemma SortedOnce(events: seq<OrderEvent>, p: OrderEvent -> bool)
    requires ExactlyOne(events, p)
    ensures ExactlyOne(SortBy(events, EventOrder()), p)
  {
    var i: int :| OnlyAt(events, p, i);
    var x, sorted := events[i], SortBy(events, EventOrder());
    OccursOnce(events, p, i);
    SortedMembers(events, EventOrder());
    assert x in sorted;
    var k :| 0 <= k < |sorted| && sorted[k] == x;
    forall j | 0 <= j < |sorted| ensures p(sorted[j]) <==> j == k {
      assert sorted[j] in sorted;
      var l :| 0 <= l < |events| && events[l] == sorted[j];
      if p(sorted[j]) && j != k {
        RepeatedTwice(sorted, if j < k then j else k, if j < k then k else j);
      }
    }
    assert OnlyAt(sorted, p, k);
  }

  function OfType(t: EventType): OrderEvent -> bool {
    (e: OrderEvent) => e.eventType == t
  }

  lemma OnlyInFirst(a: seq<OrderEvent>, rest: seq<OrderEvent>, p: OrderEvent -> bool)
    requires |a| == 1 && p(a[0]) && forall e :: e in rest ==> !p(e)
    ensures ExactlyOne(a + rest, p)
  {
    assert OnlyAt(a + rest, p, 0);
  }

  lemma OnlyInLast(rest: seq<OrderEvent>, a: seq<OrderEvent>, p: OrderEvent -> bool)
    requires |a| == 1 && p(a[0]) && forall e :: e in rest ==> !p(e)
    ensures ExactlyOne(rest + a, p)
  {
    assert OnlyAt(rest + a, p, |rest|);
  }

  /** Which part of the list an event of each part comes from. */
  lemma PrintOrigin(documents: seq<Document>, e: OrderEvent)
    requires e in Printed(documents)
    ensures OriginOf(e.eventType) == FromPrint && (e.details.DocumentDetails? || e.details.PaymentDetails?)
  {
    PrintedExactly(documents, e);
  }

  lemma ChangeOrigin(events: seq<OrderEvent>, e: OrderEvent)
    requires ChangesOnly(events) && e in events
    ensures OriginOf(e.eventType) == FromChange && e.details.ChangeDetails?
  {
    var k :| 0 <= k < |events| && events[k] == e;
    assert OriginOf(events[k].eventType) in {FromChange};
  }

  ghost predicate InPart(t: Transaction, e: OrderEvent, o: Origin) {
    match o
    case FromCreation => e in Creation(t.documents)
    case FromPrint => e in Printed(t.documents)
    case FromChange => e in ChangeEvents(Comparisons(t.documents))
    case FromClosing => e in Closing(t)
  }

  predicate DetailsFit(d: Details, o: Origin) {
    match d
    case CreatedDetails(_, _) => o == FromCreation
    case DocumentDetails(_, _, _) => o == FromPrint
    case PaymentDetails(_) => o == FromPrint
    case ChangeDetails(_) => o == FromChange
    case ClosedDetails(_, _, _) => o == FromClosing
  }

  lemma PartFits(t: Transaction, e: OrderEvent, o: Origin)
    requires InPart(t, e, o)
    ensures OriginOf(e.eventType) == o && DetailsFit(e.details, o)
  {
    if o == FromPrint {
      PrintOrigin(t.documents, e);
    } else if o == FromChange {
      ChangeEventsDistinct(Comparisons(t.documents));
      ChangeOrigin(ChangeEvents(Comparisons(t.documents)), e);
    }
  }

  lemma DesiredPart(t: Transaction, e: OrderEvent) returns (o: Origin)
    requires e in Desired(t)
    ensures InPart(t, e, o)
  {
    DesiredMembers(t, e);
    o := if e in Creation(t.documents) then FromCreation
         else if e in Printed(t.documents) then FromPrint
         else if e in Closing(t) then FromClosing
         else FromChange;
  }

  /** The type of an event, and equally its details, tell the part it comes from. */
  lemma EventOrigin(t: Transaction, e: OrderEvent)
    requires e in Desired(t)
    ensures InPart(t, e, OriginOf(e.eventType)) && DetailsFit(e.details, OriginOf(e.eventType))
  {
    var o := DesiredPart(t, e);
    PartFits(t, e, o);
  }

  ghost predicate NoneOf(events: seq<OrderEvent>, t: EventType) {
    forall e :: e in events ==> e.eventType != t
  }

  lemma OnceOfFirst(a: seq<OrderEvent>, b: seq<OrderEvent>, c: seq<OrderEvent>, d: seq<OrderEvent>, t: EventType)
    requires |a| == 1 && a[0].eventType == t && NoneOf(b, t) && NoneOf(c, t) && NoneOf(d, t)
    ensures ExactlyOne(SortBy(a + b + c + d, EventOrder()), OfType(t))
  {
    assert a + b + c + d == a + (b + c + d);
    OnlyInFirst(a, b + c + d, OfType(t));
    SortedOnce(a + b + c + d, OfType(t));
  }

  lemma OnceOfLast(a: seq<OrderEvent>, b: seq<OrderEvent>, c: seq<OrderEvent>, d: seq<OrderEvent>, t: EventType)
    requires |d| == 1 && d[0].eventType == t && NoneOf(a, t) && NoneOf(b, t) && NoneOf(c, t)
    ensures ExactlyOne(SortBy(a + b + c + d, EventOrder()), OfType(t))
  {
    OnlyInLast(a + b + c, d, OfType(t));
    SortedOnce(a + b + c + d, OfType(t));
  }

  lemma NoneInMiddle(t: Transaction)
    ensures NoneOf(Printed(t.documents), OrderCreated) && NoneOf(Printed(t.documents), OrderClosed)
    ensures NoneOf(ChangeEvents(Comparisons(t.documents)), OrderCreated)
    ensures NoneOf(ChangeEvents(Comparisons(t.documents)), OrderClosed)
  {
    forall e | e in Printed(t.documents) ensures OriginOf(e.eventType) == FromPrint {
      assert InPart(t, e, FromPrint);
      PartFits(t, e, FromPrint);
    }
    forall e | e in ChangeEvents(Comparisons(t.documents)) ensures OriginOf(e.eventType) == FromChange {
      assert InPart(t, e, FromChange);
      PartFits(t, e, FromChange);
    }
  }

  /** An order is created exactly once if some document opens it. */
  lemma CreatedOnce(t: Transaction)
    requires exists d :: d in t.documents && OpensOrder(d)
    ensures ExactlyOne(Desired(t), OfType(OrderCreated))
  {
    CreationMeans(t.documents);
    NoneInMiddle(t);
    OnceOfFirst(Creation(t.documents), Printed(t.documents), ChangeEvents(Comparisons(t.documents)), Closing(t),
                OrderCreated);
  }

  /** All events of the type are as the predicate says. */
  ghost predicate AllOf(events: seq<OrderEvent>, t: EventType, p: OrderEvent -> bool) {
    forall e :: e in events && e.eventType == t ==> p(e)
  }

  lemma SortedAll(a: seq<OrderEvent>, b: seq<OrderEvent>, c: seq<OrderEvent>, d: seq<OrderEvent>, t: EventType,
                  p: OrderEvent -> bool)
    requires AllOf(a, t, p) && NoneOf(b, t) && NoneOf(c, t) && AllOf(d, t, p)
    ensures AllOf(SortBy(a + b + c + d, EventOrder()), t, p)
  {
    SortedMembers(a + b + c + d, EventOrder());
  }

  /** It is created by its earliest such document, and not at all without one. */
  lemma CreatedByFirst(t: Transaction)
    ensures AllOf(Desired(t), OrderCreated, e => IsCreation(t.documents, e))
  {
    forall e | e in Creation(t.documents) ensures IsCreation(t.documents, e) {
      CreationExactly(t.documents, e);
    }
    NoneInMiddle(t);
    SortedAll(Creation(t.documents), Printed(t.documents), ChangeEvents(Comparisons(t.documents)), Closing(t),
              OrderCreated, e => IsCreation(t.documents, e));
  }

  /** An order is closed exactly once if some document closes it. */
  lemma ClosedOnce(t: Transaction)
    requires exists d :: Closes(t.documents, d)
    ensures ExactlyOne(Desired(t), OfType(OrderClosed))
  {
    ClosingMeans(t);
    NoneInMiddle(t);
    OnceOfLast(Creation(t.documents), Printed(t.documents), ChangeEvents(Comparisons(t.documents)), Closing(t),
               OrderClosed);
  }

  /** It is closed by the latest such document, and not at all without one. */
  lemma ClosedByLast(t: Transaction)
    ensures AllOf(Desired(t), OrderClosed, e => IsClosing(t, e))
  {
    forall e | e in Closing(t) ensures IsClosing(t, e) {
      ClosingExactly(t, e);
    }
    NoneInMiddle(t);
    SortedAll(Creation(t.documents), Printed(t.documents), ChangeEvents(Comparisons(t.documents)), Closing(t),
              OrderClosed, e => IsClosing(t, e));
  }

  lemma CreationMeans(documents: seq<Document>)
    ensures (exists d :: d in documents && OpensOrder(d)) <==> |Creation(documents)| == 1
  {
    CreationExactly(documents, OrderEvent(0, OrderCreated, 0, 0, PaymentDetails([]), []));
  }

  lemma ClosingMeans(t: Transaction)
    ensures (exists d :: Closes(t.documents, d)) <==> |Closing(t)| == 1
  {
    ClosingExactly(t, OrderEvent(0, OrderClosed, 0, 0, PaymentDetails([]), []));
  }

  predicate PrintOf(e: OrderEvent, d: Document) {
    e.versionId == d.versionId && e.details.DocumentDetails?
  }

  lemma PrintIsOwn(documents: seq<Document>, d: Document, e: OrderEvent)
    requires DistinctVersions(documents) && d in documents && e in Printed(documents) && PrintOf(e, d)
    ensures PrintsAs(d.docType, e.eventType) && e.details == DocumentDetails(d.docType, d.externalCode, d.grossTotal)
  {
    PrintedExactly(documents, e);
    var o :| o in documents && PrintsAs(o.docType, e.eventType) &&
             e == OrderEvent(o.time, e.eventType, o.id, o.versionId,
                             DocumentDetails(o.docType, o.externalCode, o.grossTotal), o.lines);
    var i :| 0 <= i < |documents| && documents[i] == o;
    var j :| 0 <= j < |documents| && documents[j] == d;
  }

  lemma SamePrintSamePlace(t: Transaction, d: Document, i: nat, j: nat)
    requires DistinctVersions(t.documents) && d in t.documents && i < |Desired(t)| && j < |Desired(t)|
    requires PrintOf(Desired(t)[i], d) && PrintOf(Desired(t)[j], d)
    ensures i == j
  {
    var a, b := Desired(t)[i], Desired(t)[j];
    EventOrigin(t, a);
    EventOrigin(t, b);
    PrintIsOwn(t.documents, d, a);
    PrintIsOwn(t.documents, d, b);
    DesiredDistinct(t);
    assert IdentityOf(a) == IdentityOf(b);
  }

  /** Every printed document has exactly one event, of the type its document type demands. */
  lemma PrintedOnce(t: Transaction, d: Document, printed: EventType)
    requires DistinctVersions(t.documents) && d in t.documents && PrintsAs(d.docType, printed)
    ensures ExactlyOne(Desired(t), e => PrintOf(e, d))
    ensures OrderEvent(d.time, printed, d.id, d.versionId, DocumentDetails(d.docType, d.externalCode, d.grossTotal),
                       d.lines) in Desired(t)
  {
    var details := DocumentDetails(d.docType, d.externalCode, d.grossTotal);
    var own, events := OrderEvent(d.time, printed, d.id, d.versionId, details, d.lines), Desired(t);
    PrintedExactly(t.documents, own);
    DesiredMembers(t, own);
    var k :| 0 <= k < |events| && events[k] == own;
    forall j | 0 <= j < |events| && PrintOf(events[j], d) ensures j == k {
      SamePrintSamePlace(t, d, j, k);
    }
    assert OnlyAt(events, e => PrintOf(e, d), k);
  }

  predicate PaymentOf(e: OrderEvent, d: Document) {
    e.versionId == d.versionId && e.details.PaymentDetails?
  }

  lemma PaymentIsOwn(documents: seq<Document>, d: Document, e: OrderEvent)
    requires DistinctVersions(documents) && d in documents && e in Printed(documents) && PaymentOf(e, d)
    ensures e.eventType == PaymentRecorded && e.details == PaymentDetails(d.payments)
  {
    PrintedExactly(documents, e);
    var o :| o in documents && o.payments != [] && o.docType != Payment &&
             e == OrderEvent(o.time, PaymentRecorded, o.id, o.versionId, PaymentDetails(o.payments), o.lines);
    var i :| 0 <= i < |documents| && documents[i] == o;
    var j :| 0 <= j < |documents| && documents[j] == d;
  }

  lemma SamePaymentSamePlace(t: Transaction, d: Document, i: nat, j: nat)
    requires DistinctVersions(t.documents) && d in t.documents && i < |Desired(t)| && j < |Desired(t)|
    requires PaymentOf(Desired(t)[i], d) && PaymentOf(Desired(t)[j], d)
    ensures i == j
  {
    var a, b := Desired(t)[i], Desired(t)[j];
    EventOrigin(t, a);
    EventOrigin(t, b);
    PaymentIsOwn(t.documents, d, a);
    PaymentIsOwn(t.documents, d, b);
    DesiredDistinct(t);
    assert IdentityOf(a) == IdentityOf(b);
  }

  /** A document with payments, unless it is a payment itself, has exactly one event that lists them. */
  lemma PaidOnce(t: Transaction, d: Document)
    requires DistinctVersions(t.documents) && d in t.documents && d.payments != [] && d.docType != Payment
    ensures ExactlyOne(Desired(t), e => PaymentOf(e, d))
    ensures OrderEvent(d.time, PaymentRecorded, d.id, d.versionId, PaymentDetails(d.payments), d.lines) in Desired(t)
  {
    var own := OrderEvent(d.time, PaymentRecorded, d.id, d.versionId, PaymentDetails(d.payments), d.lines);
    var events := Desired(t);
    PrintedExactly(t.documents, own);
    DesiredMembers(t, own);
    var k :| 0 <= k < |events| && events[k] == own;
    forall j | 0 <= j < |events| && PaymentOf(events[j], d) ensures j == k {
      SamePaymentSamePlace(t, d, j, k);
    }
    assert OnlyAt(events, e => PaymentOf(e, d), k);
  }

  // In order.

  /** By time, then by the name of the event type, then by document. */
  predicate ListedBefore(a: OrderEvent, b: OrderEvent) {
    || a.time < b.time
    || (a.time == b.time && Rank(a.eventType) < Rank(b.eventType))
    || (a.time == b.time && a.eventType == b.eventType && a.documentId <= b.documentId)
  }

  ghost predicate InListOrder(events: seq<OrderEvent>) {
    forall i, j :: 0 <= i < j < |events| ==> ListedBefore(events[i], events[j])
  }

  lemma SortedIsListed(events: seq<OrderEvent>)
    ensures InListOrder(SortBy(events, EventOrder()))
  {
    var r := SortBy(events, EventOrder());
    SortByIsSorted(events, EventOrder());
    forall i, j | 0 <= i < j < |r| ensures ListedBefore(r[i], r[j]) {
      LexOfThree(EventOrder()(r[j]), EventOrder()(r[i]));
    }
  }

  lemma DesiredInOrder(t: Transaction)
    ensures InListOrder(Desired(t))
  {
    SortedIsListed(Unsorted(t));
  }

  /** The names under which event types are stored. */
  function NameOf(t: EventType): string {
    match t
    case CopyPrinted => "COPY_PRINTED"
    case DiscountApplied => "DISCOUNT_" + "APPLIED"
    case DiscountRemoved => "DISCOUNT_" + "REMOVED"
    case FiscalDocumentIssued => "FISCAL_DOCUMENT_ISSUED"
    case ItemAdded => "ITEM_" + "ADDED"
    case ItemRemoved => "ITEM_" + "REMOVED"
    case OrderClosed => "ORDER_" + "CLOSED"
    case OrderCreated => "ORDER_" + "CREATED"
    case OrderVoided => "ORDER_" + "VOIDED"
    case PaymentRecorded => "P" + "AYMENT_RECORDED"
    case PreBillPrinted => "PR" + "E_BILL_PRINTED"
    case PriceChangedEvent => "PR" + "ICE_CHANGED"
    case QuantityChangedEvent => "QUANTITY_CHANGED"
  }

  predicate Alphabetical(a: string, b: string) {
    LexLess(CharCodes(a), CharCodes(b))
  }

  lemma {:induction false} CommonPrefix(p: string, a: string, b: string)
    ensures Alphabetical(p + a, p + b) <==> Alphabetical(a, b)
    decreases |p|
  {
    if p == [] {
      assert p + a == a && p + b == b;
    } else {
      CommonPrefix(p[1..], a, b);
      assert CharCodes(p + a)[1..] == CharCodes(p[1..] + a) && CharCodes(p + b)[1..] == CharCodes(p[1..] + b);
    }
  }

  lemma FirstLetter(a: string, b: string)
    requires a != "" && b != "" && a[0] != b[0]
    ensures Alphabetical(a, b) <==> a[0] < b[0]
  {
  }

  lemma PrefixThenLetter(p: string, a: string, b: string)
    requires a != "" && b != "" && a[0] < b[0]
    ensures Alphabetical(p + a, p + b)
  {
    FirstLetter(a, b);
    CommonPrefix(p, a, b);
  }

  lemma OrderNames()
    ensures Alphabetical("ORDER_" + "CLOSED", "ORDER_" + "CREATED")
  {
    PrefixThenLetter("C", "LOSED", "REATED");
    assert "C" + "LOSED" == "CLOSED" && "C" + "REATED" == "CREATED";
    CommonPrefix("ORDER_", "CLOSED", "CREATED");
  }

  lemma PaymentName(rest: string)
    ensures Alphabetical("P" + "AYMENT_RECORDED", "PR" + rest)
  {
    PrefixThenLetter("P", "AYMENT_RECORDED", "R" + rest);
    assert "P" + ("R" + rest) == "PR" + rest;
  }

  lemma SameInitial(a: EventType, b: EventType)
    requires Rank(a) < Rank(b) && NameOf(a)[0] == NameOf(b)[0]
    ensures Alphabetical(NameOf(a), NameOf(b))
  {
    match a
    case DiscountApplied => PrefixThenLetter("DISCOUNT_", "APPLIED", "REMOVED");
    case ItemAdded => PrefixThenLetter("ITEM_", "ADDED", "REMOVED");
    case OrderClosed => OrderNames(); PrefixThenLetter("ORDER_", "CLOSED", "VOIDED");
    case OrderCreated => PrefixThenLetter("ORDER_", "CREATED", "VOIDED");
    case PaymentRecorded => PaymentName("E_BILL_PRINTED"); PaymentName("ICE_CHANGED");
    case PreBillPrinted => PrefixThenLetter("PR", "E_BILL_PRINTED", "ICE_CHANGED");
    case _ =>
  }

  /** Events of one time are listed by the names of their types. */
  lemma RankIsAlphabetical(a: EventType, b: EventType)
    ensures Rank(a) < Rank(b) <==> Alphabetical(NameOf(a), NameOf(b))
  {
    if Rank(a) < Rank(b) {
      AlphabeticalByRank(a, b);
    } else if Rank(b) < Rank(a) {
      AlphabeticalByRank(b, a);
      if Alphabetical(NameOf(a), NameOf(b)) {
        LexTransitive(CharCodes(NameOf(a)), CharCodes(NameOf(b)), CharCodes(NameOf(a)));
        LexIrreflexive(CharCodes(NameOf(a)));
      }
    } else {
      assert a == b;
      LexIrreflexive(CharCodes(NameOf(a)));
    }
  }

  lemma AlphabeticalByRank(a: EventType, b: EventType)
    requires Rank(a) < Rank(b)
    ensures Alphabetical(NameOf(a), NameOf(b))
  {
    if NameOf(a)[0] == NameOf(b)[0] {
      SameInitial(a, b);
    } else {
      FirstLetter(NameOf(a), NameOf(b));
    }
  }
}
