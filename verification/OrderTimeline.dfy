/**
 The per-device, per-table chain of department tickets and order changes inside
 `_desired_events` of the correlation worker.
 */
module OrderTimeline {
  import opened Options
  import opened Lines
  import opened OrderChanges
  import opened Composition
  import opened Documents

  // The chain of department tickets and changes.

  type Board = (string, string)  // device and table

  function BoardOf(d: Document): Board {
    (d.deviceId, d.boardTable)
  }

  /** Lines before and after, and the document that caused the change. */
  datatype Comparison = Comparison(before: seq<DocumentLine>, after: seq<DocumentLine>, cause: Document)

  datatype BoardState = BoardState(lines: map<Board, seq<DocumentLine>>, comparisons: seq<Comparison>)

  function BoardStep(s: BoardState, d: Document): BoardState {
    if d.docType == KitchenOrder then
      if d.boardTable != "" then s.(lines := s.lines[BoardOf(d) := d.lines]) else s
    else if d.docType == OrderChange && d.boardTable != "" && BoardOf(d) in s.lines then
      var before := s.lines[BoardOf(d)];
      var after := Apply(before, d.lines);
      BoardState(s.lines[BoardOf(d) := after], s.comparisons + [Comparison(before, after, d)])
    else s
  }

  function Boards(documents: seq<Document>): BoardState {
    if documents == [] then BoardState(map[], [])
    else
      var n := |documents| - 1;
      BoardStep(Boards(documents[..n]), documents[n])
  }

  /** The worker's loop over the sources in time order; other sources are compared pairwise later. */
  method TrackBoards(documents: seq<Document>) returns (state: BoardState, others: seq<Document>)
    ensures state == Boards(documents)
    ensures others == OtherSources(documents)
  {
    var lines: map<Board, seq<DocumentLine>> := map[];
    var comparisons: seq<Comparison> := [];
    others := [];
    for i := 0 to |documents|
      invariant BoardState(lines, comparisons) == Boards(documents[..i])
      invariant others == OtherSources(documents[..i])
    {
      var d := documents[i];
      assert documents[..i + 1][..i] == documents[..i];
      if d.docType == KitchenOrder {
        if d.boardTable != "" {
          lines := lines[BoardOf(d) := d.lines];
        }
        continue;
      }
      if d.docType == OrderChange {
        if d.boardTable != "" && BoardOf(d) in lines {
          var before := lines[BoardOf(d)];
          var after := ApplyOrderChangeLines(before, d.lines);
          comparisons := comparisons + [Comparison(before, after, d)];
          lines := lines[BoardOf(d) := after];
        }
        continue;
      }
      others := others + [d];
    }
    assert documents[..|documents|] == documents;
    state := BoardState(lines, comparisons);
  }

  function OtherSources(documents: seq<Document>): seq<Document> {
    if documents == [] then []
    else
      var n := |documents| - 1;
      var rest := OtherSources(documents[..n]);
      if documents[n].docType == KitchenOrder || documents[n].docType == OrderChange then rest
      else rest + [documents[n]]
  }

  /** The last ticket of a board and all changes printed on the board since. */
  datatype Ledger = Ledger(base: seq<DocumentLine>, changes: seq<DocumentLine>, tickets: nat)

  function LedgerOf(documents: seq<Document>, b: Board): Option<Ledger> {
    if documents == [] then None
    else
      var n := |documents| - 1;
      var before := LedgerOf(documents[..n], b);
      var d := documents[n];
      if BoardOf(d) != b || d.boardTable == "" then before
      else if d.docType == KitchenOrder then Some(Ledger(d.lines, [], 0))
      else if d.docType == OrderChange && before.Some? then
        Some(Ledger(before.value.base, before.value.changes + d.lines, before.value.tickets + 1))
      else before
  }

  /** Every line of an order change is named; tickets may hold anonymous lines. */
  ghost predicate NamedChanges(documents: seq<Document>) {
    forall i :: 0 <= i < |documents| && documents[i].docType == OrderChange ==> AllNamed(documents[i].lines)
  }

  /**
   The chain of single applications equals one application of all changes since the last
   ticket: a board's lines are its ticket as printed, or the ticket with the concatenation of
   its changes applied.
   */
  lemma {:induction false} BoardIsOneFold(documents: seq<Document>, b: Board)
    requires NamedChanges(documents)
    ensures b in Boards(documents).lines <==> LedgerOf(documents, b).Some?
    ensures b in Boards(documents).lines ==>
              var l := LedgerOf(documents, b).value;
              Boards(documents).lines[b] == if l.tickets == 0 then l.base else Apply(l.base, l.changes)
    ensures LedgerOf(documents, b).Some? && LedgerOf(documents, b).value.tickets == 0 ==>
              LedgerOf(documents, b).value.changes == []
    decreases |documents|
  {
    if documents != [] {
      var n := |documents| - 1;
      BoardIsOneFold(documents[..n], b);
      var d, before := documents[n], LedgerOf(documents[..n], b);
      if BoardOf(d) == b && d.boardTable != "" && d.docType == OrderChange && before.Some? {
        var l := before.value;
        if l.tickets == 0 {
          assert l.changes + d.lines == d.lines;
        } else {
          ApplyComposes(l.base, l.changes, d.lines);
        }
      }
    }
  }
}
