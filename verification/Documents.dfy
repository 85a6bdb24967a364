/**
 The normalised documents that the correlation engine works on, and the predicates that
 decide which documents may share one sale episode. Codes and references are taken after
 normalisation, identifiers are numbers in the order of their texts, and times are
 microseconds.
 */
module Documents {
  import opened Options
  import opened Lines

  datatype DocumentType =
    | Order | OrderChange | KitchenOrder | PreBill | ManagementDocument | CommercialDocument
    | ShiftEndReport | Invoice | ConformingCopy | Cancellation | Refund | Reprint | Payment
    | DeviceResponse | Unknown

  datatype Document = Document(
    id: nat,
    versionId: nat,
    docType: DocumentType,
    time: int,           // document timestamp, else capture time
    businessDate: int,   // calendar date of that time
    deviceId: string,
    jobId: string,
    sessionCode: Option<string>,
    orderCode: Option<string>,
    tableCode: Option<string>,
    boardTable: string,  // table text, stripped and upper-cased; empty when absent
    operatorCode: Option<string>,
    terminalCode: Option<string>,
    externalCode: Option<string>,
    externalSuffixCounter: Option<string>,     // printed counter of the observed fiscal suffix
    suffixConfirmed: bool,                     // the suffix comes from a confirmed status sequence
    refersToCommercial: bool,                  // a commercial reference is present at all
    commercialReference: Option<string>,
    commercialReferenceCounter: Option<string>,
    plainReference: Option<string>,
    orderReference: Option<string>,
    documentReference: Option<string>,
    transactionReference: Option<string>,
    grossTotal: Option<int>,
    netTotal: Option<int>,
    complete: bool,
    economicClose: bool,
    roomCharge: bool,
    lines: seq<DocumentLine>,
    payments: seq<int>)

  const SECOND := 1_000_000
  const CROSS_DEPARTMENT_WINDOW := 30 * SECOND
  const KITCHEN_BASELINE_WINDOW := 30 * SECOND
  const SAME_TABLE_CHANGE_WINDOW := 300 * SECOND
  const TABLE_SALE_WINDOW := 300 * SECOND

  /** Documents are processed by time, then by identifier. */
  function TimeOrder(): Document -> seq<int> {
    (d: Document) => [d.time, d.id]
  }

  predicate IsSource(t: DocumentType) {
    t in {Order, OrderChange, KitchenOrder, PreBill, ManagementDocument}
  }

  predicate IsFiscal(t: DocumentType) {
    t == CommercialDocument
  }

  predicate IsFollowup(t: DocumentType) {
    t in {CommercialDocument, Refund, Payment, Cancellation}
  }

  predicate IsFiscalSibling(t: DocumentType) {
    t in {CommercialDocument, Refund, Payment}
  }

  function Total(d: Document): Option<int> {
    if d.grossTotal.Some? then d.grossTotal else d.netTotal
  }

  /** A management document that settles the sale. */
  predicate Settles(d: Document) {
    d.economicClose || d.roomCharge
  }

  /** A non-economic document: it is attached to one parent and never joins two episodes. */
  predicate IsAuxiliary(d: Document) {
    d.docType in {ConformingCopy, Reprint, DeviceResponse, Refund, ShiftEndReport, Invoice} ||
    (d.docType == ManagementDocument && d.refersToCommercial && !Settles(d))
  }

  predicate IsPrebillSource(d: Document) {
    d.docType == PreBill ||
    (d.docType == ManagementDocument && d.complete && Total(d).Some? && !d.refersToCommercial && !Settles(d))
  }

  function StrongReference(d: Document): Option<string> {
    if d.orderReference.Some? then d.orderReference else d.transactionReference
  }

  function Present(a: Option<string>): set<string> {
    if a.Some? then {a.value} else {}
  }

  function References(d: Document): set<string> {
    Present(d.plainReference) + Present(d.orderReference)
    + Present(d.documentReference) + Present(d.transactionReference)
  }

  function LineKeys(d: Document): set<Key> {
    Aggregate(d.lines).Keys
  }

  predicate SharesItems(a: Document, b: Document) {
    LineKeys(a) * LineKeys(b) != {}
  }

  // The two reasons why a pair of documents can never share an episode.

  predicate IdentityConflict(a: Document, b: Document) {
    Contradicts(a.orderCode, b.orderCode) ||
    Contradicts(a.tableCode, b.tableCode) ||
    Contradicts(StrongReference(a), StrongReference(b))
  }

  predicate ClosesEpisode(d: Document) {
    d.docType == CommercialDocument || (d.docType == ManagementDocument && Settles(d))
  }

  predicate StartsEpisode(d: Document) {
    d.docType in {Order, KitchenOrder, PreBill}
  }

  /** The earlier document by (time, id) closes an episode and the later one starts another. */
  predicate BoundaryConflict(a: Document, b: Document) {
    var (earlier, later) := if a.time < b.time || (a.time == b.time && a.id <= b.id) then (a, b) else (b, a);
    ClosesEpisode(earlier) && StartsEpisode(later) && later.time > earlier.time
  }

  predicate Conflict(a: Document, b: Document) {
    IdentityConflict(a, b) || BoundaryConflict(a, b)
  }

  lemma ConflictSymmetric(a: Document, b: Document)
    ensures Conflict(a, b) <==> Conflict(b, a)
  {
  }
}
