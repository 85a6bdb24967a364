/**
 The pairwise score of the correlation engine: the protocol-specific links in their order
 of precedence, then the weighted criteria. Only the score is modelled, not the texts that
 explain it.
 */
module Scoring {
  import opened Options
  import opened Documents

  /** Engine settings: the accepting threshold and the time window, in microseconds. */
  datatype Settings = Settings(minimumScore: int, window: int)

  function Distance(a: Document, b: Document): (d: int)
    ensures d >= 0
  {
    if a.time <= b.time then b.time - a.time else a.time - b.time
  }

  predicate Compatible(a: Document, b: Document) {
    if a.docType == DeviceResponse || b.docType == DeviceResponse then false
    else if a.docType in {ConformingCopy, Reprint} || b.docType in {ConformingCopy, Reprint} then
      IsFiscal(a.docType) || IsFiscal(b.docType)
    else if IsFiscal(a.docType) && IsFiscal(b.docType) then false
    else
      || (IsSource(a.docType) && IsSource(b.docType))
      || (IsSource(a.docType) && IsFollowup(b.docType))
      || (IsSource(b.docType) && IsFollowup(a.docType))
  }

  datatype Namespace = Management | Commercial

  function ProgressiveNamespace(d: Document): Option<Namespace> {
    if d.docType in {PreBill, ManagementDocument} then Some(Management)
    else if d.docType in {CommercialDocument, Refund} then Some(Commercial)
    else None
  }

  /** Round half to even, for a non-negative quotient. */
  function RoundHalfEven(numerator: nat, denominator: nat): nat
    requires denominator > 0
  {
    var q, r := numerator / denominator, numerator % denominator;
    if 2 * r < denominator || (2 * r == denominator && q % 2 == 0) then q else q + 1
  }

  /** Twelve points for identical line keys, in proportion to the overlap of the two key sets. */
  function SimilarityPoints(a: Document, b: Document): nat {
    var x, y := LineKeys(a), LineKeys(b);
    if x == {} || y == {} then 0
    else
      assert x + y != {};
      RoundHalfEven(12 * |x * y|, |x + y|)
  }

  function Points(matched: bool, weight: nat): nat {
    if matched then weight else 0
  }

  function TimePoints(a: Document, b: Document, window: int): nat {
    if Distance(a, b) <= 120 * SECOND then 12
    else if Distance(a, b) <= 900 * SECOND then 8
    else if Distance(a, b) <= window then 4
    else 0
  }

  function AmountPoints(a: Document, b: Document): nat {
    if Matches(Total(a), Total(b)) then 8
    else if Total(a).Some? && Total(b).Some? && Total(a).value >= 0 && Total(b).value >= 0 then 3
    else 0
  }

  /** Points for equal printed codes; the transport session is recorded but carries no weight. */
  function CodePoints(a: Document, b: Document): nat {
    Points(Matches(a.orderCode, b.orderCode), 35)
    + Points(Matches(ProgressiveNamespace(a), ProgressiveNamespace(b)) && Matches(a.externalCode, b.externalCode), 15)
    + Points(Matches(a.tableCode, b.tableCode), 12)
    + Points(Matches(a.operatorCode, b.operatorCode), 5)
    + Points(Matches(a.terminalCode, b.terminalCode), 4)
    + Points(Matches(a.sessionCode, b.sessionCode), 0)
  }

  predicate SharesReference(a: Document, b: Document) {
    References(a) * References(b) != {}
  }

  function ContextPoints(a: Document, b: Document, window: int): nat {
    Points(SharesReference(a, b), 20)
    + TimePoints(a, b, window)
    + Points(a.businessDate == b.businessDate, 3)
    + AmountPoints(a, b)
    + SimilarityPoints(a, b)
    + Points(Compatible(a, b), 8)
    + Points(a.deviceId == b.deviceId, 2)
  }

  /** The weighted criteria. */
  function WeightedScore(a: Document, b: Document, s: Settings): (score: nat)
    ensures score <= 100
  {
    if !Compatible(a, b) || Distance(a, b) > s.window then 0
    else
      var sum := CodePoints(a, b) + ContextPoints(a, b, s.window);
      if sum > 100 then 100 else sum
  }

  // The protocol-specific links; each is absent when its rule does not apply.

  function DeviceResponseLink(a: Document, b: Document, s: Settings): Option<nat> {
    if a.docType != DeviceResponse && b.docType != DeviceResponse then None
    else if Distance(a, b) > s.window then Some(0)
    else if a.jobId == "" || a.jobId != b.jobId then Some(0)
    else Some(90)
  }

  function CommercialReferenceLink(a: Document, b: Document, s: Settings): Option<nat> {
    var (fiscal, referring) := if a.docType == CommercialDocument then (a, b) else (b, a);
    if fiscal.docType != CommercialDocument then None
    else if referring.docType !in {ManagementDocument, ConformingCopy, Reprint} then None
    else
      var exact := Matches(referring.commercialReference, fiscal.externalCode);
      var suffix := referring.commercialReference.Some?
                    && Matches(referring.commercialReferenceCounter, fiscal.externalSuffixCounter)
                    && fiscal.suffixConfirmed;
      if !exact && !suffix then None
      else if Distance(a, b) > s.window then None
      else if suffix then
        if Matches(referring.tableCode, fiscal.tableCode) && SharesItems(referring, fiscal)
           && Distance(a, b) <= TABLE_SALE_WINDOW
        then Some(100) else None
      else Some(95)
  }

  function TableSaleLink(a: Document, b: Document): Option<nat> {
    var (source, fiscal) := if IsPrebillSource(a) then (a, b) else (b, a);
    if IsPrebillSource(source) && fiscal.docType == CommercialDocument
       && Matches(source.tableCode, fiscal.tableCode)
       && 0 <= fiscal.time - source.time <= TABLE_SALE_WINDOW
       && SharesItems(source, fiscal)
    then Some(100) else None
  }

  function KitchenBaselineLink(a: Document, b: Document): Option<nat> {
    var (kitchen, management) := if a.docType == KitchenOrder then (a, b) else (b, a);
    if kitchen.docType == KitchenOrder && management.docType == ManagementDocument
       && IsPrebillSource(management)
       && Matches(kitchen.tableCode, management.tableCode)
       && SharesItems(kitchen, management)
       && 0 <= management.time - kitchen.time <= KITCHEN_BASELINE_WINDOW
    then Some(100) else None
  }

  function FiscalSiblingsLink(a: Document, b: Document, s: Settings): Option<nat> {
    if IsFiscalSibling(a.docType) && IsFiscalSibling(b.docType)
       && Distance(a, b) <= s.window
       && (SharesReference(a, b) || Matches(a.orderCode, b.orderCode))
    then Some(80) else None
  }

  function SameTableChangeLink(a: Document, b: Document): Option<nat> {
    var (kitchen, change) := if a.docType == KitchenOrder then (a, b) else (b, a);
    if kitchen.docType == KitchenOrder && change.docType == OrderChange
       && kitchen.deviceId == change.deviceId
       && Matches(kitchen.tableCode, change.tableCode)
       && SharesItems(kitchen, change)
       && 0 <= change.time - kitchen.time <= SAME_TABLE_CHANGE_WINDOW
    then Some(100) else None
  }

  function CrossDepartmentLink(a: Document, b: Document): Option<nat> {
    if a.docType == KitchenOrder && b.docType == KitchenOrder
       && a.deviceId != b.deviceId
       && Matches(a.tableCode, b.tableCode)
       && Distance(a, b) <= CROSS_DEPARTMENT_WINDOW
    then Some(85) else None
  }

  /** The first protocol-specific link that applies, else the weighted criteria. */
  function LinkScore(a: Document, b: Document, s: Settings): nat {
    if CommercialReferenceLink(a, b, s).Some? then CommercialReferenceLink(a, b, s).value
    else if TableSaleLink(a, b).Some? then TableSaleLink(a, b).value
    else if KitchenBaselineLink(a, b).Some? then KitchenBaselineLink(a, b).value
    else if FiscalSiblingsLink(a, b, s).Some? then FiscalSiblingsLink(a, b, s).value
    else if SameTableChangeLink(a, b).Some? then SameTableChangeLink(a, b).value
    else if CrossDepartmentLink(a, b).Some? then CrossDepartmentLink(a, b).value
    else WeightedScore(a, b, s)
  }

  /** `score_candidate_pair`: a response is judged by its job alone, then conflicts reject, then links score. */
  function Score(a: Document, b: Document, s: Settings): nat {
    if DeviceResponseLink(a, b, s).Some? then DeviceResponseLink(a, b, s).value
    else if Conflict(a, b) then 0
    else LinkScore(a, b, s)
  }

  lemma SharesItemsSymmetric(a: Document, b: Document)
    ensures SharesItems(a, b) <==> SharesItems(b, a)
  {
    assert LineKeys(a) * LineKeys(b) == LineKeys(b) * LineKeys(a);
  }

  lemma SharesReferenceSymmetric(a: Document, b: Document)
    ensures SharesReference(a, b) <==> SharesReference(b, a)
  {
    assert References(a) * References(b) == References(b) * References(a);
  }

  lemma SimilaritySymmetric(a: Document, b: Document)
    ensures SimilarityPoints(a, b) == SimilarityPoints(b, a)
  {
    assert LineKeys(a) * LineKeys(b) == LineKeys(b) * LineKeys(a);
    assert LineKeys(a) + LineKeys(b) == LineKeys(b) + LineKeys(a);
  }

  lemma CompatibleSymmetric(a: Document, b: Document)
    ensures Compatible(a, b) <==> Compatible(b, a)
  {
  }

  lemma CodePointsSymmetric(a: Document, b: Document)
    ensures CodePoints(a, b) == CodePoints(b, a)
  {
  }

  lemma ContextPointsSymmetric(a: Document, b: Document, window: int)
    ensures ContextPoints(a, b, window) == ContextPoints(b, a, window)
  {
    SharesReferenceSymmetric(a, b);
    SimilaritySymmetric(a, b);
    CompatibleSymmetric(a, b);
    AmountPointsSymmetric(a, b);
    TimePointsSymmetric(a, b, window);
  }

  lemma AmountPointsSymmetric(a: Document, b: Document)
    ensures AmountPoints(a, b) == AmountPoints(b, a)
  {
  }

  lemma TimePointsSymmetric(a: Document, b: Document, window: int)
    ensures TimePoints(a, b, window) == TimePoints(b, a, window)
  {
  }

  lemma WeightedScoreSymmetric(a: Document, b: Document, s: Settings)
    ensures WeightedScore(a, b, s) == WeightedScore(b, a, s)
  {
    CodePointsSymmetric(a, b);
    ContextPointsSymmetric(a, b, s.window);
    CompatibleSymmetric(a, b);
  }

  lemma ReferenceLinksSymmetric(a: Document, b: Document, s: Settings)
    ensures CommercialReferenceLink(a, b, s) == CommercialReferenceLink(b, a, s)
    ensures FiscalSiblingsLink(a, b, s) == FiscalSiblingsLink(b, a, s)
  {
    SharesItemsSymmetric(a, b);
    SharesReferenceSymmetric(a, b);
  }

  lemma TableLinksSymmetric(a: Document, b: Document)
    ensures TableSaleLink(a, b) == TableSaleLink(b, a)
    ensures KitchenBaselineLink(a, b) == KitchenBaselineLink(b, a)
    ensures SameTableChangeLink(a, b) == SameTableChangeLink(b, a)
    ensures CrossDepartmentLink(a, b) == CrossDepartmentLink(b, a)
  {
    SharesItemsSymmetric(a, b);
  }

  /** The score of a pair does not depend on which document is named first. */
  lemma ScoreSymmetric(a: Document, b: Document, s: Settings)
    ensures Score(a, b, s) == Score(b, a, s)
  {
    ConflictSymmetric(a, b);
    LinkScoreSymmetric(a, b, s);
  }

  lemma LinkScoreSymmetric(a: Document, b: Document, s: Settings)
    ensures LinkScore(a, b, s) == LinkScore(b, a, s)
  {
    ReferenceLinksSymmetric(a, b, s);
    TableLinksSymmetric(a, b);
    WeightedScoreSymmetric(a, b, s);
  }

  /** Every score lies between 0 and 100. */
  lemma ScoreAtMostHundred(a: Document, b: Document, s: Settings)
    ensures Score(a, b, s) <= 100
  {
    assert LinkScore(a, b, s) <= 100;
  }

  /**
   A positive score is evidence of compatibility: the pair lies inside the engine's window or
   the fixed sale window, and outside exact duplex responses it has no conflicting identity,
   no closed episode between its members, and types that can belong to one sale.
   */
  lemma PositiveScoreMeaning(a: Document, b: Document, s: Settings)
    requires Score(a, b, s) > 0
    ensures Distance(a, b) <= s.window || Distance(a, b) <= TABLE_SALE_WINDOW
    ensures if a.docType == DeviceResponse || b.docType == DeviceResponse
            then a.jobId != "" && a.jobId == b.jobId
            else !Conflict(a, b) && (Compatible(a, b) || (IsFiscalSibling(a.docType) && IsFiscalSibling(b.docType)))
  {
    if DeviceResponseLink(a, b, s).None? {
      assert LinkScore(a, b, s) > 0;
    }
  }
}
