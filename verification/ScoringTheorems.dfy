/**
 What the pairwise score is, read off the fields of the two documents: one statement per rule,
 in the order of precedence in which `score_candidate_pair` tries them, and the table of points
 for pairs that no rule applies to.
 */
module ScoringTheorems {
  import opened Options
  import opened Lines
  import opened Documents
  import opened Scoring

  // The conditions, on the fields of the documents.

  predicate Same<T(==)>(a: Option<T>, b: Option<T>) {
    a.Some? && b.Some? && a.value == b.value
  }

  predicate Differ<T(==)>(a: Option<T>, b: Option<T>) {
    a.Some? && b.Some? && a.value != b.value
  }

  /** Some line of the one and some line of the other have the same key. */
  ghost predicate CommonArticle(a: Document, b: Document) {
    exists k :: Occurs(a.lines, k) && Occurs(b.lines, k)
  }

  function SaleReference(d: Document): Option<string> {
    if d.orderReference.Some? then d.orderReference else d.transactionReference
  }

  predicate Settled(d: Document) {
    d.docType == CommercialDocument || (d.docType == ManagementDocument && (d.economicClose || d.roomCharge))
  }

  predicate Opens(d: Document) {
    d.docType == Order || d.docType == KitchenOrder || d.docType == PreBill
  }

  /** Two explicit identities differ, or the one settles a sale before the other opens one. */
  predicate Opposed(a: Document, b: Document) {
    || Differ(a.orderCode, b.orderCode) || Differ(a.tableCode, b.tableCode)
    || Differ(SaleReference(a), SaleReference(b))
    || (Settled(a) && Opens(b) && a.time < b.time)
    || (Settled(b) && Opens(a) && b.time < a.time)
  }

  predicate Response(a: Document, b: Document) {
    a.docType == DeviceResponse || b.docType == DeviceResponse
  }

  predicate Prebill(d: Document) {
    d.docType == PreBill ||
    (&& d.docType == ManagementDocument && d.complete && (d.grossTotal.Some? || d.netTotal.Some?)
     && !d.refersToCommercial && !d.economicClose && !d.roomCharge)
  }

  /** The document carries the reference in one of its four fields. */
  predicate Carries(d: Document, r: string) {
    d.plainReference == Some(r) || d.orderReference == Some(r)
    || d.documentReference == Some(r) || d.transactionReference == Some(r)
  }

  ghost predicate CommonReference(a: Document, b: Document) {
    exists r :: Carries(a, r) && Carries(b, r)
  }

  /** A copy or management document that names the receipt's printed code. */
  predicate NamesReceipt(f: Document, r: Document) {
    && f.docType == CommercialDocument
    && (r.docType == ManagementDocument || r.docType == ConformingCopy || r.docType == Reprint)
    && Same(r.commercialReference, f.externalCode)
  }

  /** One that names the counter of a confirmed fiscal suffix. */
  predicate NamesSuffix(f: Document, r: Document) {
    && f.docType == CommercialDocument
    && (r.docType == ManagementDocument || r.docType == ConformingCopy || r.docType == Reprint)
    && r.commercialReference.Some? && Same(r.commercialReferenceCounter, f.externalSuffixCounter) && f.suffixConfirmed
  }

  ghost predicate SuffixSale(f: Document, r: Document) {
    NamesSuffix(f, r) && Same(r.tableCode, f.tableCode) && CommonArticle(r, f) && Distance(r, f) <= 300 * 1_000_000
  }

  ghost predicate TableSale(p: Document, f: Document) {
    && Prebill(p) && f.docType == CommercialDocument && Same(p.tableCode, f.tableCode) && CommonArticle(p, f)
    && 0 <= f.time - p.time <= 300 * 1_000_000
  }

  ghost predicate TicketAndBaseline(k: Document, m: Document) {
    && k.docType == KitchenOrder && m.docType == ManagementDocument && Prebill(m)
    && Same(k.tableCode, m.tableCode) && CommonArticle(k, m) && 0 <= m.time - k.time <= 30 * 1_000_000
  }

  predicate SaleSide(d: Document) {
    d.docType == CommercialDocument || d.docType == Refund || d.docType == Payment
  }

  ghost predicate Siblings(a: Document, b: Document, s: Settings) {
    && SaleSide(a) && SaleSide(b) && Distance(a, b) <= s.window
    && (CommonReference(a, b) || Same(a.orderCode, b.orderCode))
  }

  ghost predicate TicketAndChange(k: Document, c: Document) {
    && k.docType == KitchenOrder && c.docType == OrderChange && k.deviceId == c.deviceId
    && Same(k.tableCode, c.tableCode) && CommonArticle(k, c) && 0 <= c.time - k.time <= 300 * 1_000_000
  }

  predicate Dispatch(a: Document, b: Document) {
    && a.docType == KitchenOrder && b.docType == KitchenOrder && a.deviceId != b.deviceId
    && Same(a.tableCode, b.tableCode) && Distance(a, b) <= 30 * 1_000_000
  }

  // They are what the engine tests.

  lemma ConflictIsOpposed(a: Document, b: Document)
    ensures Conflict(a, b) <==> Opposed(a, b)
  {
  }

  lemma SharesItemsIsCommonArticle(a: Document, b: Document)
    ensures SharesItems(a, b) <==> CommonArticle(a, b)
  {
    if k :| k in LineKeys(a) * LineKeys(b) {
      AggregateQuantity(a.lines, k);
      AggregateQuantity(b.lines, k);
    }
    if k :| Occurs(a.lines, k) && Occurs(b.lines, k) {
      AggregateQuantity(a.lines, k);
      AggregateQuantity(b.lines, k);
      assert k in LineKeys(a) * LineKeys(b);
    }
  }

  lemma SharesReferenceIsCommon(a: Document, b: Document)
    ensures SharesReference(a, b) <==> CommonReference(a, b)
  {
    forall r ensures r in References(a) <==> Carries(a, r) {
    }
    forall r ensures r in References(b) <==> Carries(b, r) {
    }
    if r :| Carries(a, r) && Carries(b, r) {
      assert r in References(a) * References(b);
    }
  }

  lemma ReferenceRule(f: Document, r: Document, s: Settings)
    requires f.docType == CommercialDocument
    ensures var link := CommercialReferenceLink(f, r, s);
            && (Distance(f, r) <= s.window && SuffixSale(f, r) ==> link == Some(100))
            && (Distance(f, r) <= s.window && NamesReceipt(f, r) && !NamesSuffix(f, r) ==> link == Some(95))
            && (link.Some? ==> Distance(f, r) <= s.window && (SuffixSale(f, r) || NamesReceipt(f, r)))
            && (link.Some? ==> link.value >= 95)
  {
    SharesItemsIsCommonArticle(r, f);
  }

  lemma TableSaleRule(p: Document, f: Document)
    ensures TableSale(p, f) ==> TableSaleLink(p, f) == Some(100)
    ensures TableSaleLink(p, f).Some? ==> TableSale(p, f) || TableSale(f, p)
  {
    SharesItemsIsCommonArticle(p, f);
    SharesItemsIsCommonArticle(f, p);
  }

  lemma BaselineRule(k: Document, m: Document)
    ensures TicketAndBaseline(k, m) ==> KitchenBaselineLink(k, m) == Some(100)
    ensures KitchenBaselineLink(k, m).Some? ==> TicketAndBaseline(k, m) || TicketAndBaseline(m, k)
  {
    SharesItemsIsCommonArticle(k, m);
    SharesItemsIsCommonArticle(m, k);
  }

  lemma SiblingRule(a: Document, b: Document, s: Settings)
    ensures FiscalSiblingsLink(a, b, s) == if Siblings(a, b, s) then Some(80) else None
  {
    SharesReferenceIsCommon(a, b);
  }

  lemma ChangeRule(k: Document, c: Document)
    ensures TicketAndChange(k, c) ==> SameTableChangeLink(k, c) == Some(100)
    ensures SameTableChangeLink(k, c).Some? ==> TicketAndChange(k, c) || TicketAndChange(c, k)
  {
    SharesItemsIsCommonArticle(k, c);
    SharesItemsIsCommonArticle(c, k);
  }

  lemma DispatchRule(a: Document, b: Document)
    ensures CrossDepartmentLink(a, b) == if Dispatch(a, b) then Some(85) else None
  {
  }

  // The score, rule by rule.

  /** A device response scores 90 with the documents of its own job in the window, and nothing otherwise. */
  lemma ResponseScore(a: Document, b: Document, s: Settings)
    requires Response(a, b)
    ensures Score(a, b, s) == if Distance(a, b) <= s.window && a.jobId != "" && a.jobId == b.jobId then 90 else 0
  {
  }

  lemma OpposedScoresNothing(a: Document, b: Document, s: Settings)
    requires !Response(a, b) && Opposed(a, b)
    ensures Score(a, b, s) == 0
  {
    ConflictIsOpposed(a, b);
  }

  lemma LinksDecide(a: Document, b: Document, s: Settings)
    requires !Response(a, b) && !Opposed(a, b)
    ensures Score(a, b, s) == LinkScore(a, b, s) && Score(b, a, s) == LinkScore(a, b, s)
  {
    ConflictIsOpposed(a, b);
    ScoreSymmetric(a, b, s);
  }

  /** What names a receipt's code scores 95 with it; what names its confirmed suffix, table and article scores 100. */
  lemma ReferenceScore(f: Document, r: Document, s: Settings)
    requires !Opposed(f, r) && Distance(f, r) <= s.window
    ensures SuffixSale(f, r) ==> Score(f, r, s) == 100 && Score(r, f, s) == 100
    ensures NamesReceipt(f, r) && !NamesSuffix(f, r) ==> Score(f, r, s) == 95 && Score(r, f, s) == 95
  {
    if NamesReceipt(f, r) || SuffixSale(f, r) {
      LinksDecide(f, r, s);
      ReferenceRule(f, r, s);
    }
  }

  /**
   A prebill and a receipt of its table with a common article, within five minutes after it, score
   100, or at least 95 when the prebill also names the receipt's code.
   */
  lemma TableSaleScore(p: Document, f: Document, s: Settings)
    requires TableSale(p, f) && !Opposed(p, f)
    ensures Score(p, f, s) >= 95 && Score(f, p, s) >= 95
    ensures !NamesReceipt(f, p) ==> Score(p, f, s) == 100 && Score(f, p, s) == 100
  {
    LinksDecide(f, p, s);
    ReferenceRule(f, p, s);
    TableSaleRule(p, f);
    TableLinksSymmetric(p, f);
    if !NamesReceipt(f, p) {
      SuffixIs100(f, p, s);
    }
  }

  lemma SuffixIs100(f: Document, r: Document, s: Settings)
    requires f.docType == CommercialDocument && !NamesReceipt(f, r)
    ensures CommercialReferenceLink(f, r, s).Some? ==> CommercialReferenceLink(f, r, s) == Some(100)
  {
    ReferenceRule(f, r, s);
  }

  /** A ticket and the management baseline of its table with a common article, within 30 seconds after it, score 100. */
  lemma BaselineScore(k: Document, m: Document, s: Settings)
    requires TicketAndBaseline(k, m) && !Opposed(k, m)
    ensures Score(k, m, s) == 100 && Score(m, k, s) == 100
  {
    LinksDecide(k, m, s);
    BaselineRule(k, m);
  }

  /** Receipts, refunds and payments of one reference or order score 80 in the window. */
  lemma SiblingScore(a: Document, b: Document, s: Settings)
    requires Siblings(a, b, s) && !Opposed(a, b)
    ensures Score(a, b, s) == 80
  {
    LinksDecide(a, b, s);
    SiblingRule(a, b, s);
  }

  /** A ticket and a change of its device and table with a common article, within five minutes after it, score 100. */
  lemma ChangeScore(k: Document, c: Document, s: Settings)
    requires TicketAndChange(k, c) && !Opposed(k, c)
    ensures Score(k, c, s) == 100 && Score(c, k, s) == 100
  {
    LinksDecide(k, c, s);
    ChangeRule(k, c);
  }

  /** Tickets of two devices for one table within 30 seconds score 85. */
  lemma DispatchScore(a: Document, b: Document, s: Settings)
    requires Dispatch(a, b) && !Opposed(a, b)
    ensures Score(a, b, s) == 85
  {
    LinksDecide(a, b, s);
    DispatchRule(a, b);
  }

  // The points of a pair without a rule.

  ghost predicate RuleApplies(a: Document, b: Document, s: Settings) {
    || (Distance(a, b) <= s.window && (SuffixSale(a, b) || (NamesReceipt(a, b) && !NamesSuffix(a, b))))
    || (Distance(a, b) <= s.window && (SuffixSale(b, a) || (NamesReceipt(b, a) && !NamesSuffix(b, a))))
    || TableSale(a, b) || TableSale(b, a) || TicketAndBaseline(a, b) || TicketAndBaseline(b, a)
    || Siblings(a, b, s) || TicketAndChange(a, b) || TicketAndChange(b, a) || Dispatch(a, b)
  }

  predicate Printed(t: DocumentType) {
    t == Order || t == OrderChange || t == KitchenOrder || t == PreBill || t == ManagementDocument
  }

  predicate Settling(t: DocumentType) {
    t == CommercialDocument || t == Refund || t == Payment || t == Cancellation
  }

  predicate Copy(t: DocumentType) {
    t == ConformingCopy || t == Reprint
  }

  /** A copy goes with a receipt; otherwise one opens or extends a sale and the other does so or settles one. */
  predicate OneSale(t: DocumentType, u: DocumentType) {
    if Copy(t) || Copy(u) then t == CommercialDocument || u == CommercialDocument
    else (Printed(t) && (Printed(u) || Settling(u))) || (Printed(u) && Settling(t))
  }

  function When(c: bool, points: nat): nat {
    if c then points else 0
  }

  function Money(d: Document): Option<int> {
    if d.grossTotal.Some? then d.grossTotal else d.netTotal
  }

  /** Progressive numbers are comparable among prebills and management documents, and among receipts and refunds. */
  predicate OneNumbering(t: DocumentType, u: DocumentType) {
    || ((t == PreBill || t == ManagementDocument) && (u == PreBill || u == ManagementDocument))
    || ((t == CommercialDocument || t == Refund) && (u == CommercialDocument || u == Refund))
  }

  function CodeTable(a: Document, b: Document): nat {
    When(Same(a.orderCode, b.orderCode), 35)
    + When(OneNumbering(a.docType, b.docType) && Same(a.externalCode, b.externalCode), 15)
    + When(Same(a.tableCode, b.tableCode), 12)
    + When(Same(a.operatorCode, b.operatorCode), 5)
    + When(Same(a.terminalCode, b.terminalCode), 4)
  }

  lemma CodePointsTable(a: Document, b: Document)
    ensures CodePoints(a, b) == CodeTable(a, b)
  {
  }

  lemma AmountPointsTable(a: Document, b: Document)
    ensures AmountPoints(a, b) ==
            if Same(Money(a), Money(b)) then 8
            else When(Money(a).Some? && Money(b).Some? && Money(a).value >= 0 && Money(b).value >= 0, 3)
  {
  }

  lemma TimePointsTable(a: Document, b: Document, window: int)
    requires Distance(a, b) <= window
    ensures TimePoints(a, b, window) ==
            if Distance(a, b) <= 120_000_000 then 12 else if Distance(a, b) <= 900_000_000 then 8 else 4
  {
  }

  lemma CompatibleIsOneSale(a: Document, b: Document)
    requires !Response(a, b)
    ensures Compatible(a, b) <==> OneSale(a.docType, b.docType)
  {
  }

  /** The nearest whole number, the even one when two are equally near. */
  lemma NearestEven(numerator: nat, denominator: nat)
    requires denominator > 0
    ensures var r := RoundHalfEven(numerator, denominator);
            && 2 * numerator - denominator <= 2 * r * denominator <= 2 * numerator + denominator
            && (2 * r * denominator == 2 * numerator - denominator || 2 * r * denominator == 2 * numerator + denominator
                ==> r % 2 == 0)
  {
    var q, r := numerator / denominator, numerator % denominator;
    assert numerator == q * denominator + r;
    assert (q + 1) * denominator == q * denominator + denominator;
    assert 2 * q * denominator == 2 * (q * denominator) && 2 * (q + 1) * denominator == 2 * ((q + 1) * denominator);
  }

  /** Twelve points in proportion to the articles that occur in both among those that occur in either. */
  lemma SimilarityTable(a: Document, b: Document, both: set<Key>, either: set<Key>)
    requires forall k :: k in both <==> Occurs(a.lines, k) && Occurs(b.lines, k)
    requires forall k :: k in either <==> Occurs(a.lines, k) || Occurs(b.lines, k)
    ensures SimilarityPoints(a, b) ==
            if a.lines == [] || b.lines == [] then 0
            else RoundHalfEven(12 * |both|, if |either| > 0 then |either| else 1)
  {
    forall k ensures k in LineKeys(a) <==> Occurs(a.lines, k) {
      AggregateQuantity(a.lines, k);
    }
    forall k ensures k in LineKeys(b) <==> Occurs(b.lines, k) {
      AggregateQuantity(b.lines, k);
    }
    assert LineKeys(a) * LineKeys(b) == both && LineKeys(a) + LineKeys(b) == either;
    if a.lines != [] {
      assert Occurs(a.lines, LineKey(a.lines[0], 0));
    }
    if b.lines != [] {
      assert Occurs(b.lines, LineKey(b.lines[0], 0));
    }
  }

  lemma ContextPointsTable(a: Document, b: Document, window: int)
    requires !Response(a, b) && OneSale(a.docType, b.docType) && Distance(a, b) <= window
    ensures ContextPoints(a, b, window) ==
            When(SharesReference(a, b), 20) + TimePoints(a, b, window) + When(a.businessDate == b.businessDate, 3)
            + AmountPoints(a, b) + SimilarityPoints(a, b) + 8 + When(a.deviceId == b.deviceId, 2)
  {
    SharesReferenceIsCommon(a, b);
    CompatibleIsOneSale(a, b);
  }

  lemma NoReferenceLink(a: Document, b: Document, s: Settings)
    requires !RuleApplies(a, b, s)
    ensures CommercialReferenceLink(a, b, s).None?
  {
    SharesItemsIsCommonArticle(a, b);
    SharesItemsIsCommonArticle(b, a);
  }

  lemma NoRuleNoLink(a: Document, b: Document, s: Settings)
    requires !RuleApplies(a, b, s)
    ensures LinkScore(a, b, s) == WeightedScore(a, b, s)
  {
    NoReferenceLink(a, b, s);
    TableSaleRule(a, b);
    BaselineRule(a, b);
    SiblingRule(a, b, s);
    ChangeRule(a, b);
    DispatchRule(a, b);
  }

  /**
   Without a conflict and without a rule a pair scores the sum of its points, at most 100, if the
   types can belong to one sale and the distance lies in the window, and nothing otherwise.
   */
  lemma PlainScore(a: Document, b: Document, s: Settings)
    requires !Response(a, b) && !Opposed(a, b) && !RuleApplies(a, b, s)
    ensures var points :=
              CodeTable(a, b) + When(CommonReference(a, b), 20)
              + (if Distance(a, b) <= 120_000_000 then 12 else if Distance(a, b) <= 900_000_000 then 8 else 4)
              + When(a.businessDate == b.businessDate, 3) + AmountPoints(a, b) + SimilarityPoints(a, b)
              + 8 + When(a.deviceId == b.deviceId, 2);
            Score(a, b, s) ==
            if !OneSale(a.docType, b.docType) || Distance(a, b) > s.window then 0
            else if points > 100 then 100 else points
  {
    LinksDecide(a, b, s);
    NoRuleNoLink(a, b, s);
    CompatibleIsOneSale(a, b);
    if OneSale(a.docType, b.docType) && Distance(a, b) <= s.window {
      CodePointsTable(a, b);
      ContextPointsTable(a, b, s.window);
      TimePointsTable(a, b, s.window);
      SharesReferenceIsCommon(a, b);
    }
  }
}
