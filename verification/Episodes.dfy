/**
 Which sets of documents may form one sale episode: the checks that `union` makes on a
 proposed component before it joins two components.
 */
module Episodes {
  import opened Options
  import opened Documents
  import opened Partitions

  /** Documents by identifier. */
  type Archive = map<nat, Document>

  predicate ConflictFree(docs: Archive, ids: set<nat>)
    requires ids <= docs.Keys
  {
    forall x, y :: x in ids && y in ids && x != y ==> !Conflict(docs[x], docs[y])
  }

  predicate KitchenOnly(docs: Archive, ids: set<nat>)
    requires ids <= docs.Keys
  {
    forall x :: x in ids ==> docs[x].docType == KitchenOrder
  }

  /** The latest and the earliest document are at most `window` apart. */
  predicate SpanWithin(docs: Archive, ids: set<nat>, window: int)
    requires ids <= docs.Keys
  {
    forall x, y :: x in ids && y in ids ==> docs[y].time - docs[x].time <= window
  }

  predicate IsOpening(d: Document) {
    d.docType == KitchenOrder || (d.docType == ManagementDocument && IsPrebillSource(d))
  }

  function Openings(docs: Archive, ids: set<nat>): (r: set<nat>)
    requires ids <= docs.Keys
    ensures r <= ids
  {
    set x | x in ids && IsOpening(docs[x])
  }

  predicate SameOrderCode(docs: Archive, ids: set<nat>)
    requires ids <= docs.Keys
  {
    forall x, y :: x in ids && y in ids ==> Matches(docs[x].orderCode, docs[y].orderCode)
  }

  predicate SameStrongReference(docs: Archive, ids: set<nat>)
    requires ids <= docs.Keys
  {
    forall x, y :: x in ids && y in ids ==> Matches(StrongReference(docs[x]), StrongReference(docs[y]))
  }

  /** At least two documents, all with the same explicit identity. */
  predicate SharedStrongIdentity(docs: Archive, ids: set<nat>)
    requires ids <= docs.Keys
  {
    |ids| >= 2 && (SameOrderCode(docs, ids) || SameStrongReference(docs, ids))
  }

  predicate HasType(docs: Archive, ids: set<nat>, t: DocumentType)
    requires ids <= docs.Keys
  {
    exists x :: x in ids && docs[x].docType == t
  }

  /** Kitchen tickets and management openings too far apart to be one opening. */
  predicate OpeningViolation(docs: Archive, ids: set<nat>)
    requires ids <= docs.Keys
  {
    var openings := Openings(docs, ids);
    && HasType(docs, openings, KitchenOrder)
    && HasType(docs, openings, ManagementDocument)
    && !SpanWithin(docs, openings, KITCHEN_BASELINE_WINDOW)
    && !SharedStrongIdentity(docs, openings)
  }

  /** Kitchen tickets alone, too far apart to be one dispatch. */
  predicate KitchenViolation(docs: Archive, ids: set<nat>)
    requires ids <= docs.Keys
  {
    KitchenOnly(docs, ids) && !SpanWithin(docs, ids, CROSS_DEPARTMENT_WINDOW)
  }

  predicate Admissible(docs: Archive, ids: set<nat>)
    requires ids <= docs.Keys
  {
    ConflictFree(docs, ids) && !KitchenViolation(docs, ids) && !OpeningViolation(docs, ids)
  }

  /** The guard of `union`. */
  function EpisodeGuard(docs: Archive): Guard {
    ids => ids <= docs.Keys && Admissible(docs, ids)
  }

  lemma SingletonAdmissible(docs: Archive, x: nat)
    requires x in docs
    ensures EpisodeGuard(docs)({x})
  {
  }

  /** The refusals that no added document can lift. */
  predicate HardViolation(docs: Archive, ids: set<nat>)
    requires ids <= docs.Keys
  {
    !ConflictFree(docs, ids) || OpeningViolation(docs, ids)
  }

  lemma {:induction false} SubsetSize(a: set<nat>, b: set<nat>)
    requires a <= b
    ensures |a| <= |b|
    decreases a
  {
    if a != {} {
      var x :| x in a;
      SubsetSize(a - {x}, b - {x});
    }
  }

  lemma SharedIdentityShrinks(docs: Archive, small: set<nat>, large: set<nat>, k: nat, m: nat)
    requires small <= large <= docs.Keys && k in small && m in small && k != m
    requires SharedStrongIdentity(docs, large)
    ensures SharedStrongIdentity(docs, small)
  {
    SubsetSize({k, m}, small);
  }

  lemma OpeningViolationGrows(docs: Archive, small: set<nat>, large: set<nat>)
    requires small <= large <= docs.Keys
    requires OpeningViolation(docs, small)
    ensures OpeningViolation(docs, large)
  {
    var a, b := Openings(docs, small), Openings(docs, large);
    var k :| k in a && docs[k].docType == KitchenOrder;
    var m :| m in a && docs[m].docType == ManagementDocument;
    assert k in b && m in b;
    if SharedStrongIdentity(docs, b) {
      SharedIdentityShrinks(docs, a, b, k, m);
    }
    var x, y :| x in a && y in a && docs[y].time - docs[x].time > KITCHEN_BASELINE_WINDOW;
    assert x in b && y in b;
  }

  lemma HardViolationGrows(docs: Archive, small: set<nat>, large: set<nat>)
    requires small <= large <= docs.Keys
    requires HardViolation(docs, small)
    ensures HardViolation(docs, large)
  {
    if ConflictFree(docs, small) {
      OpeningViolationGrows(docs, small, large);
    }
  }
}
