/**
 In which order the engine merges, said in terms of scores, distances in time and identifiers:
 the core pairs that are tried first, the target that an auxiliary document is attached to, and
 the pairs that are certain to be joined.
 */
module MergeOrder {
  import opened Ordering
  import opened Documents
  import opened Scoring
  import opened ScoringTheorems
  import opened Partitions
  import opened Episodes
  import opened Clustering
  import opened ClusterTheorems

  lemma PairScore(docs: Archive, s: Settings, x: nat, y: nat)
    requires x in docs && y in docs
    ensures Weight(docs, s, x, y) == Score(docs[x], docs[y], s)
    ensures Gap(docs, x, y) == Distance(docs[x], docs[y])
  {
    ScoreSymmetric(docs[x], docs[y], s);
  }

  /** Copies, responses, refunds, reports and invoices, and management documents that only refer to a receipt. */
  predicate Follows(d: Document) {
    match d.docType
    case ConformingCopy => true
    case Reprint => true
    case DeviceResponse => true
    case Refund => true
    case ShiftEndReport => true
    case Invoice => true
    case ManagementDocument => d.refersToCommercial && !d.economicClose && !d.roomCharge
    case _ => false
  }

  lemma AuxiliaryIsFollowing(d: Document)
    ensures IsAuxiliary(d) <==> Follows(d)
  {
  }

  // The core phase.

  /** The pair scores higher, or as high and is closer in time, or as close and has the smaller identifiers. */
  predicate TriedBefore(docs: Archive, s: Settings, p: Pair, q: Pair)
    requires p.0 in docs && p.1 in docs && q.0 in docs && q.1 in docs
  {
    var a, b := Score(docs[p.0], docs[p.1], s), Score(docs[q.0], docs[q.1], s);
    var d, e := Distance(docs[p.0], docs[p.1]), Distance(docs[q.0], docs[q.1]);
    a > b || (a == b && (d < e || (d == e && (p.0 < q.0 || (p.0 == q.0 && p.1 < q.1)))))
  }

  lemma TriedBeforeByKey(docs: Archive, s: Settings, p: Pair, q: Pair)
    requires p.0 in docs && p.1 in docs && q.0 in docs && q.1 in docs && p != q
    requires !LexLess(CoreOrder(docs, s)(q), CoreOrder(docs, s)(p))
    ensures TriedBefore(docs, s, p, q)
  {
    PairScore(docs, s, p.0, p.1);
    PairScore(docs, s, q.0, q.1);
    LexOfFour(CoreOrder(docs, s)(q), CoreOrder(docs, s)(p));
  }

  lemma ArrangedInOrder(core: set<Pair>, key: Pair -> seq<int>, i: nat, j: nat)
    requires i < j < |Arranged(core, key)|
    ensures var p, q := Arranged(core, key)[i], Arranged(core, key)[j];
            p in core && q in core && p != q && !LexLess(key(q), key(p))
  {
    ArrangedElements(core, key);
    SortByIsSorted(Listing(core), key);
    assert Arranged(core, key)[i] in Arranged(core, key) && Arranged(core, key)[j] in Arranged(core, key);
  }

  /** The core pairs are tried in this order, each once. */
  lemma CorePairsInOrder(docs: Archive, s: Settings, pairs: set<Pair>, i: nat, j: nat)
    requires WellFormed(docs, pairs) && i < j < |CoreSequence(docs, s, pairs)|
    ensures var p, q := CoreSequence(docs, s, pairs)[i], CoreSequence(docs, s, pairs)[j];
            p in pairs && q in pairs && TriedBefore(docs, s, p, q)
  {
    ArrangedInOrder(CorePairs(pairs, Auxiliaries(docs)), CoreOrder(docs, s), i, j);
    TriedBeforeByKey(docs, s, CoreSequence(docs, s, pairs)[i], CoreSequence(docs, s, pairs)[j]);
  }

  // The auxiliary phase.

  predicate Linked(pairs: set<Pair>, a: nat, t: nat) {
    (a, t) in pairs || (t, a) in pairs
  }

  /** Seen from `a`, `t` scores higher than `u`, or as high and is closer, or as close and is the smaller one. */
  predicate Outranks(docs: Archive, s: Settings, a: nat, t: nat, u: nat)
    requires a in docs && t in docs && u in docs
  {
    var x, y := Score(docs[a], docs[t], s), Score(docs[a], docs[u], s);
    var d, e := Distance(docs[a], docs[t]), Distance(docs[a], docs[u]);
    x > y || (x == y && (d < e || (d == e && t < u)))
  }

  /** The core document that outranks all others that the auxiliary document qualifies with. */
  ghost predicate BestParent(docs: Archive, s: Settings, pairs: set<Pair>, a: nat, t: nat)
    requires a in docs
  {
    && t in docs && !Follows(docs[t]) && Linked(pairs, a, t)
    && forall u :: u in docs && u != t && !Follows(docs[u]) && Linked(pairs, a, u) ==> Outranks(docs, s, a, t, u)
  }

  lemma TargetsAreLinkedCore(docs: Archive, pairs: set<Pair>, a: nat, t: nat)
    requires WellFormed(docs, pairs) && a in Auxiliaries(docs)
    ensures t in Targets(pairs, Auxiliaries(docs), a) <==> t in docs && !Follows(docs[t]) && Linked(pairs, a, t)
  {
    var aux := Auxiliaries(docs);
    if t in docs {
      AuxiliaryIsFollowing(docs[t]);
    }
    if Linked(pairs, a, t) && t !in aux {
      if (a, t) in pairs {
        assert t in (set p | p in pairs && p.0 == a && p.1 !in aux :: p.1);
      } else {
        assert (t, a) in pairs;
        assert t in (set p | p in pairs && p.1 == a && p.0 !in aux :: p.0);
      }
    }
  }

  lemma OutranksIsPreferred(docs: Archive, s: Settings, a: nat, t: nat, u: nat)
    requires a in docs && t in docs && u in docs
    ensures Outranks(docs, s, a, t, u) <==> Preferred(docs, s, a, t, u)
  {
    PairScore(docs, s, a, t);
    PairScore(docs, s, a, u);
  }

  lemma BestParentIsBest(docs: Archive, s: Settings, pairs: set<Pair>, a: nat, t: nat)
    requires WellFormed(docs, pairs) && a in Auxiliaries(docs)
    ensures BestParent(docs, s, pairs, a, t) <==> IsBest(docs, s, Targets(pairs, Auxiliaries(docs), a), a, t)
  {
    var targets := Targets(pairs, Auxiliaries(docs), a);
    TargetsAreLinkedCore(docs, pairs, a, t);
    forall u ensures u in targets <==> u in docs && !Follows(docs[u]) && Linked(pairs, a, u) {
      TargetsAreLinkedCore(docs, pairs, a, u);
    }
    if t in targets {
      forall u | u in docs ensures Outranks(docs, s, a, t, u) <==> Preferred(docs, s, a, t, u) {
        OutranksIsPreferred(docs, s, a, t, u);
      }
    }
  }

  /** The attachment sequence offers the auxiliary document to its best parent. */
  lemma OfferedToBestParent(docs: Archive, s: Settings, pairs: set<Pair>, a: nat, t: nat) returns (i: nat)
    requires WellFormed(docs, pairs) && a in Auxiliaries(docs) && BestParent(docs, s, pairs, a, t)
    ensures i < |AttachmentSequence(docs, s, pairs)| && AttachmentSequence(docs, s, pairs)[i] == (a, t)
  {
    var aux, offers := Auxiliaries(docs), AttachmentSequence(docs, s, pairs);
    TargetsAreLinkedCore(docs, pairs, a, t);
    ArrangedElements(Attachable(pairs, aux), IdOrder());
    AttachableIds(pairs, aux);
    var ids := Arranged(Attachable(pairs, aux), IdOrder());
    assert a in ids;
    i :| 0 <= i < |ids| && ids[i] == a;
    BestParentIsBest(docs, s, pairs, a, t);
    BestIsUnique(docs, s, Targets(pairs, aux, a), a, t, BestTarget(docs, s, Targets(pairs, aux, a), a));
  }

  lemma AuxiliaryRefusal(docs: Archive, l: set<nat>, r: set<nat>, large: set<nat>, a: nat)
    requires EpisodeGuard(docs)(l) && EpisodeGuard(docs)(r) && !EpisodeGuard(docs)(l + r)
    requires l + r <= large <= docs.Keys && a in l && Follows(docs[a])
    ensures HardViolation(docs, large)
  {
    assert l + r <= docs.Keys && a in l + r && docs[a].docType != KitchenOrder;
    assert !KitchenOnly(docs, l + r);
    HardViolationGrows(docs, l + r, large);
  }

  lemma AttachedOnlyToBest(docs: Archive, s: Settings, pairs: set<Pair>, a: nat, t: nat)
    requires WellFormed(docs, pairs) && a in docs && Follows(docs[a]) && BestParent(docs, s, pairs, a, t)
    ensures var p := Cluster(docs, s, pairs); a in p && (p[a] != {a} ==> t in p[a])
  {
    AuxiliariesNeverBridge(docs, s, pairs);
    var p := Cluster(docs, s, pairs);
    if p[a] != {a} {
      var u :| IsParentOf(docs, s, pairs, a, u) && u in p[a] && u !in Auxiliaries(docs);
      BestParentIsBest(docs, s, pairs, a, t);
      BestIsUnique(docs, s, Targets(pairs, Auxiliaries(docs), a), a, t, u);
    }
  }

  lemma ApartFromBest(docs: Archive, s: Settings, pairs: set<Pair>, a: nat, t: nat)
    requires WellFormed(docs, pairs) && a in docs && Follows(docs[a]) && BestParent(docs, s, pairs, a, t)
    ensures var p := Cluster(docs, s, pairs);
            && p.Keys == docs.Keys && p[a] <= docs.Keys && p[t] <= docs.Keys
            && (t !in p[a] ==> HardViolation(docs, p[a] + p[t]))
  {
    var p := Cluster(docs, s, pairs);
    ClusterSound(docs, s, pairs);
    TogetherIsAdmissible(docs, p, a, t);
    if t !in p[a] {
      CoreEpisodesSound(docs, s, pairs);
      AttachmentsInEpisodes(docs, s, pairs);
      var i := OfferedToBestParent(docs, s, pairs, a, t);
      var l, r := RefusedAtItsTurn(EpisodeGuard(docs), CoreEpisodes(docs, s, pairs),
                                   AttachmentSequence(docs, s, pairs), i);
      AuxiliaryRefusal(docs, l, r, p[a] + p[t], a);
    }
  }

  /**
   An auxiliary document that qualifies with some core document is in the episode of the one that
   outranks all others, unless the two episodes together hold a conflict or an opening violation;
   it is in no other episode.
   */
  lemma AuxiliaryJoinsBestParent(docs: Archive, s: Settings, pairs: set<Pair>, a: nat, t: nat)
    requires WellFormed(docs, pairs) && a in docs && Follows(docs[a]) && BestParent(docs, s, pairs, a, t)
    ensures var p := Cluster(docs, s, pairs);
            && p.Keys == docs.Keys && p[a] <= docs.Keys && p[t] <= docs.Keys
            && (t in p[a] <==> !HardViolation(docs, p[a] + p[t]))
            && (p[a] != {a} ==> t in p[a])
  {
    AttachedOnlyToBest(docs, s, pairs, a, t);
    ApartFromBest(docs, s, pairs, a, t);
    ClusterSound(docs, s, pairs);
    TogetherIsAdmissible(docs, Cluster(docs, s, pairs), a, t);
  }

  lemma {:induction false} BestParentExists(docs: Archive, s: Settings, pairs: set<Pair>, a: nat, u: nat)
    returns (t: nat)
    requires WellFormed(docs, pairs) && a in docs && Follows(docs[a])
    requires u in docs && !Follows(docs[u]) && Linked(pairs, a, u)
    ensures BestParent(docs, s, pairs, a, t)
  {
    TargetsAreLinkedCore(docs, pairs, a, u);
    t := BestTarget(docs, s, Targets(pairs, Auxiliaries(docs), a), a);
    BestParentIsBest(docs, s, pairs, a, t);
  }

  // Pairs that are certain to be joined.

  /** No other pair names one of the two documents. */
  ghost predicate LonePair(pairs: set<Pair>, x: nat, y: nat) {
    && (x, y) in pairs
    && forall p :: p in pairs && (p.0 in {x, y} || p.1 in {x, y}) ==> p == (x, y)
  }

  lemma OnlyPartner(pairs: set<Pair>, x: nat, y: nat, z: nat, other: nat)
    requires LonePair(pairs, x, y) && x != y && z in {x, y} && other != z && Normalised((z, other)) in pairs
    ensures other == if z == x then y else x
  {
    var q := Normalised((z, other));
    assert q.0 in {x, y} || q.1 in {x, y};
    assert q == (x, y);
  }

  lemma EitherWay(p: Partition, x: nat, y: nat)
    requires IsPartition(p) && x in p && y in p
    ensures x in p[y] ==> y in p[x]
  {
  }

  lemma AloneWhenApart(docs: Archive, s: Settings, pairs: set<Pair>, x: nat, y: nat, z: nat)
    requires WellFormed(docs, pairs) && LonePair(pairs, x, y) && z in {x, y}
    ensures var p := Cluster(docs, s, pairs); x in p && y in p && (y !in p[x] ==> p[z] == {z})
  {
    ClusterSound(docs, s, pairs);
    EitherWay(Cluster(docs, s, pairs), x, y);
    var other := MembersAreLinked(docs, s, pairs, z);
    if Cluster(docs, s, pairs)[z] != {z} {
      OnlyPartner(pairs, x, y, z, other);
    }
  }

  lemma PairNotRefused(docs: Archive, x: nat, y: nat)
    requires x in docs && y in docs && EpisodeGuard(docs)({x, y})
    ensures !HardViolation(docs, {x} + {y})
    ensures docs[x].docType == KitchenOrder && docs[y].docType == KitchenOrder ==>
              SpanWithin(docs, KitchenTickets(docs, {x} + {y}), CROSS_DEPARTMENT_WINDOW)
  {
    assert {x} + {y} == {x, y};
    if docs[x].docType == KitchenOrder && docs[y].docType == KitchenOrder {
      assert KitchenTickets(docs, {x, y}) == {x, y};
      assert KitchenOnly(docs, {x, y});
    }
  }

  lemma RefusedPairViolates(docs: Archive, s: Settings, pairs: set<Pair>, x: nat, y: nat)
    requires WellFormed(docs, pairs) && LonePair(pairs, x, y) && !Follows(docs[x]) && !Follows(docs[y])
    ensures var p := Cluster(docs, s, pairs);
            && x in p && y in p
            && (y !in p[x] ==>
                  || HardViolation(docs, {x} + {y})
                  || (docs[x].docType == KitchenOrder && docs[y].docType == KitchenOrder &&
                      !SpanWithin(docs, KitchenTickets(docs, {x} + {y}), CROSS_DEPARTMENT_WINDOW)))
  {
    AloneWhenApart(docs, s, pairs, x, y, x);
    AloneWhenApart(docs, s, pairs, x, y, y);
    LonePairIsCore(docs, pairs, x, y);
    RefusalsNeverGoStale(docs, s, pairs, (x, y));
  }

  lemma LonePairIsCore(docs: Archive, pairs: set<Pair>, x: nat, y: nat)
    requires WellFormed(docs, pairs) && LonePair(pairs, x, y) && !Follows(docs[x]) && !Follows(docs[y])
    ensures (x, y) in CorePairs(pairs, Auxiliaries(docs))
  {
  }

  /**
   Two core documents that qualify with each other and with no other document end in one episode
   if they may form one.
   */
  lemma LonePairIsJoined(docs: Archive, s: Settings, pairs: set<Pair>, x: nat, y: nat)
    requires WellFormed(docs, pairs) && LonePair(pairs, x, y)
    requires !Follows(docs[x]) && !Follows(docs[y]) && EpisodeGuard(docs)({x, y})
    ensures var p := Cluster(docs, s, pairs); x in p && y in p[x]
  {
    RefusedPairViolates(docs, s, pairs, x, y);
    PairNotRefused(docs, x, y);
  }

  lemma PairFreeOfConflict(docs: Archive, x: nat, y: nat)
    requires x in docs && y in docs && !Opposed(docs[x], docs[y])
    ensures ConflictFree(docs, {x, y})
  {
    ConflictIsOpposed(docs[x], docs[y]);
    ConflictSymmetric(docs[x], docs[y]);
  }

  lemma PairSpan(docs: Archive, x: nat, y: nat, window: nat)
    requires x in docs && y in docs && Distance(docs[x], docs[y]) <= window
    ensures SpanWithin(docs, {x, y}, window)
  {
  }

  lemma PairWithoutTickets(docs: Archive, x: nat, y: nat)
    requires x in docs && y in docs && docs[x].docType != KitchenOrder && docs[y].docType != KitchenOrder
    ensures !KitchenViolation(docs, {x, y}) && !OpeningViolation(docs, {x, y})
  {
    assert x in {x, y};
    assert !HasType(docs, Openings(docs, {x, y}), KitchenOrder);
  }

  lemma ClosePair(docs: Archive, x: nat, y: nat)
    requires x in docs && y in docs && Distance(docs[x], docs[y]) <= 30_000_000
    ensures !KitchenViolation(docs, {x, y}) && !OpeningViolation(docs, {x, y})
  {
    PairSpan(docs, x, y, 30_000_000);
    assert Openings(docs, {x, y}) <= {x, y};
  }

  /** Two documents may form an episode if nothing opposes it and, with a ticket among them, they are close in time. */
  lemma PairMayFormEpisode(docs: Archive, x: nat, y: nat)
    requires x in docs && y in docs && !Opposed(docs[x], docs[y])
    requires Distance(docs[x], docs[y]) <= 30_000_000 ||
             (docs[x].docType != KitchenOrder && docs[y].docType != KitchenOrder)
    ensures EpisodeGuard(docs)({x, y})
  {
    PairFreeOfConflict(docs, x, y);
    if Distance(docs[x], docs[y]) <= 30_000_000 {
      ClosePair(docs, x, y);
    } else {
      PairWithoutTickets(docs, x, y);
    }
  }

  // What every episode keeps, on the fields of its documents.

  predicate OpensTable(d: Document) {
    d.docType == KitchenOrder || (d.docType == ManagementDocument && Prebill(d))
  }

  ghost predicate Unopposed(docs: Archive, ids: set<nat>)
    requires ids <= docs.Keys
  {
    forall x, y :: x in ids && y in ids && x != y ==> !Opposed(docs[x], docs[y])
  }

  /** The chosen documents lie pairwise within 30 seconds. */
  ghost predicate AllClose(docs: Archive, ids: set<nat>, chosen: Document -> bool)
    requires ids <= docs.Keys
  {
    forall x, y :: x in ids && y in ids && chosen(docs[x]) && chosen(docs[y]) ==>
      Distance(docs[x], docs[y]) <= 30_000_000
  }

  ghost predicate OneOrderCode(docs: Archive, ids: set<nat>)
    requires ids <= docs.Keys
  {
    forall x, y :: x in ids && y in ids && OpensTable(docs[x]) && OpensTable(docs[y]) ==>
      Same(docs[x].orderCode, docs[y].orderCode)
  }

  ghost predicate OneSaleReference(docs: Archive, ids: set<nat>)
    requires ids <= docs.Keys
  {
    forall x, y :: x in ids && y in ids && OpensTable(docs[x]) && OpensTable(docs[y]) ==>
      Same(SaleReference(docs[x]), SaleReference(docs[y]))
  }

  /** The openings all carry one order code, or all one sale reference. */
  ghost predicate OpeningsShare(docs: Archive, ids: set<nat>)
    requires ids <= docs.Keys
  {
    OneOrderCode(docs, ids) || OneSaleReference(docs, ids)
  }

  ghost predicate HasTicketAndBaseline(docs: Archive, ids: set<nat>)
    requires ids <= docs.Keys
  {
    && (exists k :: k in ids && docs[k].docType == KitchenOrder)
    && (exists m :: m in ids && docs[m].docType == ManagementDocument && Prebill(docs[m]))
  }

  ghost predicate TicketsOnly(docs: Archive, ids: set<nat>)
    requires ids <= docs.Keys
  {
    forall x :: x in ids ==> docs[x].docType == KitchenOrder
  }

  /**
   What may be one sale: no two documents carry different explicit identities or lie on both sides
   of a settlement; tickets alone are one dispatch; tickets and management baselines are one dispatch
   or share an identity.
   */
  ghost predicate MayBeOneSale(docs: Archive, ids: set<nat>)
    requires ids <= docs.Keys
  {
    && Unopposed(docs, ids)
    && (TicketsOnly(docs, ids) ==> AllClose(docs, ids, d => true))
    && (HasTicketAndBaseline(docs, ids) ==> AllClose(docs, ids, OpensTable) || OpeningsShare(docs, ids))
  }

  lemma ConflictFreeExactly(docs: Archive, ids: set<nat>)
    requires ids <= docs.Keys
    ensures ConflictFree(docs, ids) <==> Unopposed(docs, ids)
  {
    forall x, y | x in ids && y in ids ensures Conflict(docs[x], docs[y]) <==> Opposed(docs[x], docs[y]) {
      ConflictIsOpposed(docs[x], docs[y]);
    }
  }

  lemma SpanExactly(docs: Archive, ids: set<nat>, part: set<nat>, chosen: Document -> bool)
    requires part <= ids <= docs.Keys && forall x :: x in part <==> x in ids && chosen(docs[x])
    ensures SpanWithin(docs, part, 30_000_000) <==> AllClose(docs, ids, chosen)
  {
    if SpanWithin(docs, part, 30_000_000) {
      forall x, y | x in ids && y in ids && chosen(docs[x]) && chosen(docs[y])
        ensures Distance(docs[x], docs[y]) <= 30_000_000
      {
        assert x in part && y in part;
      }
    }
  }

  lemma OpeningsExactly(docs: Archive, ids: set<nat>)
    requires ids <= docs.Keys
    ensures forall x :: x in Openings(docs, ids) <==> x in ids && OpensTable(docs[x])
    ensures HasType(docs, Openings(docs, ids), KitchenOrder) && HasType(docs, Openings(docs, ids), ManagementDocument)
            <==> HasTicketAndBaseline(docs, ids)
  {
    if k, m :| && k in ids && docs[k].docType == KitchenOrder
               && m in ids && docs[m].docType == ManagementDocument && Prebill(docs[m]) {
      assert k in Openings(docs, ids) && m in Openings(docs, ids);
    }
  }

  lemma CodeExactly(docs: Archive, ids: set<nat>, openings: set<nat>)
    requires openings <= ids <= docs.Keys && forall x :: x in openings <==> x in ids && OpensTable(docs[x])
    ensures SameOrderCode(docs, openings) <==> OneOrderCode(docs, ids)
  {
  }

  lemma ReferenceExactly(docs: Archive, ids: set<nat>, openings: set<nat>)
    requires openings <= ids <= docs.Keys && forall x :: x in openings <==> x in ids && OpensTable(docs[x])
    ensures SameStrongReference(docs, openings) <==> OneSaleReference(docs, ids)
  {
  }

  lemma TwoOpenings(docs: Archive, ids: set<nat>)
    requires ids <= docs.Keys && HasTicketAndBaseline(docs, ids)
    ensures |Openings(docs, ids)| >= 2
  {
    OpeningsExactly(docs, ids);
    var k :| k in ids && docs[k].docType == KitchenOrder;
    var m :| m in ids && docs[m].docType == ManagementDocument && Prebill(docs[m]);
    SubsetSize({k, m}, Openings(docs, ids));
  }

  lemma OpeningViolationExactly(docs: Archive, ids: set<nat>)
    requires ids <= docs.Keys
    ensures OpeningViolation(docs, ids) <==>
            HasTicketAndBaseline(docs, ids) && !AllClose(docs, ids, OpensTable) && !OpeningsShare(docs, ids)
  {
    OpeningsExactly(docs, ids);
    SpanExactly(docs, ids, Openings(docs, ids), OpensTable);
    CodeExactly(docs, ids, Openings(docs, ids));
    ReferenceExactly(docs, ids, Openings(docs, ids));
    if HasTicketAndBaseline(docs, ids) {
      TwoOpenings(docs, ids);
    }
  }

  lemma KitchenViolationExactly(docs: Archive, ids: set<nat>)
    requires ids <= docs.Keys
    ensures KitchenViolation(docs, ids) <==> TicketsOnly(docs, ids) && !AllClose(docs, ids, d => true)
  {
    SpanExactly(docs, ids, ids, d => true);
  }

  /** The guard of the union accepts exactly what may be one sale. */
  lemma GuardExactly(docs: Archive, ids: set<nat>)
    requires ids <= docs.Keys
    ensures EpisodeGuard(docs)(ids) <==> MayBeOneSale(docs, ids)
  {
    ConflictFreeExactly(docs, ids);
    KitchenViolationExactly(docs, ids);
    OpeningViolationExactly(docs, ids);
  }

  /** Every final episode may be one sale. */
  lemma EpisodesMayBeOneSale(docs: Archive, s: Settings, pairs: set<Pair>, x: nat)
    requires WellFormed(docs, pairs) && x in docs
    ensures var p := Cluster(docs, s, pairs); x in p && p[x] <= docs.Keys && MayBeOneSale(docs, p[x])
  {
    ClusterSound(docs, s, pairs);
    GuardExactly(docs, Cluster(docs, s, pairs)[x]);
  }

  /**
   A prebill and the receipt of its table, offered to the engine and naming no other document, end
   in one episode with every threshold up to 95.
   */
  lemma PrebillAndReceiptAreOneSale(docs: Archive, s: Settings, candidates: set<Pair>, p: nat, f: nat)
    requires p in docs && f in docs && p != f && TableSale(docs[p], docs[f]) && !Opposed(docs[p], docs[f])
    requires s.minimumScore <= 95 && Linked(candidates, p, f)
    requires forall c :: c in Qualifying(docs, s, candidates) && (c.0 in {p, f} || c.1 in {p, f}) ==>
               c == Normalised((p, f))
    ensures var e := Cluster(docs, s, Qualifying(docs, s, candidates)); p in e && f in e && f in e[p]
  {
    var pair, pairs := Normalised((p, f)), Qualifying(docs, s, candidates);
    TableSaleScore(docs[p], docs[f], s);
    PairScore(docs, s, pair.0, pair.1);
    OfferedQualifies(docs, s, candidates, p, f);
    assert LonePair(pairs, pair.0, pair.1);
    PairMayFormEpisode(docs, pair.0, pair.1);
    LonePairIsJoined(docs, s, pairs, pair.0, pair.1);
    ClusterSound(docs, s, pairs);
    EitherWay(Cluster(docs, s, pairs), f, p);
    EitherWay(Cluster(docs, s, pairs), p, f);
  }

  lemma OfferedQualifies(docs: Archive, s: Settings, candidates: set<Pair>, x: nat, y: nat)
    requires x in docs && y in docs && x != y && Linked(candidates, x, y)
    requires Weight(docs, s, Normalised((x, y)).0, Normalised((x, y)).1) >= s.minimumScore
    ensures Normalised((x, y)) in Qualifying(docs, s, candidates)
  {
    if (x, y) in candidates {
      assert Normalised((x, y)) in UniquePairs(docs, candidates);
    } else {
      assert (y, x) in candidates && Normalised((y, x)) in UniquePairs(docs, candidates);
    }
  }
}
