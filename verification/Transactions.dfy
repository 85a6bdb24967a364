/**
 The two entry points of the correlation engine, the transactions they return with their
 scores and order, and the determinism of that result (`correlate`, `correlate_candidates`,
 `_build_transaction`).
 */
module Transactions {
  import opened Options
  import opened Ordering
  import opened Documents
  import opened Scoring
  import opened Partitions
  import opened Episodes
  import opened Clustering
  import opened ClusterTheorems
  import opened Correlator

  ghost predicate DistinctIds(documents: seq<Document>) {
    forall x, y :: x in documents && y in documents && x.id == y.id ==> x == y
  }

  // The score of a transaction.

  function Max(a: nat, b: nat): nat {
    if a >= b then a else b
  }

  /** The strongest qualifying edge from a document to another one of the group; zero if there is none. */
  function BestLink(edges: map<Pair, nat>, minimum: int, group: seq<Document>, x: nat): nat {
    if group == [] then 0
    else
      var rest := BestLink(edges, minimum, group[1..], x);
      var p := Normalised((x, group[0].id));
      if group[0].id != x && p in edges && edges[p] >= minimum then Max(edges[p], rest) else rest
  }

  /** The weakest of the members' strongest edges. */
  function WeakestMember(edges: map<Pair, nat>, minimum: int, group: seq<Document>, members: seq<Document>): nat
    requires members != []
  {
    var first := BestLink(edges, minimum, group, members[0].id);
    if |members| == 1 then first
    else
      var rest := WeakestMember(edges, minimum, group, members[1..]);
      if first <= rest then first else rest
  }

  /** The score that `_build_transaction` gives a group of several documents. */
  function TransactionScore(edges: map<Pair, nat>, minimum: int, group: seq<Document>): nat
    requires group != []
  {
    WeakestMember(edges, minimum, group, group)
  }

  /** Every pair of positions, the earlier document first. */
  ghost function AllPairs(ordered: seq<Document>): set<Pair> {
    set i, j | 0 <= i < j < |ordered| :: (ordered[i].id, ordered[j].id)
  }

  // Transactions in their final order.

  /** The documents of a transaction, and its score if there are several. */
  datatype Transaction = Transaction(documents: seq<Document>, score: Option<nat>)

  /** The place of the identifier that is derived from the members of a transaction, among all identifiers. */
  type Naming = set<nat> -> int

  function Build(edges: map<Pair, nat>, minimum: int, group: seq<Document>): Transaction {
    Transaction(group, if |group| > 1 then Some(TransactionScore(edges, minimum, group)) else None)
  }

  function Ids(documents: seq<Document>): set<nat> {
    set d | d in documents :: d.id
  }

  /** By the time of the first document, then by the derived identifier. */
  function TransactionOrder(name: Naming): Transaction -> seq<int> {
    (t: Transaction) => [if t.documents == [] then 0 else t.documents[0].time, name(Ids(t.documents))]
  }

  function BuildAll(groups: map<nat, seq<Document>>, edges: map<Pair, nat>, minimum: int,
                    roots: seq<nat>): (r: seq<Transaction>)
    requires forall i :: 0 <= i < |roots| ==> roots[i] in groups
  {
    seq(|roots|, i requires 0 <= i < |roots| => Build(edges, minimum, groups[roots[i]]))
  }

  /** All unique candidate pairs with their scores. */
  function EdgeScores(docs: Archive, candidates: set<Pair>, s: Settings): map<Pair, nat> {
    map p | p in UniquePairs(docs, candidates) :: Weight(docs, s, p.0, p.1)
  }

  lemma ScoredEdges(edges: map<Pair, nat>, docs: Archive, candidates: set<Pair>, s: Settings)
    requires edges.Keys == UniquePairs(docs, candidates)
    requires forall p :: p in edges ==> edges[p] == Weight(docs, s, p.0, p.1)
    ensures edges == EdgeScores(docs, candidates, s)
  {
  }

  lemma RootsListed(groups: map<nat, seq<Document>>)
    ensures forall i :: 0 <= i < |Arranged(groups.Keys, IdOrder())| ==> Arranged(groups.Keys, IdOrder())[i] in groups
  {
    ArrangedElements(groups.Keys, IdOrder());
    forall i | 0 <= i < |Arranged(groups.Keys, IdOrder())| ensures Arranged(groups.Keys, IdOrder())[i] in groups {
      assert Arranged(groups.Keys, IdOrder())[i] in Arranged(groups.Keys, IdOrder());
    }
  }

  ghost function InOrder(groups: map<nat, seq<Document>>, edges: map<Pair, nat>, minimum: int,
                         name: Naming): seq<Transaction> {
    RootsListed(groups);
    SortBy(BuildAll(groups, edges, minimum, Arranged(groups.Keys, IdOrder())), TransactionOrder(name))
  }

  /** The tuple that the engine returns for documents in processing order and a set of candidate pairs. */
  ghost function Report(ordered: seq<Document>, candidates: set<Pair>, s: Settings, name: Naming): seq<Transaction> {
    InOrder(Outcome(ordered, candidates, s), EdgeScores(ById(ordered), candidates, s), s.minimumScore, name)
  }

  method BuildGroups(groups: map<nat, seq<Document>>, edges: map<Pair, nat>, minimum: int, roots: seq<nat>)
    returns (built: seq<Transaction>)
    requires forall i :: 0 <= i < |roots| ==> roots[i] in groups
    ensures built == BuildAll(groups, edges, minimum, roots)
  {
    built := [];
    for i := 0 to |roots|
      invariant |built| == i
      invariant forall j :: 0 <= j < i ==> built[j] == Build(edges, minimum, groups[roots[j]])
    {
      built := built + [Build(edges, minimum, groups[roots[i]])];
    }
  }

  /** The transactions of the groups, in their final order. */
  method BuildTransactions(groups: map<nat, seq<Document>>, edges: map<Pair, nat>, minimum: int, name: Naming)
    returns (transactions: seq<Transaction>)
    ensures transactions == InOrder(groups, edges, minimum, name)
  {
    var roots := SortedIds(groups.Keys);
    RootsListed(groups);
    var built := BuildGroups(groups, edges, minimum, roots);
    transactions := SortBy(built, TransactionOrder(name));
  }

  method ListAllPairs(ordered: seq<Document>) returns (pairs: seq<Pair>)
    ensures AsSet(pairs) == AllPairs(ordered)
  {
    pairs := [];
    for i := 0 to |ordered|
      invariant forall p :: p in pairs <==>
                exists k, l :: 0 <= k < i && k < l < |ordered| && p == (ordered[k].id, ordered[l].id)
    {
      ghost var before := pairs;
      for j := i + 1 to |ordered|
        invariant forall p :: p in pairs <==>
                  p in before || exists l :: i < l < j && p == (ordered[i].id, ordered[l].id)
      {
        pairs := pairs + [(ordered[i].id, ordered[j].id)];
      }
    }
  }

  /** `correlate`: all pairs. */
  method Correlate(documents: seq<Document>, s: Settings, name: Naming) returns (transactions: seq<Transaction>)
    ensures var ordered := SortBy(documents, TimeOrder()); transactions == Report(ordered, AllPairs(ordered), s, name)
  {
    var pairs := ListAllPairs(SortBy(documents, TimeOrder()));
    transactions := CorrelateCandidates(documents, pairs, s, name);
  }

  /** `correlate_candidates`: pre-blocked pairs only. */
  method CorrelateCandidates(documents: seq<Document>, candidates: seq<Pair>, s: Settings, name: Naming)
    returns (transactions: seq<Transaction>)
    ensures transactions == Report(SortBy(documents, TimeOrder()), AsSet(candidates), s, name)
  {
    var ordered := SortBy(documents, TimeOrder());
    var groups, edges := CorrelatePairs(ordered, candidates, s);
    ScoredEdges(edges, ById(ordered), AsSet(candidates), s);
    transactions := BuildTransactions(groups, edges, s.minimumScore, name);
  }

  // Determinism.

  ghost predicate Named(candidates: set<Pair>, x: nat, y: nat) {
    (x, y) in candidates || (y, x) in candidates
  }

  /** Both candidate sets name the same qualifying pairs, in whatever orientation. */
  ghost predicate SameOffers(docs: Archive, s: Settings, c1: set<Pair>, c2: set<Pair>) {
    forall x, y {:trigger Weight(docs, s, x, y)} ::
      x in docs && y in docs && x < y && Weight(docs, s, x, y) >= s.minimumScore ==>
        (Named(c1, x, y) <==> Named(c2, x, y))
  }

  lemma QualifyingMeaning(docs: Archive, s: Settings, candidates: set<Pair>, p: Pair)
    ensures p in Qualifying(docs, s, candidates) <==>
            && p.0 in docs && p.1 in docs && p.0 < p.1
            && Named(candidates, p.0, p.1) && Weight(docs, s, p.0, p.1) >= s.minimumScore
  {
    if p.0 in docs && p.1 in docs && p.0 < p.1 && Named(candidates, p.0, p.1) {
      var c: Pair := if p in candidates then p else (p.1, p.0);
      assert c in candidates && Normalised(c) == p;
    }
    if p in UniquePairs(docs, candidates) {
      var c :| c in candidates && c.0 != c.1 && c.0 in docs && c.1 in docs && Normalised(c) == p;
    }
  }

  lemma SameOffersSameQualifying(docs: Archive, s: Settings, c1: set<Pair>, c2: set<Pair>)
    requires SameOffers(docs, s, c1, c2)
    ensures Qualifying(docs, s, c1) == Qualifying(docs, s, c2)
  {
    forall p ensures p in Qualifying(docs, s, c1) <==> p in Qualifying(docs, s, c2) {
      QualifyingMeaning(docs, s, c1, p);
      QualifyingMeaning(docs, s, c2, p);
    }
  }

  lemma SameDocumentsSameOrder(a: seq<Document>, b: seq<Document>)
    requires multiset(a) == multiset(b) && DistinctIds(a)
    ensures SortBy(a, TimeOrder()) == SortBy(b, TimeOrder())
  {
    forall x, y | x in multiset(a) && y in multiset(a) && TimeOrder()(x) == TimeOrder()(y) ensures x == y {
      assert TimeOrder()(x)[1] == x.id && TimeOrder()(y)[1] == y.id;
      assert x in a && y in a;
    }
    SortForgetsOrder(a, b, TimeOrder());
  }

  /** Both maps hold the same edges at or above the threshold. */
  ghost predicate SameStrong(e1: map<Pair, nat>, e2: map<Pair, nat>, minimum: int) {
    forall p: Pair :: if p in e1 && e1[p] >= minimum then p in e2 && e2[p] == e1[p] else !(p in e2 && e2[p] >= minimum)
  }

  lemma {:induction false} SameBestLink(e1: map<Pair, nat>, e2: map<Pair, nat>, minimum: int, group: seq<Document>,
                                        x: nat)
    requires SameStrong(e1, e2, minimum)
    ensures BestLink(e1, minimum, group, x) == BestLink(e2, minimum, group, x)
    decreases |group|
  {
    if group != [] {
      SameBestLink(e1, e2, minimum, group[1..], x);
    }
  }

  lemma {:induction false} SameWeakestMember(e1: map<Pair, nat>, e2: map<Pair, nat>, minimum: int,
                                             group: seq<Document>, members: seq<Document>)
    requires SameStrong(e1, e2, minimum) && members != []
    ensures WeakestMember(e1, minimum, group, members) == WeakestMember(e2, minimum, group, members)
    decreases |members|
  {
    SameBestLink(e1, e2, minimum, group, members[0].id);
    if |members| > 1 {
      SameWeakestMember(e1, e2, minimum, group, members[1..]);
    }
  }

  /** The score of a transaction depends on the edges at or above the threshold only. */
  lemma SameStrongSameReport(groups: map<nat, seq<Document>>, e1: map<Pair, nat>, e2: map<Pair, nat>, minimum: int,
                             name: Naming)
    requires SameStrong(e1, e2, minimum)
    ensures InOrder(groups, e1, minimum, name) == InOrder(groups, e2, minimum, name)
  {
    RootsListed(groups);
    var roots := Arranged(groups.Keys, IdOrder());
    forall i | 0 <= i < |roots| ensures Build(e1, minimum, groups[roots[i]]) == Build(e2, minimum, groups[roots[i]]) {
      if |groups[roots[i]]| > 1 {
        SameWeakestMember(e1, e2, minimum, groups[roots[i]], groups[roots[i]]);
      }
    }
    assert BuildAll(groups, e1, minimum, roots) == BuildAll(groups, e2, minimum, roots);
  }

  lemma SameQualifyingSameStrong(docs: Archive, s: Settings, c1: set<Pair>, c2: set<Pair>)
    requires Qualifying(docs, s, c1) == Qualifying(docs, s, c2)
    ensures SameStrong(EdgeScores(docs, c1, s), EdgeScores(docs, c2, s), s.minimumScore)
  {
    var e1, e2 := EdgeScores(docs, c1, s), EdgeScores(docs, c2, s);
    forall p: Pair
      ensures if p in e1 && e1[p] >= s.minimumScore then p in e2 && e2[p] == e1[p]
              else !(p in e2 && e2[p] >= s.minimumScore)
    {
      assert p in Qualifying(docs, s, c1) <==> p in e1 && e1[p] >= s.minimumScore;
      assert p in Qualifying(docs, s, c2) <==> p in e2 && e2[p] >= s.minimumScore;
    }
  }

  lemma SameOffersSameReport(ordered: seq<Document>, c1: set<Pair>, c2: set<Pair>, s: Settings, name: Naming)
    requires SameOffers(ById(ordered), s, c1, c2)
    ensures Outcome(ordered, c1, s) == Outcome(ordered, c2, s)
    ensures Report(ordered, c1, s, name) == Report(ordered, c2, s, name)
  {
    SameOffersSameQualifying(ById(ordered), s, c1, c2);
    SameQualifyingSameStrong(ById(ordered), s, c1, c2);
    SameStrongSameReport(Outcome(ordered, c1, s), EdgeScores(ById(ordered), c1, s), EdgeScores(ById(ordered), c2, s),
                         s.minimumScore, name);
  }

  /**
   For documents with distinct identifiers the result, that is the groups, their scores and
   their order, depends only on the documents and on which qualifying pairs are offered:
   permuting the documents, reordering, repeating or flipping the pairs, and adding pairs below
   the threshold change nothing.
   */
  lemma OutcomeIsDeterministic(a: seq<Document>, b: seq<Document>, c1: set<Pair>, c2: set<Pair>, s: Settings,
                               name: Naming)
    requires multiset(a) == multiset(b) && DistinctIds(a)
    requires SameOffers(ById(SortBy(a, TimeOrder())), s, c1, c2)
    ensures Outcome(SortBy(a, TimeOrder()), c1, s) == Outcome(SortBy(b, TimeOrder()), c2, s)
    ensures Report(SortBy(a, TimeOrder()), c1, s, name) == Report(SortBy(b, TimeOrder()), c2, s, name)
  {
    SameDocumentsSameOrder(a, b);
    SameOffersSameReport(SortBy(a, TimeOrder()), c1, c2, s, name);
  }

  lemma AllPairsNamed(ordered: seq<Document>, x: nat, y: nat)
    requires x in ById(ordered) && y in ById(ordered) && x != y
    ensures Named(AllPairs(ordered), x, y)
  {
    ByIdKeys(ordered, x);
    ByIdKeys(ordered, y);
    var i :| 0 <= i < |ordered| && ordered[i].id == x;
    var j :| 0 <= j < |ordered| && ordered[j].id == y;
    if i < j {
      assert (ordered[i].id, ordered[j].id) in AllPairs(ordered);
    } else {
      assert (ordered[j].id, ordered[i].id) in AllPairs(ordered);
    }
  }

  /** The candidates name every qualifying pair. */
  ghost predicate OffersAll(docs: Archive, s: Settings, candidates: set<Pair>) {
    forall x, y {:trigger Weight(docs, s, x, y)} ::
      x in docs && y in docs && x < y && Weight(docs, s, x, y) >= s.minimumScore ==> Named(candidates, x, y)
  }

  lemma OffersAllLikeAllPairs(ordered: seq<Document>, candidates: set<Pair>, s: Settings)
    requires OffersAll(ById(ordered), s, candidates)
    ensures SameOffers(ById(ordered), s, candidates, AllPairs(ordered))
  {
    forall x, y | x in ById(ordered) && y in ById(ordered) && x < y ensures Named(AllPairs(ordered), x, y) {
      AllPairsNamed(ordered, x, y);
    }
  }

  /** Pre-blocking is exact when it offers every qualifying pair. */
  lemma BlockingIsExact(documents: seq<Document>, candidates: set<Pair>, s: Settings, name: Naming)
    requires OffersAll(ById(SortBy(documents, TimeOrder())), s, candidates)
    ensures var ordered := SortBy(documents, TimeOrder());
            && Outcome(ordered, candidates, s) == Outcome(ordered, AllPairs(ordered), s)
            && Report(ordered, candidates, s, name) == Report(ordered, AllPairs(ordered), s, name)
  {
    var ordered := SortBy(documents, TimeOrder());
    OffersAllLikeAllPairs(ordered, candidates, s);
    SameOffersSameReport(ordered, candidates, AllPairs(ordered), s, name);
  }

  // Bounds of the score.

  /** The contribution that the worker stores for a member: its best score with any other member. */
  function Contribution(group: seq<Document>, d: Document, s: Settings): nat {
    if group == [] then 0
    else
      var rest := Contribution(group[1..], d, s);
      if group[0].id != d.id then Max(Score(d, group[0], s), rest) else rest
  }

  lemma {:induction false} BestLinkAtLeast(edges: map<Pair, nat>, minimum: int, group: seq<Document>, x: nat, k: nat)
    requires k < |group| && group[k].id != x
    requires Normalised((x, group[k].id)) in edges && edges[Normalised((x, group[k].id))] >= minimum
    ensures BestLink(edges, minimum, group, x) >= edges[Normalised((x, group[k].id))]
    decreases |group|
  {
    if k > 0 {
      BestLinkAtLeast(edges, minimum, group[1..], x, k - 1);
    }
  }

  lemma {:induction false} BestLinkAtMost(edges: map<Pair, nat>, minimum: int, group: seq<Document>, x: nat, bound: nat)
    requires forall p :: p in edges ==> edges[p] <= bound
    ensures BestLink(edges, minimum, group, x) <= bound
    decreases |group|
  {
    if group != [] {
      BestLinkAtMost(edges, minimum, group[1..], x, bound);
    }
  }

  lemma {:induction false} WeakestMemberBounds(edges: map<Pair, nat>, minimum: int, group: seq<Document>,
                                               members: seq<Document>, low: int)
    requires members != []
    requires forall i :: 0 <= i < |members| ==> BestLink(edges, minimum, group, members[i].id) >= low
    ensures WeakestMember(edges, minimum, group, members) >= low
    ensures forall i :: 0 <= i < |members| ==>
              WeakestMember(edges, minimum, group, members) <= BestLink(edges, minimum, group, members[i].id)
    decreases |members|
  {
    if |members| > 1 {
      WeakestMemberBounds(edges, minimum, group, members[1..], low);
      forall i | 0 <= i < |members|
        ensures WeakestMember(edges, minimum, group, members) <= BestLink(edges, minimum, group, members[i].id)
      {
        if i > 0 {
          assert members[i] == members[1..][i - 1];
        }
      }
    }
  }

  /** Edges are scored in identifier order, contributions from the member's side; symmetry makes them agree. */
  ghost predicate EdgesScore(edges: map<Pair, nat>, documents: seq<Document>, s: Settings) {
    forall x, y :: x in documents && y in documents && Normalised((x.id, y.id)) in edges ==>
                     edges[Normalised((x.id, y.id))] == Score(x, y, s)
  }

  lemma {:induction false} ContributionCoversLink(edges: map<Pair, nat>, s: Settings, group: seq<Document>, d: Document)
    requires EdgesScore(edges, group + [d], s)
    ensures Contribution(group, d, s) >= BestLink(edges, s.minimumScore, group, d.id)
    decreases |group|
  {
    if group != [] {
      forall x, y | x in group[1..] + [d] && y in group[1..] + [d] && Normalised((x.id, y.id)) in edges
        ensures edges[Normalised((x.id, y.id))] == Score(x, y, s)
      {
        assert x in group + [d] && y in group + [d];
      }
      ContributionCoversLink(edges, s, group[1..], d);
      assert group[0] in group + [d] && d in group + [d];
    }
  }

  lemma EdgesScoreFromWeights(edges: map<Pair, nat>, documents: seq<Document>, s: Settings)
    requires DistinctIds(documents)
    requires forall p :: p in edges ==> edges[p] == Weight(ById(documents), s, p.0, p.1)
    ensures EdgesScore(edges, documents, s)
  {
    forall x, y | x in documents && y in documents && Normalised((x.id, y.id)) in edges
      ensures edges[Normalised((x.id, y.id))] == Score(x, y, s)
    {
      FiledUnderOwnId(documents, x);
      FiledUnderOwnId(documents, y);
      ScoreSymmetric(x, y, s);
    }
  }

  lemma FiledUnderOwnId(documents: seq<Document>, d: Document)
    requires DistinctIds(documents) && d in documents
    ensures d.id in ById(documents) && ById(documents)[d.id] == d
  {
    var i :| 0 <= i < |documents| && documents[i] == d;
    assert Filed(documents, d.id);
    ByIdKeys(documents, d.id);
  }

  /** The edge exists and reaches the threshold. */
  predicate Links(edges: map<Pair, nat>, minimum: int, x: nat, y: nat) {
    x != y && Normalised((x, y)) in edges && edges[Normalised((x, y))] >= minimum
  }

  /** An edge to a document of the episode is an edge to a document of the group. */
  lemma LinkInGroup(ordered: seq<Document>, ids: set<nat>, edges: map<Pair, nat>, minimum: int, x: nat, y: nat)
    returns (k: nat)
    requires y in ids && y in ById(ordered) && Links(edges, minimum, x, y)
    ensures k < |Members(ordered, ids)| && Links(edges, minimum, x, Members(ordered, ids)[k].id)
    ensures BestLink(edges, minimum, Members(ordered, ids), x) >= minimum
  {
    ByIdKeys(ordered, y);
    MembersMeaning(ordered, ids);
    var group := Members(ordered, ids);
    assert ById(ordered)[y] in group;
    k :| 0 <= k < |group| && group[k] == ById(ordered)[y];
    BestLinkAtLeast(edges, minimum, group, x, k);
  }

  lemma QualifyingEdge(docs: Archive, s: Settings, candidates: set<Pair>, edges: map<Pair, nat>, p: Pair)
    requires edges.Keys == UniquePairs(docs, candidates)
    requires forall q :: q in edges ==> edges[q] == Weight(docs, s, q.0, q.1)
    requires p in Qualifying(docs, s, candidates)
    ensures p in edges && edges[p] >= s.minimumScore
  {
  }

  lemma NotAlone(ordered: seq<Document>, p: Partition, r: nat, d: Document)
    requires DistinctIds(ordered) && IsPartition(p) && r in p && d in Members(ordered, p[r])
    requires exists e :: e in Members(ordered, p[r]) && e != d
    ensures d.id in p && p[d.id] == p[r] && p[d.id] != {d.id}
  {
    MembersMeaning(ordered, p[r]);
    var e :| e in Members(ordered, p[r]) && e != d;
    assert e.id != d.id && e.id in p[r] && d.id in p[r];
  }

  /** Every member of an episode of several documents has a qualifying edge to another member. */
  lemma MemberHasLink(ordered: seq<Document>, candidates: set<Pair>, s: Settings, edges: map<Pair, nat>, r: nat,
                      d: Document) returns (k: nat)
    requires DistinctIds(ordered)
    requires edges.Keys == UniquePairs(ById(ordered), candidates)
    requires forall p :: p in edges ==> edges[p] == Weight(ById(ordered), s, p.0, p.1)
    requires r in Outcome(ordered, candidates, s) && d in Outcome(ordered, candidates, s)[r]
    requires exists e :: e in Outcome(ordered, candidates, s)[r] && e != d
    ensures var group := Outcome(ordered, candidates, s)[r];
            && k < |group| && Links(edges, s.minimumScore, d.id, group[k].id)
            && BestLink(edges, s.minimumScore, group, d.id) >= s.minimumScore
  {
    var y := LinkedMember(ordered, candidates, s, r, d);
    QualifyingEdge(ById(ordered), s, candidates, edges, Normalised((d.id, y)));
    k := LinkInGroup(ordered, Cluster(ById(ordered), s, Qualifying(ById(ordered), s, candidates))[r], edges,
                     s.minimumScore, d.id, y);
  }

  lemma LinkedMember(ordered: seq<Document>, candidates: set<Pair>, s: Settings, r: nat, d: Document) returns (y: nat)
    requires DistinctIds(ordered)
    requires r in Outcome(ordered, candidates, s) && d in Outcome(ordered, candidates, s)[r]
    requires exists e :: e in Outcome(ordered, candidates, s)[r] && e != d
    ensures var pairs := Qualifying(ById(ordered), s, candidates);
            && y in ById(ordered) && y != d.id && Normalised((d.id, y)) in pairs
            && r in Cluster(ById(ordered), s, pairs) && y in Cluster(ById(ordered), s, pairs)[r]
  {
    var docs := ById(ordered);
    var pairs := Qualifying(docs, s, candidates);
    var p := Cluster(docs, s, pairs);
    ClusterSound(docs, s, pairs);
    NotAlone(ordered, p, r, d);
    y := MembersAreLinked(docs, s, pairs, d.id);
  }

  lemma GroupScoreBounds(edges: map<Pair, nat>, s: Settings, group: seq<Document>)
    requires group != [] && forall p :: p in edges ==> edges[p] <= 100
    requires forall i :: 0 <= i < |group| ==> BestLink(edges, s.minimumScore, group, group[i].id) >= s.minimumScore
    ensures s.minimumScore <= TransactionScore(edges, s.minimumScore, group) <= 100
    ensures forall i :: 0 <= i < |group| ==>
              TransactionScore(edges, s.minimumScore, group) <= BestLink(edges, s.minimumScore, group, group[i].id)
  {
    WeakestMemberBounds(edges, s.minimumScore, group, group, s.minimumScore);
    BestLinkAtMost(edges, s.minimumScore, group, group[0].id, 100);
  }

  /**
   Every transaction of several documents scores between the threshold and 100, and no
   member's stored contribution is below that score.
   */
  lemma TransactionScoreBounds(ordered: seq<Document>, candidates: set<Pair>, s: Settings, edges: map<Pair, nat>,
                               r: nat)
    requires DistinctIds(ordered)
    requires edges.Keys == UniquePairs(ById(ordered), candidates)
    requires forall p :: p in edges ==> edges[p] == Weight(ById(ordered), s, p.0, p.1)
    requires r in Outcome(ordered, candidates, s)
    requires exists d, e :: d in Outcome(ordered, candidates, s)[r] && e in Outcome(ordered, candidates, s)[r] && d != e
    ensures var group := Outcome(ordered, candidates, s)[r];
            && group != []
            && s.minimumScore <= TransactionScore(edges, s.minimumScore, group) <= 100
            && forall d :: d in group ==> Contribution(group, d, s) >= TransactionScore(edges, s.minimumScore, group)
  {
    var group := Outcome(ordered, candidates, s)[r];
    var x, y :| x in group && y in group && x != y;
    forall i | 0 <= i < |group| ensures BestLink(edges, s.minimumScore, group, group[i].id) >= s.minimumScore {
      assert (if group[i] == x then y else x) != group[i];
      var k := MemberHasLink(ordered, candidates, s, edges, r, group[i]);
    }
    EdgesAtMostHundred(ById(ordered), s, edges);
    GroupScoreBounds(edges, s, group);
    MembersMeaning(ordered, Cluster(ById(ordered), s, Qualifying(ById(ordered), s, candidates))[r]);
    forall d | d in group ensures Contribution(group, d, s) >= TransactionScore(edges, s.minimumScore, group) {
      MemberContribution(ordered, s, edges, group, d);
      var i :| 0 <= i < |group| && group[i] == d;
    }
  }

  lemma EdgesAtMostHundred(docs: Archive, s: Settings, edges: map<Pair, nat>)
    requires forall p :: p in edges ==> edges[p] == Weight(docs, s, p.0, p.1)
    ensures forall p :: p in edges ==> edges[p] <= 100
  {
    forall p | p in edges ensures edges[p] <= 100 {
      if p.0 in docs && p.1 in docs {
        ScoreAtMostHundred(docs[p.0], docs[p.1], s);
        ScoreAtMostHundred(docs[p.1], docs[p.0], s);
      }
    }
  }

  lemma MemberContribution(ordered: seq<Document>, s: Settings, edges: map<Pair, nat>, group: seq<Document>,
                           d: Document)
    requires DistinctIds(ordered) && d in group && forall x :: x in group ==> x in ordered
    requires forall p :: p in edges ==> edges[p] == Weight(ById(ordered), s, p.0, p.1)
    ensures Contribution(group, d, s) >= BestLink(edges, s.minimumScore, group, d.id)
  {
    EdgesScoreFromWeights(edges, ordered, s);
    assert forall x :: x in group + [d] ==> x in ordered;
    ContributionCoversLink(edges, s, group, d);
  }

  // The exact score.

  lemma {:induction false} BestLinkAttained(edges: map<Pair, nat>, minimum: int, group: seq<Document>, x: nat, k: nat)
    returns (best: nat)
    requires k < |group| && Links(edges, minimum, x, group[k].id)
    ensures best < |group| && Links(edges, minimum, x, group[best].id)
    ensures edges[Normalised((x, group[best].id))] == BestLink(edges, minimum, group, x)
    decreases |group|
  {
    best := 0;
    if l :| 1 <= l < |group| && Links(edges, minimum, x, group[l].id) {
      var b := BestLinkAttained(edges, minimum, group[1..], x, l - 1);
      var here := Links(edges, minimum, x, group[0].id);
      best := if here && edges[Normalised((x, group[0].id))] >= BestLink(edges, minimum, group[1..], x) then 0
              else b + 1;
    } else {
      NoLinkIsZero(edges, minimum, group[1..], x);
    }
  }

  lemma {:induction false} NoLinkIsZero(edges: map<Pair, nat>, minimum: int, group: seq<Document>, x: nat)
    requires forall l :: 0 <= l < |group| ==> !Links(edges, minimum, x, group[l].id)
    ensures BestLink(edges, minimum, group, x) == 0
    decreases |group|
  {
    if group != [] {
      assert !Links(edges, minimum, x, group[0].id);
      assert forall l :: 0 <= l < |group| - 1 ==> group[1..][l] == group[l + 1];
      NoLinkIsZero(edges, minimum, group[1..], x);
    }
  }

  lemma {:induction false} WeakestAttained(edges: map<Pair, nat>, minimum: int, group: seq<Document>,
                                           members: seq<Document>) returns (i: nat)
    requires members != []
    ensures i < |members|
    ensures WeakestMember(edges, minimum, group, members) == BestLink(edges, minimum, group, members[i].id)
    decreases |members|
  {
    i := 0;
    if |members| > 1 {
      var rest := WeakestAttained(edges, minimum, group, members[1..]);
      var first := BestLink(edges, minimum, group, members[0].id);
      i := if first <= BestLink(edges, minimum, group, members[rest + 1].id) then 0 else rest + 1;
    }
  }

  /** The two documents were offered to the engine and score at least the threshold. */
  ghost predicate Joinable(candidates: set<Pair>, s: Settings, a: Document, b: Document) {
    a.id != b.id && Named(candidates, a.id, b.id) && Score(a, b, s) >= s.minimumScore
  }

  ghost predicate HasPartner(group: seq<Document>, candidates: set<Pair>, s: Settings, a: Document, score: nat) {
    exists b :: b in group && Joinable(candidates, s, a, b) && Score(a, b, s) >= score
  }

  ghost predicate NoneAbove(group: seq<Document>, candidates: set<Pair>, s: Settings, a: Document, score: nat) {
    forall b :: b in group && Joinable(candidates, s, a, b) ==> Score(a, b, s) <= score
  }

  /** Every member has a joinable partner of at least this score, and some member has none above it. */
  ghost predicate IsEpisodeScore(group: seq<Document>, candidates: set<Pair>, s: Settings, score: nat) {
    && (forall a :: a in group ==> HasPartner(group, candidates, s, a, score))
    && (exists a :: a in group && NoneAbove(group, candidates, s, a, score))
  }

  lemma LinksAreJoinable(ordered: seq<Document>, candidates: set<Pair>, s: Settings, a: Document, b: Document)
    requires DistinctIds(ordered) && a in ordered && b in ordered
    ensures var edges := EdgeScores(ById(ordered), candidates, s);
            && (Links(edges, s.minimumScore, a.id, b.id) <==> Joinable(candidates, s, a, b))
            && (Joinable(candidates, s, a, b) ==> edges[Normalised((a.id, b.id))] == Score(a, b, s))
  {
    var docs := ById(ordered);
    var edges := EdgeScores(docs, candidates, s);
    EdgesScoreFromWeights(edges, ordered, s);
    FiledUnderOwnId(ordered, a);
    FiledUnderOwnId(ordered, b);
    if a.id != b.id {
      OfferedEdge(docs, candidates, s, a.id, b.id);
    }
  }

  lemma OfferedEdge(docs: Archive, candidates: set<Pair>, s: Settings, x: nat, y: nat)
    requires x in docs && y in docs && x != y
    ensures Normalised((x, y)) in EdgeScores(docs, candidates, s) <==> Named(candidates, x, y)
  {
    var p := Normalised((x, y));
    if Named(candidates, x, y) {
      var c: Pair := if (x, y) in candidates then (x, y) else (y, x);
      assert c in candidates && Normalised(c) == p;
    }
    if p in UniquePairs(docs, candidates) {
      var c :| c in candidates && c.0 != c.1 && c.0 in docs && c.1 in docs && Normalised(c) == p;
    }
  }

  ghost predicate Partnered(group: seq<Document>, candidates: set<Pair>, s: Settings) {
    forall i :: 0 <= i < |group| ==> PartnerOf(group, candidates, s, i)
  }

  ghost predicate PartnerOf(group: seq<Document>, candidates: set<Pair>, s: Settings, i: nat)
    requires i < |group|
  {
    exists k :: 0 <= k < |group| && Joinable(candidates, s, group[i], group[k])
  }

  ghost function GroupScore(ordered: seq<Document>, candidates: set<Pair>, s: Settings, group: seq<Document>): nat
    requires group != []
  {
    TransactionScore(EdgeScores(ById(ordered), candidates, s), s.minimumScore, group)
  }

  lemma ScoreIsReached(ordered: seq<Document>, candidates: set<Pair>, s: Settings, group: seq<Document>, i: nat)
    requires DistinctIds(ordered) && i < |group| && forall d :: d in group ==> d in ordered
    requires PartnerOf(group, candidates, s, i)
    ensures HasPartner(group, candidates, s, group[i], GroupScore(ordered, candidates, s, group))
  {
    var b := BestPartner(ordered, candidates, s, group, i);
    WeakestMemberBounds(EdgeScores(ById(ordered), candidates, s), s.minimumScore, group, group, 0);
  }

  lemma ScoreIsAttained(ordered: seq<Document>, candidates: set<Pair>, s: Settings, group: seq<Document>)
    returns (w: nat)
    requires DistinctIds(ordered) && group != [] && forall d :: d in group ==> d in ordered
    ensures w < |group| && NoneAbove(group, candidates, s, group[w], GroupScore(ordered, candidates, s, group))
  {
    var edges := EdgeScores(ById(ordered), candidates, s);
    w := WeakestAttained(edges, s.minimumScore, group, group);
    forall b | b in group && Joinable(candidates, s, group[w], b)
      ensures Score(group[w], b, s) <= GroupScore(ordered, candidates, s, group)
    {
      var k :| 0 <= k < |group| && group[k] == b;
      LinksAreJoinable(ordered, candidates, s, group[w], b);
      BestLinkAtLeast(edges, s.minimumScore, group, group[w].id, k);
    }
  }

  /** The engine's score of a group is the least, over the members, of the best score of a joinable partner. */
  lemma GroupScoreIsExact(ordered: seq<Document>, candidates: set<Pair>, s: Settings, group: seq<Document>)
    requires DistinctIds(ordered) && group != [] && forall d :: d in group ==> d in ordered
    requires Partnered(group, candidates, s)
    ensures IsEpisodeScore(group, candidates, s, GroupScore(ordered, candidates, s, group))
  {
    var score := GroupScore(ordered, candidates, s, group);
    forall a | a in group ensures HasPartner(group, candidates, s, a, score) {
      var i :| 0 <= i < |group| && group[i] == a;
      ScoreIsReached(ordered, candidates, s, group, i);
    }
    var w := ScoreIsAttained(ordered, candidates, s, group);
    assert group[w] in group;
  }

  lemma BestPartner(ordered: seq<Document>, candidates: set<Pair>, s: Settings, group: seq<Document>, i: nat)
    returns (b: Document)
    requires DistinctIds(ordered) && i < |group| && forall d :: d in group ==> d in ordered
    requires PartnerOf(group, candidates, s, i)
    ensures b in group && Joinable(candidates, s, group[i], b)
    ensures var edges := EdgeScores(ById(ordered), candidates, s);
            Score(group[i], b, s) == BestLink(edges, s.minimumScore, group, group[i].id)
  {
    var edges := EdgeScores(ById(ordered), candidates, s);
    var k :| 0 <= k < |group| && Joinable(candidates, s, group[i], group[k]);
    LinksAreJoinable(ordered, candidates, s, group[i], group[k]);
    var best := BestLinkAttained(edges, s.minimumScore, group, group[i].id, k);
    b := group[best];
    LinksAreJoinable(ordered, candidates, s, group[i], b);
  }

  // The report.

  ghost predicate BuiltFrom(groups: map<nat, seq<Document>>, edges: map<Pair, nat>, minimum: int, t: Transaction) {
    exists r :: r in groups && t == Build(edges, minimum, groups[r])
  }

  lemma BuildAllMembers(groups: map<nat, seq<Document>>, edges: map<Pair, nat>, minimum: int, roots: seq<nat>,
                        t: Transaction)
    requires forall r :: r in roots <==> r in groups
    ensures t in BuildAll(groups, edges, minimum, roots) <==> BuiltFrom(groups, edges, minimum, t)
  {
    var built := BuildAll(groups, edges, minimum, roots);
    if t in built {
      var i :| 0 <= i < |built| && built[i] == t;
      assert roots[i] in groups;
    }
    if r :| r in groups && t == Build(edges, minimum, groups[r]) {
      assert r in roots;
      var i :| 0 <= i < |roots| && roots[i] == r;
      assert built[i] == t;
    }
  }

  lemma BuiltMembers(groups: map<nat, seq<Document>>, edges: map<Pair, nat>, minimum: int, name: Naming, t: Transaction)
    ensures t in InOrder(groups, edges, minimum, name) <==> BuiltFrom(groups, edges, minimum, t)
  {
    RootsListed(groups);
    ArrangedElements(groups.Keys, IdOrder());
    var roots := Arranged(groups.Keys, IdOrder());
    BuildAllMembers(groups, edges, minimum, roots, t);
    var built := BuildAll(groups, edges, minimum, roots);
    assert t in multiset(SortBy(built, TransactionOrder(name))) <==> t in multiset(built);
  }

  /** A group of the outcome with several documents has a partner for every member. */
  lemma OutcomeIsPartnered(ordered: seq<Document>, candidates: set<Pair>, s: Settings, r: nat)
    requires DistinctIds(ordered) && r in Outcome(ordered, candidates, s)
    requires NoDuplicates(Outcome(ordered, candidates, s)[r]) && |Outcome(ordered, candidates, s)[r]| > 1
    ensures forall d :: d in Outcome(ordered, candidates, s)[r] ==> d in ordered
    ensures Partnered(Outcome(ordered, candidates, s)[r], candidates, s)
  {
    var group := Outcome(ordered, candidates, s)[r];
    MembersMeaning(ordered, Cluster(ById(ordered), s, Qualifying(ById(ordered), s, candidates))[r]);
    forall i | 0 <= i < |group| ensures PartnerOf(group, candidates, s, i) {
      MemberIsPartnered(ordered, candidates, s, r, i);
    }
  }

  lemma MemberIsPartnered(ordered: seq<Document>, candidates: set<Pair>, s: Settings, r: nat, i: nat)
    requires DistinctIds(ordered) && r in Outcome(ordered, candidates, s)
    requires NoDuplicates(Outcome(ordered, candidates, s)[r]) && i < |Outcome(ordered, candidates, s)[r]|
    requires |Outcome(ordered, candidates, s)[r]| > 1
    requires forall d :: d in Outcome(ordered, candidates, s)[r] ==> d in ordered
    ensures PartnerOf(Outcome(ordered, candidates, s)[r], candidates, s, i)
  {
    var group := Outcome(ordered, candidates, s)[r];
    var other := group[if i == 0 then 1 else 0];
    assert other in group && other != group[i];
    var k := MemberHasLink(ordered, candidates, s, EdgeScores(ById(ordered), candidates, s), r, group[i]);
    assert group[i] in group && group[k] in group;
    LinksAreJoinable(ordered, candidates, s, group[i], group[k]);
  }

  lemma {:induction false} MembersDistinct(documents: seq<Document>, ids: set<nat>)
    requires NoDuplicates(documents)
    ensures NoDuplicates(Members(documents, ids))
    decreases |documents|
  {
    if documents != [] {
      var n := |documents| - 1;
      assert NoDuplicates(documents[..n]);
      MembersDistinct(documents[..n], ids);
      MembersMeaning(documents[..n], ids);
      assert documents[n] !in documents[..n];
    }
  }

  ghost predicate RightlyScored(t: Transaction, candidates: set<Pair>, s: Settings) {
    && (t.score.Some? <==> |t.documents| > 1)
    && (t.score.Some? ==> IsEpisodeScore(t.documents, candidates, s, t.score.value))
  }

  lemma OutcomeScore(ordered: seq<Document>, candidates: set<Pair>, s: Settings, r: nat)
    requires DistinctIds(ordered) && NoDuplicates(ordered) && r in Outcome(ordered, candidates, s)
    requires |Outcome(ordered, candidates, s)[r]| > 1
    ensures var group := Outcome(ordered, candidates, s)[r];
            IsEpisodeScore(group, candidates, s, GroupScore(ordered, candidates, s, group))
  {
    MembersDistinct(ordered, Cluster(ById(ordered), s, Qualifying(ById(ordered), s, candidates))[r]);
    OutcomeIsPartnered(ordered, candidates, s, r);
    GroupScoreIsExact(ordered, candidates, s, Outcome(ordered, candidates, s)[r]);
  }

  lemma OutcomeIsRight(ordered: seq<Document>, candidates: set<Pair>, s: Settings, r: nat)
    requires DistinctIds(ordered) && NoDuplicates(ordered) && r in Outcome(ordered, candidates, s)
    requires |Outcome(ordered, candidates, s)[r]| > 1
    ensures var group := Outcome(ordered, candidates, s)[r];
            RightlyScored(Transaction(group, Some(GroupScore(ordered, candidates, s, group))), candidates, s)
  {
    OutcomeScore(ordered, candidates, s, r);
  }

  lemma BuildIsRight(ordered: seq<Document>, candidates: set<Pair>, s: Settings, r: nat)
    requires DistinctIds(ordered) && NoDuplicates(ordered) && r in Outcome(ordered, candidates, s)
    ensures var group := Outcome(ordered, candidates, s)[r];
            var t := Build(EdgeScores(ById(ordered), candidates, s), s.minimumScore, group);
            t.documents == group && RightlyScored(t, candidates, s)
  {
    if |Outcome(ordered, candidates, s)[r]| > 1 {
      OutcomeIsRight(ordered, candidates, s, r);
    }
  }

  /**
   The report holds one transaction for each group and no other; a transaction of several
   documents carries the exact score of its group, and one of a single document none.
   */
  lemma ReportIsExact(ordered: seq<Document>, candidates: set<Pair>, s: Settings, name: Naming, t: Transaction)
    requires DistinctIds(ordered) && NoDuplicates(ordered) && t in Report(ordered, candidates, s, name)
    ensures RightlyScored(t, candidates, s)
    ensures exists r :: r in Outcome(ordered, candidates, s) && t.documents == Outcome(ordered, candidates, s)[r]
  {
    var edges := EdgeScores(ById(ordered), candidates, s);
    BuiltMembers(Outcome(ordered, candidates, s), edges, s.minimumScore, name, t);
    var r :| r in Outcome(ordered, candidates, s) &&
             t == Build(edges, s.minimumScore, Outcome(ordered, candidates, s)[r]);
    BuildIsRight(ordered, candidates, s, r);
  }

  lemma GroupIsReported(ordered: seq<Document>, candidates: set<Pair>, s: Settings, name: Naming, r: nat)
    requires r in Outcome(ordered, candidates, s)
    ensures exists t :: t in Report(ordered, candidates, s, name) && t.documents == Outcome(ordered, candidates, s)[r]
  {
    var groups, edges := Outcome(ordered, candidates, s), EdgeScores(ById(ordered), candidates, s);
    BuiltMembers(groups, edges, s.minimumScore, name, Build(edges, s.minimumScore, groups[r]));
  }

  /** By the time of the first document; equal times by the derived identifier. */
  lemma ReportIsOrdered(ordered: seq<Document>, candidates: set<Pair>, s: Settings, name: Naming, i: nat, j: nat)
    requires i < j < |Report(ordered, candidates, s, name)|
    ensures var a, b := Report(ordered, candidates, s, name)[i], Report(ordered, candidates, s, name)[j];
            a.documents != [] && b.documents != [] ==>
              || a.documents[0].time < b.documents[0].time
              || (a.documents[0].time == b.documents[0].time && name(Ids(a.documents)) <= name(Ids(b.documents)))
  {
    var groups, edges := Outcome(ordered, candidates, s), EdgeScores(ById(ordered), candidates, s);
    RootsListed(groups);
    var built := BuildAll(groups, edges, s.minimumScore, Arranged(groups.Keys, IdOrder()));
    SortByIsSorted(built, TransactionOrder(name));
    var report := SortBy(built, TransactionOrder(name));
    LexOfTwo(TransactionOrder(name)(report[j]), TransactionOrder(name)(report[i]));
  }
}
