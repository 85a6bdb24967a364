/**
 The engine's clustering loop, `_correlate_pairs`, up to the grouping of the documents, proved
 to compute `Clustering.Cluster`.
 */
module Correlator {
  import opened Ordering
  import opened Documents
  import opened Scoring
  import opened Partitions
  import opened Components
  import opened Episodes
  import opened Clustering
  import opened ClusterTheorems

  /** Documents by identifier; a repeated identifier keeps its last document. */
  function ById(documents: seq<Document>): Archive {
    if documents == [] then map[]
    else
      var n := |documents| - 1;
      ById(documents[..n])[documents[n].id := documents[n]]
  }

  function AsSet(pairs: seq<Pair>): set<Pair> {
    set p | p in pairs
  }

  /** The documents of an episode, in the given order. */
  function Members(documents: seq<Document>, ids: set<nat>): seq<Document> {
    if documents == [] then []
    else
      var n := |documents| - 1;
      Members(documents[..n], ids) + (if documents[n].id in ids then [documents[n]] else [])
  }

  /** Every episode under its smallest identifier. */
  ghost function Grouped(documents: seq<Document>, p: Partition): map<nat, seq<Document>> {
    map r | r in p && IsLeast(r, p[r]) :: Members(documents, p[r])
  }

  /** What the engine returns for a document list in processing order and a set of candidate pairs. */
  ghost function Outcome(ordered: seq<Document>, candidates: set<Pair>, s: Settings): map<nat, seq<Document>> {
    Grouped(ordered, Cluster(ById(ordered), s, Qualifying(ById(ordered), s, candidates)))
  }

  method CollectPairs(docs: Archive, candidates: seq<Pair>) returns (unique: set<Pair>)
    ensures unique == UniquePairs(docs, AsSet(candidates))
  {
    unique := {};
    for i := 0 to |candidates|
      invariant unique == UniquePairs(docs, AsSet(candidates[..i]))
    {
      var c := candidates[i];
      assert AsSet(candidates[..i + 1]) == AsSet(candidates[..i]) + {c};
      if c.0 != c.1 && c.0 in docs && c.1 in docs {
        unique := unique + {if c.0 <= c.1 then c else (c.1, c.0)};
      }
    }
    assert candidates[..|candidates|] == candidates;
  }

  method ScorePairs(docs: Archive, unique: set<Pair>, s: Settings) returns (edges: map<Pair, nat>)
    requires WellFormed(docs, unique)
    ensures edges.Keys == unique
    ensures forall p :: p in edges ==> edges[p] == Weight(docs, s, p.0, p.1)
  {
    edges := map[];
    var todo := unique;
    while todo != {}
      invariant todo <= unique && edges.Keys == unique - todo
      invariant forall p :: p in edges ==> edges[p] == Weight(docs, s, p.0, p.1)
      decreases todo
    {
      var p :| p in todo;
      edges := edges[p := Score(docs[p.0], docs[p.1], s)];
      todo := todo - {p};
    }
  }

  /** The two edge lists list the core pairs and the targets of every auxiliary document. */
  ghost predicate Sorted(pairs: set<Pair>, aux: set<nat>, core: seq<Pair>, targets: map<nat, seq<nat>>) {
    && NoDuplicates(core)
    && (forall p :: p in core <==> p in CorePairs(pairs, aux))
    && targets.Keys == Attachable(pairs, aux)
    && (forall a :: a in targets ==> ListsTargets(pairs, aux, a, targets[a]))
  }

  ghost predicate ListsTargets(pairs: set<Pair>, aux: set<nat>, a: nat, listed: seq<nat>) {
    NoDuplicates(listed) && forall t :: t in listed <==> t in Targets(pairs, aux, a)
  }

  lemma TargetsGrow(pairs: set<Pair>, aux: set<nat>, p: Pair, a: nat)
    ensures Targets(pairs + {p}, aux, a) ==
            Targets(pairs, aux, a) + (if p.0 == a && p.1 !in aux then {p.1} else {})
                                   + (if p.1 == a && p.0 !in aux then {p.0} else {})
  {
    forall t ensures t in Targets(pairs + {p}, aux, a) <==>
                     || t in Targets(pairs, aux, a)
                     || (p.0 == a && p.1 !in aux && t == p.1)
                     || (p.1 == a && p.0 !in aux && t == p.0)
    {
      if t in Targets(pairs, aux, a) {
        assert (a, t) in pairs || (t, a) in pairs;
        assert (a, t) in pairs + {p} || (t, a) in pairs + {p};
      }
    }
  }

  lemma SortedCore(pairs: set<Pair>, aux: set<nat>, core: seq<Pair>, targets: map<nat, seq<nat>>, p: Pair)
    requires Sorted(pairs, aux, core, targets) && p !in pairs && p.0 !in aux && p.1 !in aux
    ensures Sorted(pairs + {p}, aux, core + [p], targets)
  {
    forall a | a in aux ensures Targets(pairs + {p}, aux, a) == Targets(pairs, aux, a) {
      TargetsGrow(pairs, aux, p, a);
    }
    assert Attachable(pairs + {p}, aux) == Attachable(pairs, aux);
    assert p !in core;
    AppendNew(core, p);
  }

  lemma AppendNew<T>(s: seq<T>, x: T)
    requires NoDuplicates(s) && x !in s
    ensures NoDuplicates(s + [x])
    ensures forall y :: y in s + [x] <==> y in s || y == x
  {
  }

  lemma SortedBothAux(pairs: set<Pair>, aux: set<nat>, core: seq<Pair>, targets: map<nat, seq<nat>>, p: Pair)
    requires Sorted(pairs, aux, core, targets) && p.0 in aux && p.1 in aux
    ensures Sorted(pairs + {p}, aux, core, targets)
  {
    forall a | a in aux ensures Targets(pairs + {p}, aux, a) == Targets(pairs, aux, a) {
      TargetsGrow(pairs, aux, p, a);
    }
    assert Attachable(pairs + {p}, aux) == Attachable(pairs, aux);
  }

  /** `p` is a new pair of the auxiliary document `a` and the core document `t`. */
  ghost predicate NewTarget(pairs: set<Pair>, aux: set<nat>, p: Pair, a: nat, t: nat) {
    (p == (a, t) || p == (t, a)) && (t, a) !in pairs && (a, t) !in pairs && a in aux && t !in aux
  }

  lemma TargetListed(pairs: set<Pair>, aux: set<nat>, p: Pair, a: nat, t: nat, listed: seq<nat>)
    requires NewTarget(pairs, aux, p, a, t) && ListsTargets(pairs, aux, a, listed)
    ensures ListsTargets(pairs + {p}, aux, a, listed + [t])
  {
    TargetsGrow(pairs, aux, p, a);
    assert t !in Targets(pairs, aux, a);
    AppendNew(listed, t);
  }

  lemma TargetSets(pairs: set<Pair>, aux: set<nat>, p: Pair, a: nat, t: nat)
    requires NewTarget(pairs, aux, p, a, t)
    ensures forall b :: b in aux && b != a ==> Targets(pairs + {p}, aux, b) == Targets(pairs, aux, b)
    ensures Attachable(pairs + {p}, aux) == Attachable(pairs, aux) + {a}
    ensures CorePairs(pairs + {p}, aux) == CorePairs(pairs, aux)
  {
    forall b | b in aux && b != a ensures Targets(pairs + {p}, aux, b) == Targets(pairs, aux, b) {
      TargetsGrow(pairs, aux, p, b);
    }
    TargetsGrow(pairs, aux, p, a);
    assert t in Targets(pairs + {p}, aux, a);
  }

  lemma SortedTarget(pairs: set<Pair>, aux: set<nat>, core: seq<Pair>, targets: map<nat, seq<nat>>, p: Pair, a: nat,
                     t: nat)
    requires Sorted(pairs, aux, core, targets) && NewTarget(pairs, aux, p, a, t)
    ensures Sorted(pairs + {p}, aux, core, targets[a := (if a in targets then targets[a] else []) + [t]])
  {
    var was := if a in targets then targets[a] else [];
    TargetSets(pairs, aux, p, a, t);
    assert ListsTargets(pairs, aux, a, was);
    TargetListed(pairs, aux, p, a, t, was);
  }

  /** The edges that reach the threshold, except those still to be looked at. */
  ghost function Strong(edges: map<Pair, nat>, minimum: int, todo: set<Pair>): set<Pair> {
    set p | p in edges && p !in todo && edges[p] >= minimum
  }

  /** Splits the qualifying edges into core pairs and targets of auxiliary documents, in any order. */
  method SplitEdges(docs: Archive, edges: map<Pair, nat>, s: Settings)
    returns (core: seq<Pair>, targets: map<nat, seq<nat>>)
    requires WellFormed(docs, edges.Keys)
    requires forall p :: p in edges ==> edges[p] == Weight(docs, s, p.0, p.1)
    ensures Sorted(Strong(edges, s.minimumScore, {}), Auxiliaries(docs), core, targets)
  {
    core, targets := [], map[];
    var todo := edges.Keys;
    ghost var done: set<Pair> := {};
    ghost var aux := Auxiliaries(docs);
    while todo != {}
      invariant todo <= edges.Keys && done == Strong(edges, s.minimumScore, todo)
      invariant Sorted(done, aux, core, targets)
      decreases todo
    {
      var p :| p in todo;
      todo := todo - {p};
      if edges[p] < s.minimumScore {
        assert done == Strong(edges, s.minimumScore, todo);
        continue;
      }
      var leftAux, rightAux := IsAuxiliary(docs[p.0]), IsAuxiliary(docs[p.1]);
      assert done + {p} == Strong(edges, s.minimumScore, todo);
      if leftAux && rightAux {
        SortedBothAux(done, aux, core, targets, p);
      } else if leftAux || rightAux {
        var a, t := if leftAux then p.0 else p.1, if leftAux then p.1 else p.0;
        assert forall q :: q in done ==> q.0 < q.1;
        SortedTarget(done, aux, core, targets, p, a, t);
        targets := targets[a := (if a in targets then targets[a] else []) + [t]];
      } else {
        SortedCore(done, aux, core, targets, p);
        core := core + [p];
      }
      done := done + {p};
    }
  }

  lemma CoreOrderInjective(docs: Archive, s: Settings, x: Pair, y: Pair)
    requires CoreOrder(docs, s)(x) == CoreOrder(docs, s)(y)
    ensures x == y
  {
    var a, b := CoreOrder(docs, s)(x), CoreOrder(docs, s)(y);
    assert a[2] == x.0 && b[2] == y.0 && a[3] == x.1 && b[3] == y.1;
  }

  lemma IdOrderInjective(x: nat, y: nat)
    requires IdOrder()(x) == IdOrder()(y)
    ensures x == y
  {
    assert IdOrder()(x)[0] == x && IdOrder()(y)[0] == y;
  }

  method SortedIds(ids: set<nat>) returns (r: seq<nat>)
    ensures r == Arranged(ids, IdOrder())
  {
    forall a, b | a in ids && b in ids && IdOrder()(a) == IdOrder()(b) ensures a == b {
      IdOrderInjective(a, b);
    }
    r := SortedSet(ids, IdOrder());
  }

  lemma SortedCoreIsSequence(docs: Archive, s: Settings, pairs: set<Pair>, core: seq<Pair>)
    requires NoDuplicates(core) && forall p :: p in core <==> p in CorePairs(pairs, Auxiliaries(docs))
    ensures SortBy(core, CoreOrder(docs, s)) == CoreSequence(docs, s, pairs)
  {
    forall x, y | x in CorePairs(pairs, Auxiliaries(docs)) && y in CorePairs(pairs, Auxiliaries(docs)) &&
                  CoreOrder(docs, s)(x) == CoreOrder(docs, s)(y)
      ensures x == y
    {
      CoreOrderInjective(docs, s, x, y);
    }
    SortIsArranged(core, CorePairs(pairs, Auxiliaries(docs)), CoreOrder(docs, s));
  }

  /** Unions along a list of pairs. */
  method JoinAll(uf: UnionFind, sequence: seq<Pair>)
    requires uf.Valid() && PairsIn(uf.classes, sequence)
    modifies uf
    ensures uf.Valid() && uf.classes == MergeAll(uf.ok, old(uf.classes), sequence)
  {
    for i := 0 to |sequence|
      invariant uf.Valid() && uf.classes == MergeAll(uf.ok, old(uf.classes), sequence[..i])
    {
      var _ := uf.Union(sequence[i].0, sequence[i].1);
      assert sequence[..i + 1][..i] == sequence[..i];
    }
    assert sequence[..|sequence|] == sequence;
  }

  /** Python's `min` of an auxiliary document's targets. */
  method PickTarget(docs: Archive, s: Settings, ghost targets: set<nat>, a: nat, listed: seq<nat>) returns (best: nat)
    requires targets != {} && forall t :: t in listed <==> t in targets
    ensures IsBest(docs, s, targets, a, best) && best == BestTarget(docs, s, targets, a)
  {
    ghost var t :| t in targets;
    assert t in listed;
    var key := TargetOrder(docs, s, a);
    best := listed[0];
    LexIrreflexive(key(best));
    for i := 1 to |listed|
      invariant best in targets
      invariant forall j :: 0 <= j < i ==> !LexLess(key(listed[j]), key(best))
    {
      if LexLess(key(listed[i]), key(best)) {
        forall j | 0 <= j < i ensures !LexLess(key(listed[j]), key(listed[i])) {
          if LexLess(key(listed[j]), key(listed[i])) {
            LexTransitive(key(listed[j]), key(listed[i]), key(best));
          }
        }
        best := listed[i];
        LexIrreflexive(key(best));
      }
    }
    FirstIsBest(docs, s, targets, a, best);
    BestIsUnique(docs, s, targets, a, best, BestTarget(docs, s, targets, a));
  }

  /** The one best target of every auxiliary document, in the order of `ids`. */
  method ChooseTargets(docs: Archive, s: Settings, ids: seq<nat>, targets: map<nat, seq<nat>>,
                       ghost targetSets: map<nat, set<nat>>, ghost parents: map<nat, nat>)
    returns (offers: seq<Pair>)
    requires forall i :: 0 <= i < |ids| ==> ids[i] in targets && ids[i] in targetSets && ids[i] in parents
    requires forall a :: a in targetSets ==>
              a in targets && targetSets[a] != {} && forall t :: t in targets[a] <==> t in targetSets[a]
    requires forall a :: a in targetSets ==> a in parents && parents[a] == BestTarget(docs, s, targetSets[a], a)
    ensures offers == Offers(ids, parents)
  {
    offers := [];
    for i := 0 to |ids|
      invariant |offers| == i
      invariant forall j :: 0 <= j < i ==> offers[j] == (ids[j], parents[ids[j]])
    {
      var best := PickTarget(docs, s, targetSets[ids[i]], ids[i], targets[ids[i]]);
      offers := offers + [(ids[i], best)];
    }
  }

  ghost predicate Filed(documents: seq<Document>, x: nat) {
    exists i :: 0 <= i < |documents| && documents[i].id == x
  }

  lemma {:induction false} ByIdKeys(documents: seq<Document>, x: nat)
    ensures x in ById(documents) <==> Filed(documents, x)
    ensures x in ById(documents) ==> ById(documents)[x].id == x && ById(documents)[x] in documents
    decreases |documents|
  {
    if documents != [] {
      var n := |documents| - 1;
      ByIdKeys(documents[..n], x);
      if Filed(documents[..n], x) {
        var i :| 0 <= i < n && documents[..n][i].id == x;
        assert documents[i].id == x;
      }
      if Filed(documents, x) {
        var i :| 0 <= i < |documents| && documents[i].id == x;
        if i < n {
          assert documents[..n][i].id == x;
        }
      }
    }
  }

  lemma {:induction false} MembersMeaning(documents: seq<Document>, ids: set<nat>)
    ensures forall d :: d in Members(documents, ids) <==> d in documents && d.id in ids
    decreases |documents|
  {
    if documents != [] {
      MembersMeaning(documents[..|documents| - 1], ids);
    }
  }

  function GroupAt(groups: map<nat, seq<Document>>, r: nat): seq<Document> {
    if r in groups then groups[r] else []
  }

  /** The groups of the documents seen so far. */
  ghost predicate GroupsMatch(groups: map<nat, seq<Document>>, seen: seq<Document>, p: Partition) {
    && (forall r {:trigger groups[r]} :: r in groups ==> r in p && IsLeast(r, p[r]))
    && (forall r {:trigger GroupAt(groups, r)} :: r in p && IsLeast(r, p[r]) ==>
         GroupAt(groups, r) == Members(seen, p[r]))
  }

  lemma AddToGroup(groups: map<nat, seq<Document>>, seen: seq<Document>, p: Partition, d: Document, root: nat)
    requires IsPartition(p) && d.id in p && IsLeast(root, p[d.id]) && GroupsMatch(groups, seen, p)
    ensures GroupsMatch(groups[root := GroupAt(groups, root) + [d]], seen + [d], p)
  {
    var updated := groups[root := GroupAt(groups, root) + [d]];
    forall r | r in p && IsLeast(r, p[r]) ensures GroupAt(updated, r) == Members(seen + [d], p[r]) {
      MembersExtend(seen, d, p[r]);
      OneRoot(p, d.id, root, r);
      assert GroupAt(groups, r) == Members(seen, p[r]);
    }
    assert p[root] == p[d.id];
    forall r | r in updated ensures r in p && IsLeast(r, p[r]) {
      if r != root {
        assert groups[r] == updated[r];
      }
    }
  }

  lemma AddNext(groups: map<nat, seq<Document>>, documents: seq<Document>, i: nat, p: Partition, root: nat)
    requires i < |documents| && documents[i].id in p && IsLeast(root, p[documents[i].id])
    requires IsPartition(p) && GroupsMatch(groups, documents[..i], p)
    ensures GroupsMatch(groups[root := GroupAt(groups, root) + [documents[i]]], documents[..i + 1], p)
  {
    AddToGroup(groups, documents[..i], p, documents[i], root);
    assert documents[..i + 1] == documents[..i] + [documents[i]];
  }

  lemma OneRoot(p: Partition, x: nat, root: nat, r: nat)
    requires IsPartition(p) && x in p && IsLeast(root, p[x]) && r in p && IsLeast(r, p[r])
    ensures x in p[r] <==> r == root
  {
  }

  lemma MembersExtend(seen: seq<Document>, d: Document, ids: set<nat>)
    ensures Members(seen + [d], ids) == Members(seen, ids) + if d.id in ids then [d] else []
  {
    assert (seen + [d])[..|seen|] == seen;
  }

  lemma GroupsComplete(groups: map<nat, seq<Document>>, documents: seq<Document>, p: Partition)
    requires GroupsMatch(groups, documents, p) && p.Keys == ById(documents).Keys && IsPartition(p)
    ensures groups == Grouped(documents, p)
  {
    forall r | r in p && IsLeast(r, p[r]) ensures r in groups && groups[r] == Members(documents, p[r]) {
      assert GroupAt(groups, r) == Members(documents, p[r]);
      ByIdKeys(documents, r);
      MembersMeaning(documents, p[r]);
      assert ById(documents)[r] in Members(documents, p[r]);
    }
    assert forall r :: r in groups ==> groups[r] == Grouped(documents, p)[r];
  }

  lemma AllFiled(documents: seq<Document>)
    ensures forall i :: 0 <= i < |documents| ==> documents[i].id in ById(documents)
  {
    forall i | 0 <= i < |documents| ensures documents[i].id in ById(documents) {
      ByIdKeys(documents, documents[i].id);
      assert Filed(documents, documents[i].id);
    }
  }

  /** Groups the documents by the root of their component, keeping their order. */
  method CollectGroups(uf: UnionFind, ordered: seq<Document>) returns (groups: map<nat, seq<Document>>)
    requires uf.Valid() && uf.classes.Keys == ById(ordered).Keys
    modifies uf
    ensures groups == Grouped(ordered, uf.classes) && uf.classes == old(uf.classes)
  {
    groups := map[];
    ghost var p := uf.classes;
    AllFiled(ordered);
    for i := 0 to |ordered|
      invariant uf.Valid() && uf.classes == p
      invariant GroupsMatch(groups, ordered[..i], p)
    {
      var d := ordered[i];
      var root := uf.Find(d.id);
      AddNext(groups, ordered, i, p, root);
      groups := groups[root := GroupAt(groups, root) + [d]];
    }
    assert ordered[..|ordered|] == ordered;
    GroupsComplete(groups, ordered, p);
  }

  method FileDocuments(ordered: seq<Document>) returns (docs: Archive)
    ensures docs == ById(ordered)
  {
    docs := map[];
    for i := 0 to |ordered|
      invariant docs == ById(ordered[..i])
    {
      assert ordered[..i + 1][..i] == ordered[..i];
      docs := docs[ordered[i].id := ordered[i]];
    }
    assert ordered[..|ordered|] == ordered;
  }

  method OfferTargets(docs: Archive, s: Settings, ghost pairs: set<Pair>, targets: map<nat, seq<nat>>)
    returns (offers: seq<Pair>)
    requires targets.Keys == Attachable(pairs, Auxiliaries(docs))
    requires forall a :: a in targets ==> ListsTargets(pairs, Auxiliaries(docs), a, targets[a])
    ensures offers == AttachmentSequence(docs, s, pairs)
  {
    var ids := SortedIds(targets.Keys);
    AttachableIds(pairs, Auxiliaries(docs));
    ghost var targetSets := map a | a in targets :: Targets(pairs, Auxiliaries(docs), a);
    offers := ChooseTargets(docs, s, ids, targets, targetSets, Parents(docs, s, pairs, Auxiliaries(docs)));
  }

  /** Both phases of unions, from the two edge lists. */
  method JoinEpisodes(docs: Archive, s: Settings, ghost pairs: set<Pair>, core: seq<Pair>, targets: map<nat, seq<nat>>)
    returns (uf: UnionFind)
    requires WellFormed(docs, pairs) && Sorted(pairs, Auxiliaries(docs), core, targets)
    ensures fresh(uf) && uf.Valid() && uf.classes == Cluster(docs, s, pairs)
  {
    forall x | x in docs ensures EpisodeGuard(docs)({x}) {
      SingletonAdmissible(docs, x);
    }
    uf := new UnionFind(docs.Keys, EpisodeGuard(docs));
    SortedCoreIsSequence(docs, s, pairs, core);
    CoreSequenceFacts(docs, s, pairs);
    JoinAll(uf, SortBy(core, CoreOrder(docs, s)));
    var offers := OfferTargets(docs, s, pairs, targets);
    AttachmentsInEpisodes(docs, s, pairs);
    JoinAll(uf, offers);
  }

  lemma StrongEdgesQualify(docs: Archive, s: Settings, candidates: set<Pair>, edges: map<Pair, nat>)
    requires edges.Keys == UniquePairs(docs, candidates)
    requires forall p :: p in edges ==> edges[p] == Weight(docs, s, p.0, p.1)
    ensures Strong(edges, s.minimumScore, {}) == Qualifying(docs, s, candidates)
  {
  }

  /** `_correlate_pairs`: the episodes by root, and the scored edges. */
  method CorrelatePairs(ordered: seq<Document>, candidates: seq<Pair>, s: Settings)
    returns (groups: map<nat, seq<Document>>, edges: map<Pair, nat>)
    ensures groups == Outcome(ordered, AsSet(candidates), s)
    ensures edges.Keys == UniquePairs(ById(ordered), AsSet(candidates))
    ensures forall p :: p in edges ==> edges[p] == Weight(ById(ordered), s, p.0, p.1)
  {
    var docs := FileDocuments(ordered);
    var unique := CollectPairs(docs, candidates);
    edges := ScorePairs(docs, unique, s);
    var core, targets := SplitEdges(docs, edges, s);
    ghost var pairs := Qualifying(docs, s, AsSet(candidates));
    StrongEdgesQualify(docs, s, AsSet(candidates), edges);
    var uf := JoinEpisodes(docs, s, pairs, core, targets);
    ClusterSound(docs, s, pairs);
    groups := CollectGroups(uf, ordered);
  }
}
