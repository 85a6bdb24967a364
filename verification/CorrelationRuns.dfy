/**
 The engine's transactions as the correlation worker persists them: whatever the documents of a
 run, they are disjoint groups of those documents, as the store's correlation step assumes.
 */
module CorrelationRuns {
  import opened Ordering
  import opened Documents
  import opened Scoring
  import opened Partitions
  import opened Components
  import opened Episodes
  import opened Clustering
  import opened ClusterTheorems
  import opened Correlator
  import Transactions
  import CorrelationStore

  /** The version of every document. */
  function Versions(documents: seq<Document>): map<nat, nat> {
    if documents == [] then map[]
    else
      var n := |documents| - 1;
      Versions(documents[..n])[documents[n].id := documents[n].versionId]
  }

  lemma {:induction false} VersionsKeys(documents: seq<Document>)
    ensures Versions(documents).Keys == Transactions.Ids(documents)
    decreases |documents|
  {
    if documents != [] {
      var n := |documents| - 1;
      VersionsKeys(documents[..n]);
      assert documents == documents[..n] + [documents[n]];
      assert Transactions.Ids(documents) == Transactions.Ids(documents[..n]) + {documents[n].id};
    }
  }

  /** The engine's transactions as the store knows them. */
  function Stored(ts: seq<Transactions.Transaction>): seq<CorrelationStore.Transaction> {
    seq(|ts|, i requires 0 <= i < |ts| => CorrelationStore.Transaction(Versions(ts[i].documents), ts[i].score.Some?))
  }

  // Groups.

  lemma OneRootPerClass(p: Partition, r: nat, q: nat)
    requires IsPartition(p) && r in p && q in p && IsLeast(r, p[r]) && IsLeast(q, p[q]) && r != q
    ensures p[r] !! p[q]
  {
    var a, b := p[r], p[q];
    assert a == b ==> r == q;
    assert forall x :: x in a && x in b ==> a == b;
  }

  lemma GroupIds(ordered: seq<Document>, p: Partition, r: nat)
    requires IsPartition(p) && r in p && r in ById(ordered)
    ensures var group := Members(ordered, p[r]);
            && Transactions.Ids(group) <= p[r] && r in Transactions.Ids(group)
            && forall d :: d in group ==> d in ordered
  {
    MembersMeaning(ordered, p[r]);
    ByIdKeys(ordered, r);
    assert ById(ordered)[r] in Members(ordered, p[r]);
  }

  lemma GroupsDisjoint(ordered: seq<Document>, p: Partition, r: nat, q: nat)
    requires IsPartition(p) && r in p && q in p && IsLeast(r, p[r]) && IsLeast(q, p[q]) && r != q
    requires r in ById(ordered) && q in ById(ordered)
    ensures Transactions.Ids(Members(ordered, p[r])) !! Transactions.Ids(Members(ordered, p[q]))
  {
    GroupIds(ordered, p, r);
    GroupIds(ordered, p, q);
    OneRootPerClass(p, r, q);
  }

  // Lists of transactions.

  ghost predicate Separate(ts: seq<Transactions.Transaction>) {
    forall i, j :: 0 <= i < j < |ts| ==> Transactions.Ids(ts[i].documents) !! Transactions.Ids(ts[j].documents)
  }

  ghost predicate NoneEmpty(ts: seq<Transactions.Transaction>) {
    forall i :: 0 <= i < |ts| ==> Transactions.Ids(ts[i].documents) != {}
  }

  lemma SeparateIsDistinct(ts: seq<Transactions.Transaction>)
    requires Separate(ts) && NoneEmpty(ts)
    ensures NoDuplicates(ts)
  {
    forall i, j | 0 <= i < j < |ts| ensures ts[i] != ts[j] {
      var x :| x in Transactions.Ids(ts[i].documents);
    }
  }

  ghost predicate DrawnFrom(ts: seq<Transactions.Transaction>, documents: seq<Document>) {
    forall i, d :: 0 <= i < |ts| && d in ts[i].documents ==> d in documents
  }

  lemma SeparateUnderPermutation(a: seq<Transactions.Transaction>, b: seq<Transactions.Transaction>,
                                 documents: seq<Document>)
    requires multiset(a) == multiset(b) && Separate(b) && NoneEmpty(b) && DrawnFrom(b, documents)
    ensures Separate(a) && DrawnFrom(a, documents)
  {
    SeparateIsDistinct(b);
    SameMultisetSameElements(a, b);
    forall i, j | 0 <= i < j < |a| ensures Transactions.Ids(a[i].documents) !! Transactions.Ids(a[j].documents) {
      assert a[i] in b && a[j] in b;
      var k :| 0 <= k < |b| && b[k] == a[i];
      var l :| 0 <= l < |b| && b[l] == a[j];
      assert k != l;
    }
    forall i, d | 0 <= i < |a| && d in a[i].documents ensures d in documents {
      assert a[i] in b;
    }
  }

  lemma BuiltSeparate(ordered: seq<Document>, p: Partition, edges: map<Pair, nat>, minimum: int, roots: seq<nat>)
    requires IsPartition(p) && p.Keys == ById(ordered).Keys
    requires NoDuplicates(roots) && forall i :: 0 <= i < |roots| ==> roots[i] in Grouped(ordered, p)
    ensures var built := Transactions.BuildAll(Grouped(ordered, p), edges, minimum, roots);
            Separate(built) && NoneEmpty(built) && DrawnFrom(built, ordered)
  {
    var built := Transactions.BuildAll(Grouped(ordered, p), edges, minimum, roots);
    forall i | 0 <= i < |built|
      ensures Transactions.Ids(built[i].documents) != {} && forall d :: d in built[i].documents ==> d in ordered
    {
      GroupIds(ordered, p, roots[i]);
    }
    forall i, j | 0 <= i < j < |built|
      ensures Transactions.Ids(built[i].documents) !! Transactions.Ids(built[j].documents)
    {
      GroupsDisjoint(ordered, p, roots[i], roots[j]);
    }
  }

  /** The transactions of a run are disjoint groups of its documents. */
  lemma ReportIsSeparate(ordered: seq<Document>, candidates: set<Pair>, s: Settings, name: Transactions.Naming)
    ensures var ts := Transactions.Report(ordered, candidates, s, name);
            Separate(ts) && DrawnFrom(ts, ordered)
  {
    var docs := ById(ordered);
    var p := Cluster(docs, s, Qualifying(docs, s, candidates));
    ClusterSound(docs, s, Qualifying(docs, s, candidates));
    var groups := Outcome(ordered, candidates, s);
    var edges := Transactions.EdgeScores(docs, candidates, s);
    var roots := Arranged(groups.Keys, IdOrder());
    Transactions.RootsListed(groups);
    ArrangedElements(groups.Keys, IdOrder());
    BuiltSeparate(ordered, p, edges, s.minimumScore, roots);
    var built := Transactions.BuildAll(groups, edges, s.minimumScore, roots);
    SeparateUnderPermutation(Transactions.Report(ordered, candidates, s, name), built, ordered);
  }

  /**
   Whatever the engine returns for eligible sale documents is a correlation step that the store
   allows: the hypothesis under which its runs are sane is met by every run of the worker.
   */
  lemma ReportIsEnabled(store: CorrelationStore.Store, ordered: seq<Document>, candidates: set<Pair>, s: Settings,
                        name: Transactions.Naming, algorithm: nat, seeds: set<nat>, nonSale: set<nat>)
    requires seeds != {}
    requires forall d :: d in ordered ==> CorrelationStore.Eligible(store, d.id) && d.id !in nonSale
    ensures var ts := Stored(Transactions.Report(ordered, candidates, s, name));
            CorrelationStore.Enabled(store, CorrelationStore.Correlate(algorithm, seeds, nonSale, ts))
  {
    var report := Transactions.Report(ordered, candidates, s, name);
    ReportIsSeparate(ordered, candidates, s, name);
    forall i | 0 <= i < |report| ensures Stored(report)[i].versions.Keys == Transactions.Ids(report[i].documents) {
      VersionsKeys(report[i].documents);
    }
    forall i, x | 0 <= i < |report| && x in Stored(report)[i].versions
      ensures CorrelationStore.Eligible(store, x) && x !in nonSale
    {
      var d :| d in report[i].documents && d.id == x;
      assert d in ordered;
    }
  }
}
