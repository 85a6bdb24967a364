/**
 What the final episodes guarantee, for every set of documents and every set of qualifying
 pairs: admissible episodes, refusals that never go stale, auxiliary documents that never
 bridge, and connectedness by qualifying pairs.
 */
module ClusterTheorems {
  import opened Documents
  import opened Scoring
  import opened Partitions
  import opened Episodes
  import opened Clustering

  lemma SingletonsSound(docs: Archive)
    ensures Sound(EpisodeGuard(docs), Singletons(docs.Keys))
  {
    forall x | x in docs ensures EpisodeGuard(docs)(Singletons(docs.Keys)[x]) {
      SingletonAdmissible(docs, x);
    }
  }

  lemma CoreEpisodesSound(docs: Archive, s: Settings, pairs: set<Pair>)
    requires WellFormed(docs, pairs)
    ensures Sound(EpisodeGuard(docs), CoreEpisodes(docs, s, pairs))
    ensures CoreEpisodes(docs, s, pairs).Keys == docs.Keys
  {
    SingletonsSound(docs);
    CoreSequenceFacts(docs, s, pairs);
    MergeAllSound(EpisodeGuard(docs), Singletons(docs.Keys), CoreSequence(docs, s, pairs));
  }

  lemma ClusterSound(docs: Archive, s: Settings, pairs: set<Pair>)
    requires WellFormed(docs, pairs)
    ensures Sound(EpisodeGuard(docs), Cluster(docs, s, pairs))
    ensures Refines(CoreEpisodes(docs, s, pairs), Cluster(docs, s, pairs))
    ensures Cluster(docs, s, pairs).Keys == docs.Keys
  {
    CoreEpisodesSound(docs, s, pairs);
    AttachmentsInEpisodes(docs, s, pairs);
    MergeAllSound(EpisodeGuard(docs), CoreEpisodes(docs, s, pairs), AttachmentSequence(docs, s, pairs));
  }

  /**
   The final episodes partition the documents, and inside every episode no two documents
   conflict, kitchen tickets alone span at most 30 seconds, and kitchen and management
   openings lie within 30 seconds or share one explicit identity.
   */
  lemma EpisodesAreAdmissible(docs: Archive, s: Settings, pairs: set<Pair>, x: nat)
    requires WellFormed(docs, pairs) && x in docs
    ensures var p := Cluster(docs, s, pairs);
            && p.Keys == docs.Keys && IsPartition(p)
            && p[x] <= docs.Keys
            && ConflictFree(docs, p[x])
            && (KitchenOnly(docs, p[x]) ==> SpanWithin(docs, p[x], CROSS_DEPARTMENT_WINDOW))
            && (HasType(docs, Openings(docs, p[x]), KitchenOrder) &&
                HasType(docs, Openings(docs, p[x]), ManagementDocument) ==>
                  SpanWithin(docs, Openings(docs, p[x]), KITCHEN_BASELINE_WINDOW) ||
                  SharedStrongIdentity(docs, Openings(docs, p[x])))
  {
    ClusterSound(docs, s, pairs);
    assert EpisodeGuard(docs)(Cluster(docs, s, pairs)[x]);
  }

  function KitchenTickets(docs: Archive, ids: set<nat>): (r: set<nat>)
    requires ids <= docs.Keys
    ensures r <= ids
  {
    set x | x in ids && docs[x].docType == KitchenOrder
  }

  lemma RefusalReason(docs: Archive, l: set<nat>, r: set<nat>, large: set<nat>, x: nat, y: nat)
    requires EpisodeGuard(docs)(l) && EpisodeGuard(docs)(r) && !EpisodeGuard(docs)(l + r)
    requires l + r <= large <= docs.Keys && x in l && y in r
    ensures HardViolation(docs, large) ||
            (docs[x].docType == KitchenOrder && docs[y].docType == KitchenOrder &&
             !SpanWithin(docs, KitchenTickets(docs, large), CROSS_DEPARTMENT_WINDOW))
  {
    assert l + r <= docs.Keys;
    if HardViolation(docs, l + r) {
      HardViolationGrows(docs, l + r, large);
    } else {
      assert KitchenViolation(docs, l + r);
      var a, b :| a in l + r && b in l + r && docs[b].time - docs[a].time > CROSS_DEPARTMENT_WINDOW;
      assert a in KitchenTickets(docs, large) && b in KitchenTickets(docs, large);
    }
  }

  lemma StillRefused(docs: Archive, sequence: seq<Pair>, p: Partition, i: nat)
    requires PairsIn(Singletons(docs.Keys), sequence) && i < |sequence|
    requires p.Keys == docs.Keys && p[sequence[i].0] + p[sequence[i].1] <= docs.Keys
    requires Refines(MergeAll(EpisodeGuard(docs), Singletons(docs.Keys), sequence), p)
    requires !Together(p, sequence[i].0, sequence[i].1)
    ensures var (x, y) := sequence[i];
            HardViolation(docs, p[x] + p[y]) ||
            (docs[x].docType == KitchenOrder && docs[y].docType == KitchenOrder &&
             !SpanWithin(docs, KitchenTickets(docs, p[x] + p[y]), CROSS_DEPARTMENT_WINDOW))
  {
    SingletonsSound(docs);
    var (x, y) := sequence[i];
    var l, r := RefusedAtItsTurn(EpisodeGuard(docs), Singletons(docs.Keys), sequence, i);
    RefusalReason(docs, l, r, p[x] + p[y], x, y);
  }

  lemma TogetherIsAdmissible(docs: Archive, p: Partition, x: nat, y: nat)
    requires Sound(EpisodeGuard(docs), p) && x in p && y in p
    ensures p[x] <= docs.Keys && p[y] <= docs.Keys
    ensures HardViolation(docs, p[x] + p[y]) ==> !Together(p, x, y)
  {
    assert EpisodeGuard(docs)(p[x]) && EpisodeGuard(docs)(p[y]);
    if Together(p, x, y) {
      assert p[x] + p[y] == p[x];
    }
  }

  /**
   Refusals never go stale. When a qualifying pair of core documents ends in two episodes,
   the two final episodes together contain an identity or boundary conflict or an opening
   violation, however much both have grown since the refusal; the only exception is a pair
   of kitchen tickets whose episodes hold tickets more than 30 seconds apart. Conversely
   such a violation does keep the pair apart.
   */
  lemma RefusalsNeverGoStale(docs: Archive, s: Settings, pairs: set<Pair>, pair: Pair)
    requires WellFormed(docs, pairs) && pair in CorePairs(pairs, Auxiliaries(docs))
    ensures var p, x, y := Cluster(docs, s, pairs), pair.0, pair.1;
            && p.Keys == docs.Keys && p[x] <= docs.Keys && p[y] <= docs.Keys
            && (!Together(p, x, y) ==>
                  || HardViolation(docs, p[x] + p[y])
                  || (docs[x].docType == KitchenOrder && docs[y].docType == KitchenOrder &&
                      !SpanWithin(docs, KitchenTickets(docs, p[x] + p[y]), CROSS_DEPARTMENT_WINDOW)))
            && (HardViolation(docs, p[x] + p[y]) ==> !Together(p, x, y))
  {
    var p := Cluster(docs, s, pairs);
    ClusterSound(docs, s, pairs);
    CoreSequenceFacts(docs, s, pairs);
    TogetherIsAdmissible(docs, p, pair.0, pair.1);
    var sequence := CoreSequence(docs, s, pairs);
    assert pair in sequence;
    var i :| 0 <= i < |sequence| && sequence[i] == pair;
    if !Together(p, pair.0, pair.1) {
      StillRefused(docs, sequence, p, i);
    }
  }

  lemma ApartUnionAdmissible(docs: Archive, u: set<nat>)
    requires u <= docs.Keys
    requires HardViolation(docs, u) || !SpanWithin(docs, KitchenTickets(docs, u), CROSS_DEPARTMENT_WINDOW)
    ensures EpisodeGuard(docs)(u) <==> !HardViolation(docs, u) && !KitchenOnly(docs, u)
  {
    if KitchenOnly(docs, u) {
      assert KitchenTickets(docs, u) == u;
    }
    if !HardViolation(docs, u) && !KitchenOnly(docs, u) {
      assert Admissible(docs, u);
    }
  }

  /**
   Exactly when a refusal is stale: a qualifying pair of core documents that ends in two episodes
   could be joined after all if and only if the two final episodes together hold no hard violation
   and not only kitchen tickets.
   */
  lemma RefusalIsStaleExactly(docs: Archive, s: Settings, pairs: set<Pair>, pair: Pair)
    requires WellFormed(docs, pairs) && pair in CorePairs(pairs, Auxiliaries(docs))
    ensures var p, x, y := Cluster(docs, s, pairs), pair.0, pair.1;
            && p.Keys == docs.Keys && p[x] + p[y] <= docs.Keys
            && (!Together(p, x, y) ==>
                  (EpisodeGuard(docs)(p[x] + p[y]) <==>
                   !HardViolation(docs, p[x] + p[y]) && !KitchenOnly(docs, p[x] + p[y])))
  {
    RefusalsNeverGoStale(docs, s, pairs, pair);
    var p := Cluster(docs, s, pairs);
    if !Together(p, pair.0, pair.1) {
      ApartUnionAdmissible(docs, p[pair.0] + p[pair.1]);
    }
  }

  lemma AuxiliariesAloneAfterCore(docs: Archive, s: Settings, pairs: set<Pair>)
    requires WellFormed(docs, pairs)
    ensures Alone(CoreEpisodes(docs, s, pairs), Auxiliaries(docs))
  {
    SingletonsSound(docs);
    CoreSequenceFacts(docs, s, pairs);
    var sequence := CoreSequence(docs, s, pairs);
    forall i | 0 <= i < |sequence|
      ensures sequence[i].0 !in Auxiliaries(docs) && sequence[i].1 !in Auxiliaries(docs)
    {
      assert sequence[i] in sequence;
    }
    UntouchedStayAlone(EpisodeGuard(docs), Singletons(docs.Keys), sequence, Auxiliaries(docs));
  }

  /** The single best target of an auxiliary document that qualifies with some core document. */
  ghost predicate IsParentOf(docs: Archive, s: Settings, pairs: set<Pair>, a: nat, t: nat) {
    IsBest(docs, s, Targets(pairs, Auxiliaries(docs), a), a, t)
  }

  lemma ClusterOnlyAttaches(docs: Archive, s: Settings, pairs: set<Pair>)
    requires WellFormed(docs, pairs)
    ensures OnlyAttached(CoreEpisodes(docs, s, pairs), Cluster(docs, s, pairs), AttachmentSequence(docs, s, pairs),
                         Auxiliaries(docs))
  {
    CoreEpisodesSound(docs, s, pairs);
    AuxiliariesAloneAfterCore(docs, s, pairs);
    AttachmentFacts(docs, s, pairs);
    AttachmentsInEpisodes(docs, s, pairs);
    AttachAll(EpisodeGuard(docs), CoreEpisodes(docs, s, pairs), AttachmentSequence(docs, s, pairs), Auxiliaries(docs));
  }

  lemma AttachedToParent(docs: Archive, s: Settings, pairs: set<Pair>, p: Partition, a: nat)
    requires WellFormed(docs, pairs) && a in p && p[a] != {a}
    requires AloneOrAttached(p, AttachmentSequence(docs, s, pairs), a)
    ensures exists t :: IsParentOf(docs, s, pairs, a, t) && t in p[a] && t !in Auxiliaries(docs)
  {
    AttachmentFacts(docs, s, pairs);
    var offers := AttachmentSequence(docs, s, pairs);
    var i :| 0 <= i < |offers| && offers[i].0 == a && offers[i].1 in p[a];
    assert IsParentOf(docs, s, pairs, a, offers[i].1);
  }

  /**
   Auxiliary documents never bridge: dropping them from the final episodes gives back the
   episodes of the core phase, and each of them is alone or in the episode of its one best
   target, a core document.
   */
  lemma AuxiliariesNeverBridge(docs: Archive, s: Settings, pairs: set<Pair>)
    requires WellFormed(docs, pairs)
    ensures var p, core, aux := Cluster(docs, s, pairs), CoreEpisodes(docs, s, pairs), Auxiliaries(docs);
            && p.Keys == docs.Keys && core.Keys == docs.Keys
            && (forall x :: x in docs && x !in aux ==> p[x] - aux == core[x])
            && (forall a :: a in aux && p[a] != {a} ==>
                  exists t :: IsParentOf(docs, s, pairs, a, t) && t in p[a] && t !in aux)
  {
    var p, core, aux := Cluster(docs, s, pairs), CoreEpisodes(docs, s, pairs), Auxiliaries(docs);
    CoreEpisodesSound(docs, s, pairs);
    ClusterOnlyAttaches(docs, s, pairs);
    forall a | a in aux && p[a] != {a}
      ensures exists t :: IsParentOf(docs, s, pairs, a, t) && t in p[a] && t !in aux
    {
      assert AloneOrAttached(p, AttachmentSequence(docs, s, pairs), a);
      AttachedToParent(docs, s, pairs, p, a);
    }
  }

  /** Every episode of several documents has a core document. */
  lemma EpisodesHaveCore(docs: Archive, s: Settings, pairs: set<Pair>, x: nat)
    requires WellFormed(docs, pairs) && x in docs
    ensures var p := Cluster(docs, s, pairs);
            x in p && (p[x] != {x} ==> exists t :: t in p[x] && t !in Auxiliaries(docs))
  {
    AuxiliariesNeverBridge(docs, s, pairs);
    ClusterSound(docs, s, pairs);
    if x !in Auxiliaries(docs) {
      assert x in Cluster(docs, s, pairs)[x];
    }
  }

  /** Qualifying pairs, named in either order. */
  ghost function BothWays(pairs: set<Pair>): set<Pair> {
    pairs + (set p | p in pairs :: (p.1, p.0))
  }

  lemma CoreEpisodesConnected(docs: Archive, s: Settings, pairs: set<Pair>)
    requires WellFormed(docs, pairs)
    ensures var p := CoreEpisodes(docs, s, pairs); forall x :: x in p ==> Connected(BothWays(pairs), p[x])
  {
    var single, edges, core := Singletons(docs.Keys), BothWays(pairs), CoreSequence(docs, s, pairs);
    SingletonsSound(docs);
    CoreSequenceFacts(docs, s, pairs);
    CoreEpisodesSound(docs, s, pairs);
    forall x | x in single ensures Connected(edges, single[x]) {
      SingleConnected(edges, x);
    }
    forall i | 0 <= i < |core| ensures core[i] in edges {
      assert core[i] in core;
    }
    MergeAllConnected(EpisodeGuard(docs), single, core, edges);
  }

  /** However a final episode is cut in two, a qualifying pair crosses the cut. */
  lemma EpisodesAreConnected(docs: Archive, s: Settings, pairs: set<Pair>)
    requires WellFormed(docs, pairs)
    ensures Cluster(docs, s, pairs).Keys == docs.Keys
    ensures forall x :: x in docs ==> Connected(BothWays(pairs), Cluster(docs, s, pairs)[x])
  {
    var edges, offers := BothWays(pairs), AttachmentSequence(docs, s, pairs);
    CoreEpisodesSound(docs, s, pairs);
    CoreEpisodesConnected(docs, s, pairs);
    ClusterSound(docs, s, pairs);
    AttachmentsInEpisodes(docs, s, pairs);
    AttachmentFacts(docs, s, pairs);
    forall i | 0 <= i < |offers| ensures offers[i] in edges {
      assert Normalised(offers[i]) in pairs;
      assert offers[i] == Normalised(offers[i]) || offers[i] == (Normalised(offers[i]).1, Normalised(offers[i]).0);
    }
    MergeAllConnected(EpisodeGuard(docs), CoreEpisodes(docs, s, pairs), offers, edges);
  }

  lemma LinkedInside(pairs: set<Pair>, members: set<nat>, x: nat) returns (y: nat)
    requires Connected(BothWays(pairs), members) && x in members
    requires forall p :: p in pairs ==> p.0 < p.1
    ensures members != {x} ==> y in members && y != x && Normalised((x, y)) in pairs
  {
    y := x;
    if members != {x} {
      y := ConnectedLink(BothWays(pairs), members, x);
    }
  }

  /** Hence every document of a larger episode has a qualifying pair inside it. */
  lemma MembersAreLinked(docs: Archive, s: Settings, pairs: set<Pair>, x: nat) returns (y: nat)
    requires WellFormed(docs, pairs) && x in docs
    ensures var p := Cluster(docs, s, pairs);
            x in p && (p[x] != {x} ==> y in docs && y in p[x] && y != x && Normalised((x, y)) in pairs)
  {
    EpisodesAreConnected(docs, s, pairs);
    ClusterSound(docs, s, pairs);
    y := LinkedInside(pairs, Cluster(docs, s, pairs)[x], x);
  }
}
