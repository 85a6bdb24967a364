/**
 What `_correlate_pairs` computes, as a function of the documents and of the set of
 qualifying pairs: core documents are merged along their pairs in order of strength, then
 every auxiliary document is offered to its one best target.
 */
module Clustering {
  import opened Ordering
  import opened Documents
  import opened Scoring
  import opened Partitions
  import opened Episodes

  type Pair = (nat, nat)

  function Normalised(p: Pair): Pair {
    if p.0 <= p.1 then p else (p.1, p.0)
  }

  /** The unordered candidate pairs of two distinct known documents. */
  function UniquePairs(docs: Archive, candidates: set<Pair>): (r: set<Pair>)
    ensures forall p :: p in r ==> p.0 < p.1 && p.0 in docs && p.1 in docs
  {
    set c | c in candidates && c.0 != c.1 && c.0 in docs && c.1 in docs :: Normalised(c)
  }

  /** The score of a pair, taken in identifier order; unknown documents score nothing. */
  function Weight(docs: Archive, s: Settings, x: nat, y: nat): nat {
    if x !in docs || y !in docs then 0
    else if x <= y then Score(docs[x], docs[y], s) else Score(docs[y], docs[x], s)
  }

  function Gap(docs: Archive, x: nat, y: nat): int {
    if x in docs && y in docs then Distance(docs[x], docs[y]) else 0
  }

  predicate Qualifies(docs: Archive, s: Settings, p: Pair) {
    Weight(docs, s, p.0, p.1) >= s.minimumScore
  }

  function Qualifying(docs: Archive, s: Settings, candidates: set<Pair>): (r: set<Pair>)
    ensures WellFormed(docs, r)
  {
    set p | p in UniquePairs(docs, candidates) && Qualifies(docs, s, p)
  }

  ghost predicate WellFormed(docs: Archive, pairs: set<Pair>) {
    forall p :: p in pairs ==> p.0 < p.1 && p.0 in docs && p.1 in docs
  }

  function Auxiliaries(docs: Archive): (r: set<nat>)
    ensures r <= docs.Keys
  {
    set x | x in docs && IsAuxiliary(docs[x])
  }

  /** Strongest pair first, then the closest in time, then by identifiers. */
  function CoreOrder(docs: Archive, s: Settings): Pair -> seq<int> {
    (p: Pair) => [-(Weight(docs, s, p.0, p.1) as int), Gap(docs, p.0, p.1), p.0, p.1]
  }

  function TargetOrder(docs: Archive, s: Settings, a: nat): nat -> seq<int> {
    (t: nat) => [-(Weight(docs, s, a, t) as int), Gap(docs, a, t), t]
  }

  function IdOrder(): nat -> seq<int> {
    (a: nat) => [a]
  }

  function CorePairs(pairs: set<Pair>, aux: set<nat>): set<Pair> {
    set p | p in pairs && p.0 !in aux && p.1 !in aux
  }

  /** The core documents that an auxiliary document qualifies with. */
  function Targets(pairs: set<Pair>, aux: set<nat>, a: nat): set<nat> {
    (set p | p in pairs && p.0 == a && p.1 !in aux :: p.1) + (set p | p in pairs && p.1 == a && p.0 !in aux :: p.0)
  }

  function Attachable(pairs: set<Pair>, aux: set<nat>): set<nat> {
    set a | a in aux && Targets(pairs, aux, a) != {}
  }

  /** No other target comes before `t`. */
  ghost predicate IsFirst(targets: set<nat>, key: nat -> seq<int>, t: nat) {
    t in targets && forall u :: u in targets ==> !LexLess(key(u), key(t))
  }

  /** Seen from `a`, `t` weighs more than `u`, or as much and is closer, or as close and has the smaller identifier. */
  predicate Preferred(docs: Archive, s: Settings, a: nat, t: nat, u: nat) {
    var x, y, d, e := Weight(docs, s, a, t), Weight(docs, s, a, u), Gap(docs, a, t), Gap(docs, a, u);
    x > y || (x == y && (d < e || (d == e && t < u)))
  }

  lemma PreferredByKey(docs: Archive, s: Settings, a: nat, t: nat, u: nat)
    ensures Preferred(docs, s, a, t, u) <==> LexLess(TargetOrder(docs, s, a)(t), TargetOrder(docs, s, a)(u))
  {
    LexOfThree(TargetOrder(docs, s, a)(t), TargetOrder(docs, s, a)(u));
  }

  /** The target that is preferred to every other one. */
  ghost predicate IsBest(docs: Archive, s: Settings, targets: set<nat>, a: nat, t: nat) {
    t in targets && forall u :: u in targets && u != t ==> Preferred(docs, s, a, t, u)
  }

  lemma FirstIsBest(docs: Archive, s: Settings, targets: set<nat>, a: nat, t: nat)
    ensures IsFirst(targets, TargetOrder(docs, s, a), t) <==> IsBest(docs, s, targets, a, t)
  {
    var key := TargetOrder(docs, s, a);
    forall u | u in targets && u != t ensures !LexLess(key(u), key(t)) <==> Preferred(docs, s, a, t, u) {
      PreferredByKey(docs, s, a, u, t);
      PreferredByKey(docs, s, a, t, u);
    }
    PreferredByKey(docs, s, a, t, t);
  }

  lemma BestIsUnique(docs: Archive, s: Settings, targets: set<nat>, a: nat, t: nat, u: nat)
    requires IsBest(docs, s, targets, a, t) && IsBest(docs, s, targets, a, u)
    ensures t == u
  {
  }

  lemma FirstExists(targets: set<nat>, key: nat -> seq<int>)
    requires targets != {}
    ensures exists t :: IsFirst(targets, key, t)
  {
    var sorted := Arranged(targets, key);
    ArrangedElements(targets, key);
    SortByIsSorted(Listing(targets), key);
    var t :| t in targets;
    assert t in sorted;
    assert sorted[0] in sorted;
    forall u | u in targets ensures !LexLess(key(u), key(sorted[0])) {
      assert u in sorted;
      LexIrreflexive(key(u));
    }
    assert IsFirst(targets, key, sorted[0]);
  }

  /** The one that is preferred among an auxiliary document's targets. */
  ghost function BestTarget(docs: Archive, s: Settings, targets: set<nat>, a: nat): (t: nat)
    requires targets != {}
    ensures IsBest(docs, s, targets, a, t)
  {
    FirstExists(targets, TargetOrder(docs, s, a));
    var t :| IsFirst(targets, TargetOrder(docs, s, a), t);
    FirstIsBest(docs, s, targets, a, t);
    t
  }

  function Offers(ids: seq<nat>, target: map<nat, nat>): (r: seq<Pair>)
    requires forall i :: 0 <= i < |ids| ==> ids[i] in target
  {
    seq(|ids|, i requires 0 <= i < |ids| => (ids[i], target[ids[i]]))
  }

  /** The one parent of every attachable auxiliary document. */
  ghost function Parents(docs: Archive, s: Settings, pairs: set<Pair>, aux: set<nat>): map<nat, nat> {
    map a | a in Attachable(pairs, aux) :: BestTarget(docs, s, Targets(pairs, aux, a), a)
  }

  ghost function CoreSequence(docs: Archive, s: Settings, pairs: set<Pair>): seq<Pair> {
    Arranged(CorePairs(pairs, Auxiliaries(docs)), CoreOrder(docs, s))
  }

  lemma AttachableIds(pairs: set<Pair>, aux: set<nat>)
    ensures var ids := Arranged(Attachable(pairs, aux), IdOrder());
            && (forall i :: 0 <= i < |ids| ==> ids[i] in Attachable(pairs, aux))
            && NoDuplicates(ids)
  {
    var ids := Arranged(Attachable(pairs, aux), IdOrder());
    ArrangedElements(Attachable(pairs, aux), IdOrder());
    forall i | 0 <= i < |ids| ensures ids[i] in Attachable(pairs, aux) {
      assert ids[i] in ids;
    }
  }

  ghost function AttachmentSequence(docs: Archive, s: Settings, pairs: set<Pair>): seq<Pair> {
    var aux := Auxiliaries(docs);
    AttachableIds(pairs, aux);
    Offers(Arranged(Attachable(pairs, aux), IdOrder()), Parents(docs, s, pairs, aux))
  }

  lemma CoreSequenceFacts(docs: Archive, s: Settings, pairs: set<Pair>)
    requires WellFormed(docs, pairs)
    ensures PairsIn(Singletons(docs.Keys), CoreSequence(docs, s, pairs))
    ensures forall p :: p in CoreSequence(docs, s, pairs) <==> p in CorePairs(pairs, Auxiliaries(docs))
  {
    ArrangedElements(CorePairs(pairs, Auxiliaries(docs)), CoreOrder(docs, s));
    var core := CoreSequence(docs, s, pairs);
    forall i | 0 <= i < |core| ensures core[i].0 in docs && core[i].1 in docs {
      assert core[i] in core;
    }
  }

  lemma TargetFacts(docs: Archive, pairs: set<Pair>, a: nat, t: nat)
    requires WellFormed(docs, pairs) && t in Targets(pairs, Auxiliaries(docs), a)
    ensures a in docs && t in docs && t !in Auxiliaries(docs) && Normalised((a, t)) in pairs
  {
  }

  lemma AttachmentFacts(docs: Archive, s: Settings, pairs: set<Pair>)
    requires WellFormed(docs, pairs)
    ensures var r, aux := AttachmentSequence(docs, s, pairs), Auxiliaries(docs);
            && (forall i :: 0 <= i < |r| ==>
                  && r[i].0 in Attachable(pairs, aux)
                  && r[i].1 == Parents(docs, s, pairs, aux)[r[i].0]
                  && IsBest(docs, s, Targets(pairs, aux, r[i].0), r[i].0, r[i].1)
                  && r[i].0 in docs && r[i].1 in docs
                  && r[i].0 in aux && r[i].1 !in aux
                  && Normalised(r[i]) in pairs)
            && (forall i, j :: 0 <= i < j < |r| ==> r[i].0 != r[j].0)
  {
    var r, aux := AttachmentSequence(docs, s, pairs), Auxiliaries(docs);
    AttachableIds(pairs, aux);
    forall i | 0 <= i < |r|
      ensures r[i].0 in docs && r[i].1 in docs && r[i].1 !in aux && Normalised(r[i]) in pairs
    {
      TargetFacts(docs, pairs, r[i].0, r[i].1);
    }
  }

  /** The episodes after the core phase. */
  ghost function CoreEpisodes(docs: Archive, s: Settings, pairs: set<Pair>): Partition
    requires WellFormed(docs, pairs)
  {
    CoreSequenceFacts(docs, s, pairs);
    MergeAll(EpisodeGuard(docs), Singletons(docs.Keys), CoreSequence(docs, s, pairs))
  }

  lemma AttachmentsInEpisodes(docs: Archive, s: Settings, pairs: set<Pair>)
    requires WellFormed(docs, pairs)
    ensures PairsIn(CoreEpisodes(docs, s, pairs), AttachmentSequence(docs, s, pairs))
  {
    CoreSequenceFacts(docs, s, pairs);
    AttachmentFacts(docs, s, pairs);
  }

  /** The final episodes. */
  ghost function Cluster(docs: Archive, s: Settings, pairs: set<Pair>): Partition
    requires WellFormed(docs, pairs)
  {
    AttachmentsInEpisodes(docs, s, pairs);
    MergeAll(EpisodeGuard(docs), CoreEpisodes(docs, s, pairs), AttachmentSequence(docs, s, pairs))
  }
}
