/**
 The one refusal of `union` that can go stale: two kitchen tickets too far apart are refused
 while they are alone, and the pair is not tried again when an order has joined one of them.
 */
module StaleRefusals {
  import opened Options
  import opened Ordering
  import opened Documents
  import opened Scoring
  import opened Partitions
  import opened Episodes
  import opened Clustering

  // The union-find on the two pairs, in this order.

  lemma RefusedThenJoined(ok: Guard, members: set<nat>, x: nat, y: nat, z: nat)
    requires x in members && y in members && z in members && x != y && y != z && x != z
    requires !ok({x, y}) && ok({x, z})
    ensures PairsIn(Singletons(members), [(x, y), (x, z)])
    ensures var p := MergeAll(ok, Singletons(members), [(x, y), (x, z)]); p[x] == {x, z} && p[y] == {y}
  {
    var p, pairs := Singletons(members), [(x, y), (x, z)];
    var first: seq<Pair> := pairs[..1];
    assert first == [(x, y)] && |first[..0]| == 0;
    assert {x} + {y} == {x, y} && {x} + {z} == {x, z};
    assert MergeAll(ok, p, first) == TryMerge(ok, p, x, y) == p;
    assert MergeAll(ok, p, pairs) == TryMerge(ok, p, x, z);
  }

  lemma OrdersMakeAdmissible(docs: Archive, ids: set<nat>, z: nat)
    requires ids <= docs.Keys && ConflictFree(docs, ids)
    requires z in ids && docs[z].docType == Order
    requires forall i :: i in ids ==> docs[i].docType != ManagementDocument
    ensures EpisodeGuard(docs)(ids)
  {
    assert !KitchenOnly(docs, ids);
    assert !HasType(docs, Openings(docs, ids), ManagementDocument);
  }

  lemma TicketsRefused(docs: Archive, x: nat, y: nat)
    requires {x, y} <= docs.Keys
    requires docs[x].docType == KitchenOrder && docs[y].docType == KitchenOrder
    requires Distance(docs[x], docs[y]) > CROSS_DEPARTMENT_WINDOW
    ensures !EpisodeGuard(docs)({x, y})
  {
    assert KitchenOnly(docs, {x, y}) && !SpanWithin(docs, {x, y}, CROSS_DEPARTMENT_WINDOW);
  }

  /** Two tickets too far apart, and an order that conflicts with neither. */
  ghost predicate FarTickets(docs: Archive, x: nat, y: nat, z: nat) {
    && {x, y, z} <= docs.Keys && x < y && x < z
    && docs[x].docType == KitchenOrder && docs[y].docType == KitchenOrder && docs[z].docType == Order
    && Distance(docs[x], docs[y]) > CROSS_DEPARTMENT_WINDOW
    && ConflictFree(docs, {x, y, z})
  }

  lemma TicketsAndOrder(docs: Archive, x: nat, y: nat, z: nat)
    requires FarTickets(docs, x, y, z)
    ensures !EpisodeGuard(docs)({x, y}) && EpisodeGuard(docs)({x, z}) && EpisodeGuard(docs)({x, y, z})
  {
    TicketsRefused(docs, x, y);
    assert ConflictFree(docs, {x, z});
    OrdersMakeAdmissible(docs, {x, z}, z);
    OrdersMakeAdmissible(docs, {x, y, z}, z);
  }

  // The order in which the engine tries them.

  lemma StrongerPairFirst(docs: Archive, s: Settings, a: Pair, b: Pair)
    requires a != b && Weight(docs, s, a.0, a.1) > Weight(docs, s, b.0, b.1)
    requires CorePairs({a, b}, Auxiliaries(docs)) == {a, b}
    ensures CoreSequence(docs, s, {a, b}) == [a, b]
  {
    var key := CoreOrder(docs, s);
    assert key(a)[0] < key(b)[0];
    assert !LexLess(key(b), key(a));
    ArrangedPair(a, b, key);
  }

  lemma NothingToAttach(docs: Archive, s: Settings, pairs: set<Pair>)
    requires WellFormed(docs, pairs) && CorePairs(pairs, Auxiliaries(docs)) == pairs
    ensures Cluster(docs, s, pairs) == CoreEpisodes(docs, s, pairs)
  {
    var aux := Auxiliaries(docs);
    forall a | a in aux ensures Targets(pairs, aux, a) == {} {
      assert forall p :: p in pairs ==> p in CorePairs(pairs, aux);
    }
    assert Attachable(pairs, aux) == {};
    AttachmentsInEpisodes(docs, s, pairs);
    assert Arranged(Attachable(pairs, aux), IdOrder()) == [];
  }

  lemma ClusterOfTwo(docs: Archive, s: Settings, a: Pair, b: Pair)
    requires WellFormed(docs, {a, b}) && CorePairs({a, b}, Auxiliaries(docs)) == {a, b}
    requires Weight(docs, s, a.0, a.1) > Weight(docs, s, b.0, b.1)
    ensures PairsIn(Singletons(docs.Keys), [a, b])
    ensures Cluster(docs, s, {a, b}) == MergeAll(EpisodeGuard(docs), Singletons(docs.Keys), [a, b])
  {
    NothingToAttach(docs, s, {a, b});
    StrongerPairFirst(docs, s, a, b);
    CoreSequenceFacts(docs, s, {a, b});
  }

  lemma TicketsAreCore(docs: Archive, x: nat, y: nat, z: nat)
    requires FarTickets(docs, x, y, z)
    ensures WellFormed(docs, {(x, y), (x, z)})
    ensures CorePairs({(x, y), (x, z)}, Auxiliaries(docs)) == {(x, y), (x, z)}
    ensures y != z
  {
  }

  /**
   Whenever the pair of tickets scores higher than the pair of the first ticket and the order,
   the engine leaves the tickets apart although their final groups together are admissible.
   */
  lemma KitchenRefusalCanGoStale(docs: Archive, s: Settings, x: nat, y: nat, z: nat)
    requires FarTickets(docs, x, y, z) && Weight(docs, s, x, y) > Weight(docs, s, x, z)
    ensures WellFormed(docs, {(x, y), (x, z)})
    ensures var p := Cluster(docs, s, {(x, y), (x, z)});
            x in p && y in p && !Together(p, x, y) && EpisodeGuard(docs)(p[x] + p[y])
  {
    TicketsAreCore(docs, x, y, z);
    ClusterOfTwo(docs, s, (x, y), (x, z));
    TicketsAndOrder(docs, x, y, z);
    JoinedApart(EpisodeGuard(docs), docs.Keys, x, y, z);
  }

  lemma JoinedApart(ok: Guard, members: set<nat>, x: nat, y: nat, z: nat)
    requires x in members && y in members && z in members && x != y && y != z && x != z
    requires !ok({x, y}) && ok({x, z}) && ok({x, y, z})
    ensures PairsIn(Singletons(members), [(x, y), (x, z)])
    ensures var p := MergeAll(ok, Singletons(members), [(x, y), (x, z)]);
            x in p && y in p && !Together(p, x, y) && ok(p[x] + p[y])
  {
    RefusedThenJoined(ok, members, x, y, z);
    assert {x, z} + {y} == {x, y, z};
  }

  // An input on which it happens.

  /** A complete document without lines and amounts, of one printer and one table. */
  function Paper(id: nat, t: DocumentType, time: int, order: Option<string>, operator: Option<string>,
                 reference: Option<string>)
    : Document
  {
    Document(id, id, t, time, 0, "printer", "", None, order, Some("T1"), "T1", operator, None,
             None, None, false, false, None, None, reference, None, None, None, None, None, true, false, false, [], [])
  }

  function FirstTicket(): Document {
    Paper(0, KitchenOrder, 0, Some("O"), Some("P"), Some("R"))
  }

  /** Another ticket of the same order, 31 seconds later. */
  function SecondTicket(): Document {
    Paper(1, KitchenOrder, 31 * SECOND, Some("O"), None, None)
  }

  /** An order slip with the first ticket's operator and reference. */
  function OrderSlip(): Document {
    Paper(2, Order, 0, None, Some("P"), Some("R"))
  }

  function Evening(): Archive {
    map[0 := FirstTicket(), 1 := SecondTicket(), 2 := OrderSlip()]
  }

  /** The engine's defaults. */
  const DEFAULTS := Settings(60, 7200 * SECOND)

  lemma TicketsScore()
    ensures Score(FirstTicket(), SecondTicket(), DEFAULTS) == 72
  {
    var a, b := FirstTicket(), SecondTicket();
    assert LineKeys(a) == {} && LineKeys(b) == {};
    assert References(a) == {"R"} && References(b) == {};
    assert CodePoints(a, b) == 47;
    assert ContextPoints(a, b, DEFAULTS.window) == 25;
    assert LinkScore(a, b, DEFAULTS) == WeightedScore(a, b, DEFAULTS);
  }

  lemma FirstSlipScore()
    ensures Score(FirstTicket(), OrderSlip(), DEFAULTS) == 62
  {
    var a, c := FirstTicket(), OrderSlip();
    assert LineKeys(a) == {} && LineKeys(c) == {};
    assert References(a) == {"R"} && References(c) == {"R"};
    assert "R" in References(a) * References(c);
    assert CodePoints(a, c) == 17;
    assert ContextPoints(a, c, DEFAULTS.window) == 45;
    assert LinkScore(a, c, DEFAULTS) == WeightedScore(a, c, DEFAULTS);
  }

  lemma SecondSlipScore()
    ensures Score(SecondTicket(), OrderSlip(), DEFAULTS) == 37
  {
    var b, c := SecondTicket(), OrderSlip();
    assert LineKeys(b) == {} && LineKeys(c) == {};
    assert References(b) == {} && References(c) == {"R"};
    assert CodePoints(b, c) == 12;
    assert ContextPoints(b, c, DEFAULTS.window) == 25;
    assert LinkScore(b, c, DEFAULTS) == WeightedScore(b, c, DEFAULTS);
  }

  lemma EveningWeights()
    ensures Weight(Evening(), DEFAULTS, 0, 1) == 72
    ensures Weight(Evening(), DEFAULTS, 0, 2) == 62
    ensures Weight(Evening(), DEFAULTS, 1, 2) == 37
  {
    TicketsScore();
    FirstSlipScore();
    SecondSlipScore();
  }

  lemma EveningQualifies(everyPair: set<Pair>)
    requires everyPair == {(0, 1), (0, 2), (1, 2)}
    ensures Qualifying(Evening(), DEFAULTS, everyPair) == {(0, 1), (0, 2)}
  {
    EveningWeights();
    var unique := UniquePairs(Evening(), everyPair);
    assert forall p :: p in everyPair ==> Normalised(p) == p;
    assert unique == everyPair;
  }

  lemma EveningIsFar()
    ensures FarTickets(Evening(), 0, 1, 2)
  {
    var docs := Evening();
    forall x, y | x in {0, 1, 2} && y in {0, 1, 2} && x != y ensures !Conflict(docs[x], docs[y]) {
    }
  }

  /**
   With the engine's defaults and every pair offered, the two tickets of this evening stay apart
   for no lasting reason.
   */
  lemma EveningGoesStale(everyPair: set<Pair>)
    requires everyPair == {(0, 1), (0, 2), (1, 2)}
    ensures var p := Cluster(Evening(), DEFAULTS, Qualifying(Evening(), DEFAULTS, everyPair));
            0 in p && 1 in p && !Together(p, 0, 1) && EpisodeGuard(Evening())(p[0] + p[1])
  {
    EveningQualifies(everyPair);
    EveningWeights();
    EveningIsFar();
    KitchenRefusalCanGoStale(Evening(), DEFAULTS, 0, 1, 2);
  }
}
