# RetailPrintGuard: a verified model of its evidence pipeline

RetailPrintGuard captures what a shop's point-of-sale devices print, stores the captured
bytes as evidence, and derives from them which documents belong to one sale episode. This
project models the parts of it whose correctness cannot be read off a single function, in
Dafny 4.11, and proves what they guarantee for every input, every run and every interleaving.

- **Correlation** — pairwise scoring, the guarded union-find that merges documents into
  episodes, the order of merging and the attachment of auxiliary documents
  (`Documents`, `Scoring`, `ScoringTheorems`, `Partitions`, `Components`, `Episodes`, `Clustering`,
  `ClusterTheorems`, `MergeOrder`, `StaleRefusals`, `Correlator`, `Transactions`).
- **Order lines** — aggregation, the semantic diff, the signed order-change fold, and how
  they reconcile (`Lines`, `OrderChanges`, `ChangeEffects`, `Composition`, `Reconciliation`,
  `OrderTimeline`).
- **Capture** — validation of the hash-chained two-direction timeline, chunk storage and
  reading the bytes back, and what its hashes prove (`Timeline`, `ValidTimelines`, `ChunkStore`,
  `TamperEvidence`).
- **Discovery** — the modification-time driven index, rotating batches, and the historical
  drain (`Discovery`, `DiscoveryTheorems`, `Rotation`, `Drain`, `DrainTheorems`).
- **Derived data** — supersede, reactivate and exclude as a state machine, watermark paging,
  append-only order evidence and audit chains (`CorrelationStore`, `CorrelationRuns`, `Watermark`,
  `DesiredEvents`, `EventTheorems`, `RecordedChanges`, `OrderEvidence`, `HashChain`, `AuditLog`).
- **Two small cores** — the bounded log queue under every interleaving (`LogQueue`, `LogShutdown`) and the
  two-pass local-time resolution of the period selector (`Period`).

`Options` and `Ordering` hold optional values and sorting. `dafny verify dfyconfig.toml`
checks everything.

## Modelling decisions

- Identifiers are natural numbers in the order of their texts, times are integers
  (microseconds for documents, minutes in `Period`), quantities and prices of lines are
  `real`, money totals in scoring are integers. Normalised codes are optional strings.
- Code that works by updating state is imperative here too: the union-find, the discovery
  adapter, the audit table, the order log, the correlation tables, the watermark row and the
  log pipe are classes; the loops of the engine, the validator and the importers are methods.
  Each is tied to a function or relation on values, and the theorems are about those.
- A database transaction is one atomic step, except in `AuditLog`, whose steps are the
  statements of a session. Hash functions are parameters, so a theorem
  holds for every hash; where collision freedom matters it is an explicit condition. The
  identifiers that the worker derives with `uuid5` or a digest are represented by what they
  are derived from.
- Concurrency is a state machine whose steps are single queue operations and lock sections;
  its theorems quantify over all step sequences.

Where the code and its own documentation disagree, the model follows the code:

- `docs/ALERT_E_REGOLE.md` says that the 30-second kitchen limit holds for the whole group;
  the code checks it only while the group consists of kitchen tickets alone.
  `KitchenRefusalCanGoStale` shows what follows from that.
- The docstring of `HistoricalImporter.run` says that the drain ends on a pass without new
  imports; the code ends on a pass without unseen candidate keys.
- The timeline validator accepts several EOF events of one direction, which the uniqueness
  constraint of the stored chunks does not admit (`SchemaUniqueness`,
  `TwoEofsAreAcceptedAndCollide`).

Properties that turn out to be false of the code are kept as results: an input or a run on
which they fail, and the condition under which the code meets them, exact unless it says
otherwise.

| property | fails | holds iff |
|---|---|---|
| order changes compose | `AnonymousLinesDoNotCompose` | `ComposesExactlyWhenNamed` |
| cancelled-out changes leave a line unchanged | `NoChangeReportsPrice` | `SurvivorPrice` |
| refusals never go stale | `EveningGoesStale` | `RefusalIsStaleExactly` |
| stored offsets are unique | `TwoEofsAreAcceptedAndCollide` | `SchemaUniqueness` |
| the index agrees with a full scan | `OneJobIsMisread` | `RefreshExactlyWhenClean` |
| the drain sees every key | `SharedKeysStopEarly` | `CompleteExactlyWithoutGap` |
| active correlations hold eligible documents | `ReparseStrands` | `StaysEligibleUnlessStranded` |
| the watermark advances | `StallExample` | `AdvancesExactlyWithRoom` |
| stopping takes three operations | `ProducersCanDelayStop` | `StopIsDelayedByPutsOnly`, a tight bound |
| resolving keeps order | `SkippedBreaksOrder` | `ResolveKeepsOrder`, `ResolveKeepsOrderAcrossJump` |

## Model

| member | source | states |
|---|---|---|
| `Lines.AggregateLines` | src/retailprintguard/correlation/engine.py:193-217 | the aggregation loop computes the fold whose meaning the next two lemmas give |
| `Lines.AggregateQuantity` | src/retailprintguard/correlation/engine.py:193-217 | a key is aggregated iff it occurs, with the sum of the quantities of all its lines |
| `Lines.AggregateFirstAndLast` | src/retailprintguard/correlation/engine.py:199-216 | description, discount and source come from the first line of a key, the unit price from the last |
| `Lines.SameKey` | src/retailprintguard/correlation/engine.py:171-178 | two lines are one article iff they have the same code, or no code and the same description, or neither and the same position |
| `Lines.AggregateTotal` | src/retailprintguard/correlation/engine.py:206-212 | the total of a key is the sum of its printed line totals, absent iff no line of it has one |
| `Lines.CompareDocumentLines` | src/retailprintguard/correlation/engine.py:220-260 | the diff loop lists one classified change per key of either side |
| `Lines.DiffReportsEachKeyOnce` | src/retailprintguard/correlation/engine.py:220-260 | the diff names exactly the keys that occur on either side, each once, in strictly increasing text order |
| `Lines.DiffMeaning` | src/retailprintguard/correlation/engine.py:220-260 | each entry describes both sides by the lines of its key: quantity and total sums, first description, discount and source, last price; its type names what differs first among presence, quantity, price and discount, in both directions |
| `Lines.DigitsWriteNumber` | src/retailprintguard/correlation/engine.py:171-178 | positions are ordered by their decimal texts without leading zeros |
| `OrderChanges.ApplyOrderChangeLines` | src/retailprintguard/correlation/engine.py:263-323 | the two loops over the dictionary and the order list compute the signed fold, whose effect on every key, every field and the order the `ChangeEffects` lemmas fix |
| `ChangeEffects.UnmatchedChange` | src/retailprintguard/correlation/engine.py:291-302 | a change of an absent article, not removed or cancelled and of positive quantity, appears as printed and last; any other leaves everything as it is |
| `ChangeEffects.MatchedChange` | src/retailprintguard/correlation/engine.py:303-322 | a change of a present article takes it away iff it is a removal or nothing remains; otherwise the line keeps its place and every field but quantity, state, total, text and source |
| `ChangeEffects.RevisedTotalAndEvidence` | src/retailprintguard/correlation/engine.py:303-322 | the revised line has the total of price times remaining quantity, and the text and source of the change if it has any |
| `ChangeEffects.LinesAreIndependent` | src/retailprintguard/correlation/engine.py:291-322 | after any changes a line is what the changes of its own key made of it, whatever happened to other lines |
| `ChangeEffects.PresentExactlySince` | src/retailprintguard/correlation/engine.py:291-322 | a key is in the result iff it was there and was never taken away, or some change added it for good |
| `ChangeEffects.AddedQuantity` | src/retailprintguard/correlation/engine.py:291-322 | a line added for good has the sum of all deltas of its key since then, which is positive |
| `ChangeEffects.OrderIsByArrival` | src/retailprintguard/correlation/engine.py:291-322 | the lines of the start come first in their order, then the added ones in the order of their addition |
| `ChangeEffects.LoadedPieces` | src/retailprintguard/correlation/engine.py:276-290 | lines of one key are loaded as one line with the sum of their pieces |
| `ChangeEffects.LoadedLine` | src/retailprintguard/correlation/engine.py:276-290 | every field of a loaded line but its quantity comes from the first line of its key |
| `ChangeEffects.LoadedKeys` | src/retailprintguard/correlation/engine.py:276-290 | exactly the keys that occur are loaded |
| `OrderChanges.DeltasKeepConsistent` | src/retailprintguard/correlation/engine.py:291-322 | the order list always names each remaining key exactly once |
| `OrderChanges.LoadRenderIsIdentity` | src/retailprintguard/correlation/engine.py:276-290 | loading a rendered state of named lines gives the state back: what the diff of an applied result rests on |
| `Composition.RereadTwins` | src/retailprintguard/correlation/engine.py:276-323 | reading any rendered state back keeps all lines in order and changes at most the numbers of positions: the round trip on which composition rests |
| `Composition.ApplyComposes` | src/retailprintguard/correlation/engine.py:263-323 | whatever lines and changes came before, anonymous or not, applying `d1 + d2` equals applying `d1` and then `d2` if every line of `d2` is coded or described |
| `Composition.ComposesExactlyWhenNamed` | src/retailprintguard/correlation/engine.py:171-178 | a batch composes with everything before it iff all of its lines are named; for every other batch there are lines and changes on which splitting it off gives another result |
| `Composition.AnonymousLinesDoNotCompose` | src/retailprintguard/correlation/engine.py:171-178 | with position keys composition fails, on a concrete input |
| `OrderChanges.ApplyKeepsPositive` | src/retailprintguard/correlation/engine.py:291-322 | from positive lines no change can produce a zero or negative quantity |
| `OrderChanges.SurvivorsKeepOrder` | src/retailprintguard/correlation/engine.py:291-322 | keys that no change removes all survive, in their relative order |
| `Reconciliation.SurvivorQuantity` | src/retailprintguard/correlation/engine.py:303-322 | a line never removed gains exactly the sum of its deltas and keeps price and discount |
| `Reconciliation.AppliedEntry` | src/retailprintguard/correlation/engine.py:193-323 | what the diff sees of the applied result is exactly the folded state, key by key |
| `Reconciliation.VanishedAndNewKeys` | src/retailprintguard/correlation/engine.py:220-260 | REMOVED iff the key vanished on the way, ADDED iff it is new; that an addition does arrive is `AdditionReported` |
| `Reconciliation.AdditionReported` | src/retailprintguard/correlation/engine.py:220-323 | an article that the changes add for good is reported ADDED, with the sum of its deltas since |
| `Reconciliation.SurvivorPrice` | src/retailprintguard/correlation/engine.py:193-323 | with deltas that cancel out, UNCHANGED iff the key's first and last line agree in price, PRICE_CHANGED otherwise |
| `Reconciliation.NoChangeReportsPrice` | src/retailprintguard/correlation/engine.py:193-323 | on two lines of one article at two prices, an empty change is reported as PRICE_CHANGED |
| `Reconciliation.DiffReconciles` | src/retailprintguard/correlation/engine.py:193-323 | every entry of the diff of `before` and its changed version: REMOVED, ADDED, and after minus before equal to the sum of the deltas |
| `Documents.ConflictSymmetric` | src/retailprintguard/correlation/engine.py:467-510 | identity and episode-boundary conflicts do not depend on the order of the two documents |
| `Scoring.ScoreSymmetric` | src/retailprintguard/correlation/engine.py:540-1122 | the score of a pair does not depend on which document is named first, through all rules |
| `Scoring.ScoreAtMostHundred` | src/retailprintguard/correlation/engine.py:540-1122 | no rule scores above 100 |
| `Scoring.PositiveScoreMeaning` | src/retailprintguard/correlation/engine.py:425-510 | a positive score implies a time window, and no conflict and compatible types or, for a response, the same non-empty job; the values themselves are the `ScoringTheorems` lemmas |
| `ScoringTheorems.ConflictIsOpposed` | src/retailprintguard/correlation/engine.py:467-510 | two documents conflict iff they carry different explicit identities of one kind or a closed episode lies between them, said of their fields |
| `ScoringTheorems.ResponseScore` | src/retailprintguard/correlation/engine.py:1064-1100 | a pair with a device response scores 90 iff both are of one non-empty job and in the window, and 0 otherwise |
| `ScoringTheorems.OpposedScoresNothing` | src/retailprintguard/correlation/engine.py:1102-1122 | conflicting documents score 0, whatever rule would apply |
| `ScoringTheorems.ReferenceScore` | src/retailprintguard/correlation/engine.py:686-795 | a document that names a receipt in the window scores 95 with it, and 100 if it names the confirmed suffix, the table and a common article within five minutes |
| `ScoringTheorems.TableSaleScore` | src/retailprintguard/correlation/engine.py:797-853 | a prebill source and a receipt of its table with a common article at most five minutes later score at least 95, and exactly 100 unless the reference rule comes first |
| `ScoringTheorems.BaselineScore` | src/retailprintguard/correlation/engine.py:904-966 | a ticket and the management baseline of its table with a common article at most 30 seconds later score 100 |
| `ScoringTheorems.SiblingScore` | src/retailprintguard/correlation/engine.py:1029-1062 | fiscal siblings in the window with a common reference or one order code score 80 |
| `ScoringTheorems.ChangeScore` | src/retailprintguard/correlation/engine.py:968-1027 | a ticket and an order change of its device and table with a common article at most five minutes later score 100 |
| `ScoringTheorems.DispatchScore` | src/retailprintguard/correlation/engine.py:857-902 | tickets of two devices for one table within 30 seconds score 85 |
| `ScoringTheorems.PlainScore` | src/retailprintguard/correlation/engine.py:540-684 | without response, conflict and rule the score is the sum of the points, cut at 100, for types of one sale in the window, and 0 otherwise; with the tables below it is a number computed from the fields |
| `ScoringTheorems.AmountPointsTable` | src/retailprintguard/correlation/engine.py:540-684 | 8 points for equal totals, 3 for two different totals neither of which is negative |
| `ScoringTheorems.SimilarityTable` | src/retailprintguard/correlation/engine.py:326-333 | 12 points times the share of common articles among all articles, rounded to the nearest, half to even |
| `ScoringTheorems.NearestEven` | src/retailprintguard/correlation/engine.py:642-645 | the rounding of that share is to the nearest whole number, to the even one on a tie |
| `ScoringTheorems.CompatibleIsOneSale` | src/retailprintguard/correlation/engine.py:425-442 | which pairs of document types can belong to one sale |
| `Partitions.MergeAllSound` | src/retailprintguard/correlation/engine.py:1175-1223 | any run of guarded unions keeps a partition all of whose classes pass the guard, and never separates members |
| `Partitions.RefusedAtItsTurn` | src/retailprintguard/correlation/engine.py:1175-1223 | a pair left apart was refused on two accepted classes contained in the final ones |
| `Partitions.MergeAllConnected` | src/retailprintguard/correlation/engine.py:1256-1264 | classes merged along edges stay connected by them: every cut is crossed |
| `Partitions.AttachAll` | src/retailprintguard/correlation/engine.py:1258-1264 | offering outsiders one target each adds outsiders to classes and joins no two classes |
| `Components.RootIsLeast` | src/retailprintguard/correlation/engine.py:1164-1173 | following parents ends at the smallest member of the class |
| `Components.UnionFind.constructor` | src/retailprintguard/correlation/engine.py:1165-1166 | one class per document, each accepted by the guard |
| `Components.UnionFind.Find` | src/retailprintguard/correlation/engine.py:1169-1173 | path halving keeps the parent map an acyclic forest of the same classes and returns the least member |
| `Components.UnionFind.Union` | src/retailprintguard/correlation/engine.py:1175-1223 | joins exactly when the guard accepts the joint members; the forest, `component_members` and the real components stay equal; the result says whether both are together |
| `Episodes.HardViolationGrows` | src/retailprintguard/correlation/engine.py:1175-1217 | identity, boundary and opening violations of a set persist in every larger set |
| `Clustering.CoreSequenceFacts` | src/retailprintguard/correlation/engine.py:1238-1257 | the core sequence holds exactly the qualifying pairs of two core documents |
| `Clustering.AttachmentFacts` | src/retailprintguard/correlation/engine.py:1245-1264 | each attachable auxiliary document is offered once, to a core document it qualifies with that scores higher than every other such one, or as high and is closer, or as close and has the smaller identifier |
| `ClusterTheorems.EpisodesAreAdmissible` | src/retailprintguard/correlation/engine.py:1157-1268 | the final groups partition the documents; each is free of conflicts, spans at most 30 s if all-kitchen, and has kitchen and management openings within 30 s or one shared explicit identity |
| `ClusterTheorems.RefusalsNeverGoStale` | src/retailprintguard/correlation/engine.py:1175-1257 | a qualifying core pair ends apart only if the union of both final groups still holds a hard violation, or both are tickets and the groups' tickets span more than 30 s; a hard violation does keep them apart |
| `ClusterTheorems.RefusalIsStaleExactly` | src/retailprintguard/correlation/engine.py:1175-1257 | a qualifying core pair left apart could be joined after all iff both final groups together hold no hard violation and not only kitchen tickets |
| `StaleRefusals.KitchenRefusalCanGoStale` | src/retailprintguard/correlation/engine.py:1187-1193 | whenever two tickets too far apart score higher than the first of them and an order, the final clustering leaves them apart although both groups together are admissible |
| `StaleRefusals.EveningGoesStale` | src/retailprintguard/correlation/engine.py:532-1264 | three concrete documents, scored 72, 62 and 37 under the default settings with every pair offered, on which that happens |
| `ClusterTheorems.AuxiliariesNeverBridge` | src/retailprintguard/correlation/engine.py:1235-1264 | the final partition without auxiliary documents is the core partition; each auxiliary document is alone or with its one best target, best by score, then distance, then identifier |
| `MergeOrder.CorePairsInOrder` | src/retailprintguard/correlation/engine.py:1238-1257 | core pairs are tried by higher score, then smaller time distance, then identifiers, each once |
| `MergeOrder.AuxiliaryIsFollowing` | src/retailprintguard/correlation/engine.py:373-381 | which documents are auxiliary, said of type and fields |
| `MergeOrder.AuxiliaryJoinsBestParent` | src/retailprintguard/correlation/engine.py:1245-1264 | an auxiliary document ends with the qualifying core document that outranks all others by score, distance and identifier iff both groups together hold no hard violation, and with no other group |
| `MergeOrder.BestParentExists` | src/retailprintguard/correlation/engine.py:1245-1264 | an auxiliary document that qualifies with any core document has such a best one |
| `MergeOrder.LonePairIsJoined` | src/retailprintguard/correlation/engine.py:1175-1257 | two core documents that qualify only with each other end in one group if they may form one |
| `MergeOrder.PairMayFormEpisode` | src/retailprintguard/correlation/engine.py:1175-1217 | two documents may form a group if nothing opposes it and, with a ticket among them, they are at most 30 seconds apart |
| `MergeOrder.PrebillAndReceiptAreOneSale` | src/retailprintguard/correlation/engine.py:797-1264 | a prebill and its receipt whose pair is offered and that qualify with nothing else end in one group, with every threshold up to 95 |
| `MergeOrder.GuardExactly` | src/retailprintguard/correlation/engine.py:1175-1217 | the union accepts exactly the sets in which no two documents carry different explicit identities or lie on both sides of a settlement, tickets alone are within 30 seconds, and tickets with management baselines are within 30 seconds or share one identity |
| `MergeOrder.EpisodesMayBeOneSale` | src/retailprintguard/correlation/engine.py:1157-1268 | every final group is such a set |
| `ClusterTheorems.EpisodesHaveCore` | src/retailprintguard/correlation/engine.py:1258-1264 | every group of several documents has a core document |
| `ClusterTheorems.EpisodesAreConnected` | src/retailprintguard/correlation/engine.py:1238-1264 | however a final group is cut in two, a qualifying pair crosses the cut |
| `ClusterTheorems.MembersAreLinked` | src/retailprintguard/correlation/engine.py:1289-1302 | every member of a larger group has a qualifying pair inside the group |
| `Correlator.CollectPairs` | src/retailprintguard/correlation/engine.py:1225-1229 | the unordered pairs of two distinct known documents |
| `Correlator.ScorePairs` | src/retailprintguard/correlation/engine.py:1230-1233 | each pair carries its score, whose value `ScoringTheorems` derives from the fields of the two documents |
| `Correlator.SplitEdges` | src/retailprintguard/correlation/engine.py:1235-1255 | the core list and the target lists hold exactly the qualifying pairs of their kind, in whatever order the edges are visited |
| `Correlator.PickTarget` | src/retailprintguard/correlation/engine.py:1263 | the selection loop returns the target with the highest score, then the smallest distance, then the smallest identifier |
| `Correlator.JoinEpisodes` | src/retailprintguard/correlation/engine.py:1256-1264 | the union-find ends in the specified clustering |
| `Correlator.CollectGroups` | src/retailprintguard/correlation/engine.py:1266-1268 | each group lists the documents of one final class in time order, under its least identifier |
| `Correlator.CorrelatePairs` | src/retailprintguard/correlation/engine.py:1157-1268 | the whole imperative engine computes the specified groups and scored edges |
| `Transactions.BuildTransactions` | src/retailprintguard/correlation/engine.py:1270-1302 | the transactions of the groups with their scores, ordered by first document time and derived identifier |
| `Transactions.Correlate` | src/retailprintguard/correlation/engine.py:1124-1136 | all-pairs correlation returns the transactions, scores and order of the set of all pairs |
| `Transactions.CorrelateCandidates` | src/retailprintguard/correlation/engine.py:1138-1155 | pre-blocked correlation returns the transactions, scores and order of the offered pairs |
| `Transactions.OutcomeIsDeterministic` | src/retailprintguard/correlation/engine.py:1124-1275 | permuting documents, reordering, repeating or flipping pairs and adding sub-threshold pairs change neither the groups nor their scores nor their order |
| `Transactions.BlockingIsExact` | src/retailprintguard/correlation/engine.py:1138-1155 | candidates that name every qualifying pair give the all-pairs groups, scores and order |
| `Transactions.TransactionScoreBounds` | src/retailprintguard/correlation/engine.py:1289-1302 | a transaction of several documents scores between `minimum_score` and 100 and every member's stored contribution is at least that score |
| `Transactions.ReportIsExact` | src/retailprintguard/correlation/engine.py:1157-1303 | every reported transaction is one group; with several documents its score is exactly the least, over the members, of the best score of an offered qualifying partner in the group, and with one document it has none |
| `Transactions.GroupIsReported` | src/retailprintguard/correlation/engine.py:1265-1276 | every group is reported |
| `Transactions.ReportIsOrdered` | src/retailprintguard/correlation/engine.py:1265-1276 | transactions are listed by the time of their first document, then by their derived identifier |
| `OrderTimeline.TrackBoards` | src/retailprintguard/correlation/worker.py:1271-1292 | the worker's loop keeps the lines of every device and table and sets the other sources aside |
| `OrderTimeline.BoardIsOneFold` | src/retailprintguard/correlation/worker.py:1271-1286 | a board's chained state equals one application of all changes since its last ticket, for tickets with any lines and changes whose lines are named |
| `RecordedChanges.BoardComparisons` | src/retailprintguard/correlation/worker.py:1271-1287 | the comparisons of the boards are exactly those of each order change with what its device and table showed before it, before and after in their places |
| `Timeline.CheckEvent` | src/retailprintguard/ingestion/canonical.py:148-222 | the checks on running totals accept an event iff it fits the chunks before it |
| `Timeline.CheckManifest` | src/retailprintguard/ingestion/canonical.py:251-285 | the closing checks accept iff the whole timeline agrees with the manifest and RAW |
| `Timeline.ParseTimeline` | src/retailprintguard/ingestion/canonical.py:116-285 | the validator accepts iff the timeline is valid as a whole, and returns its chunks |
| `ValidTimelines.ValidExactly` | src/retailprintguard/ingestion/canonical.py:116-285 | a timeline is valid iff it has at most 100000 events, each event is sealed, follows the hash before it, belongs to this session, job and device, has the next numbers and continues the bytes of its direction with their digest, and the manifest agrees with the totals; said of the events without running state |
| `ValidTimelines.AcceptedExactly` | src/retailprintguard/ingestion/canonical.py:148-248 | the chunks of an accepted timeline are its events, field by field |
| `ChunkStore.AcceptedTimelineCoversRaw` | src/retailprintguard/ingestion/canonical.py:116-285 | data events of each direction tile [0, covered) and concatenate to that RAW prefix, all of RAW unless a partial may trail |
| `ChunkStore.InsertChunks` | src/retailprintguard/db/repository.py:3935-4010 | the import succeeds iff every chunk has its bytes in RAW with their hash and the rows satisfy the unique constraints, and stores those bytes in a record chain that verifies; for an accepted timeline that is iff every EOF is the last event of its direction |
| `ChunkStore.GetSessionRaw` | src/retailprintguard/db/repository.py:2238-2271 | the read loop returns the joined payloads, or nothing on a gap or a hash mismatch |
| `ChunkStore.StoreThenRead` | src/retailprintguard/db/repository.py:2238-2271 | storing an accepted timeline and reading it back, in any row order, returns exactly the covered bytes |
| `ChunkStore.SchemaUniqueness` | src/retailprintguard/db/models.py:208-213 | sequences are always unique; offsets are unique per direction iff every EOF is the last event of its direction |
| `ChunkStore.TwoEofsAreAcceptedAndCollide` | src/retailprintguard/ingestion/canonical.py:116-285 | whatever the hashes, a timeline with two EOF events is accepted and its rows collide |
| `TamperEvidence.LastHashFixesEvents` | src/retailprintguard/ingestion/canonical.py:148-162 | two valid timelines whose manifests name the same last hash have the same events, or two event bodies share a hash |
| `TamperEvidence.LastHashFixesBytes` | src/retailprintguard/ingestion/canonical.py:204-285 | with collision-free hashes the last hash also fixes every covered byte of both directions |
| `Discovery.Adapter.ReadRootDirectory` | src/retailprintguard/ingestion/canonical.py:355-383 | the root read forgets vanished devices and adds new ones as unread |
| `Discovery.Adapter.Scan` | src/retailprintguard/ingestion/canonical.py:324-353 | scanning one device replaces its markers and its unready jobs, and nothing else |
| `Discovery.Adapter.ScanChangedDevices` | src/retailprintguard/ingestion/canonical.py:384-403 | exactly the devices whose time changed are scanned |
| `Discovery.Adapter.RecheckUnreadyJobs` | src/retailprintguard/ingestion/canonical.py:404-415 | unready jobs are promoted, forgotten or kept, in any order with the same result |
| `Discovery.Adapter.Refresh` | src/retailprintguard/ingestion/canonical.py:355-415 | the whole refresh as a function of the index and the spool |
| `DiscoveryTheorems.RefreshAgrees` | src/retailprintguard/ingestion/canonical.py:355-415 | from a consistent index a refresh misses no marker and indexes only existing jobs, exactly the markers if none was withdrawn |
| `DiscoveryTheorems.IndexAgreesWithFullScan` | src/retailprintguard/ingestion/canonical.py:324-415 | after every run of device and job creation and removal, late publication and refreshes in which no changed directory gets back the time the index recorded for it, the next refresh misses no marker and indexes only existing jobs, and agrees with a full scan iff no unchanged directory has lost an indexed marker |
| `DiscoveryTheorems.RefreshExactlyWhenClean` | src/retailprintguard/ingestion/canonical.py:384-415 | a refresh indexes exactly the markers of a full scan iff no directory it takes to be unchanged has lost an indexed marker |
| `DiscoveryTheorems.WithdrawnMarkerStaysIndexed` | src/retailprintguard/ingestion/canonical.py:384-415 | after every run of a new adapter and a refresh, a marker withdrawn from a surviving job stays indexed |
| `DiscoveryTheorems.ReusedTimeHidesJob` | src/retailprintguard/ingestion/canonical.py:384-403 | after every run of a new adapter and a refresh, a job published without a new time of its device directory is missed by the next refresh |
| `DiscoveryTheorems.OneJobIsMisread` | src/retailprintguard/ingestion/canonical.py:384-415 | a spool of one device and one job on which both happen |
| `Rotation.RotationCovers` | src/retailprintguard/ingestion/canonical.py:82-91 | from any cursor, rounds whose batches add up to the list's size select exactly all markers |
| `Rotation.NextBatchIsNew` | src/retailprintguard/ingestion/canonical.py:82-91 | until then every next batch holds a marker not selected before |
| `DrainTheorems.SeenAfterItsRound` | src/retailprintguard/ingestion/canonical.py:82-91 | the key at a position has been selected iff more rounds have passed than its distance from the cursor divided by the batch size |
| `Drain.RoundsIsCeiling` | src/retailprintguard/ingestion/canonical.py:417-435 | the number of rounds a list needs is ceil(n / m) |
| `Drain.RunOnce` | src/retailprintguard/importer/historical.py:50-52 | one pass reports the union of the adapters' rotating batches and advances every cursor |
| `Drain.Run` | src/retailprintguard/importer/historical.py:30-60 | the drain ends without the limit error at the first pass without a new key, and with the limit error iff there is none in the limit; when no key belongs to two adapters that is exactly one pass after the longest adapter is through, with every key seen |
| `DrainTheorems.CompleteExactlyWithoutGap` | src/retailprintguard/importer/historical.py:50-57 | for adapters that may share keys, the drain ends with every key seen iff the first rounds of the keys, given by list positions and cursors, leave no gap |
| `DrainTheorems.QuietExactlyWithoutFirst` | src/retailprintguard/importer/historical.py:50-57 | for adapters that may share keys, a pass brings nothing new iff it is no key's first round |
| `DrainTheorems.SharedKeysStopEarly` | src/retailprintguard/importer/historical.py:50-57 | two fresh adapters that share keys on which the drain ends with a key unseen |
| `HashChain.VerifyChain` | src/retailprintguard/common/hashchain.py:26-37 | accepts iff every record links to its predecessor and carries its own hash |
| `HashChain.ExtendChained` | src/retailprintguard/common/hashchain.py:19-37 | appending a record with the chained hash keeps the chain accepted and makes the record its head |
| `HashChain.SameHeadSameChain` | src/retailprintguard/common/hashchain.py:19-37 | two accepted chains with the same final hash are identical, or exhibit a collision or a zero hash |
| `HashChain.HeadDeterminesChain` | src/retailprintguard/common/hashchain.py:19-37 | with a collision-free hash that never yields the zero hash, the final hash fixes every record |
| `AuditLog.EveryInterleavingIsOneChain` | src/retailprintguard/correlation/worker.py:283-331 | every interleaving of both writers' sessions, with locked and unlocked first reads, failed inserts of the head row, appends, commits and rollbacks, keeps one contiguous accepted chain whose head row is its last record, and never changes a committed record |
| `AuditLog.OnlyOneInserts` | src/retailprintguard/db/models.py:1007-1022 | in every run, a session that found the head row missing and acts only after some session committed a head fails on the duplicate key and leaves records, head and owner as they are |
| `AuditLog.RaceCanHappen` | src/retailprintguard/db/repository.py:3410-3418 | from an empty table two sessions can both find the head row missing |
| `AuditLog.CommitsItsRequests` | src/retailprintguard/db/repository.py:3410-3450 | whatever other sessions do meanwhile, a session that obtained the head row commits exactly the entries it asked for, in order and behind everything committed before |
| `AuditLog.RollsBackItsRequests` | src/retailprintguard/db/repository.py:3410-3450 | a session that rolls back leaves nothing |
| `AuditLog.OnlyCommitsAppend` | src/retailprintguard/db/repository.py:3410-3450 | no other step changes committed records, and a session obtains the head row with nothing appended |
| `AuditLog.AuditTable.AppendAudit` | src/retailprintguard/db/repository.py:3410-3450 | extends the chain by the entry under the next number, and keeps the head row on the last record |
| `AuditLog.AuditTable.AppendParserActivation` | src/retailprintguard/correlation/worker.py:283-331 | the second writer, with its own code, extends the same chain in the same way |
| `DesiredEvents.CollectChanges` | src/retailprintguard/correlation/worker.py:1325-1346 | the loop with its set of seen changes lists each distinct change once, at its first comparison |
| `DesiredEvents.DesiredEventsOf` | src/retailprintguard/correlation/worker.py:1179-1370 | the worker's loops compute the list of desired events, whose content the `RecordedChanges` lemmas state of the documents |
| `RecordedChanges.ComparisonsExactly` | src/retailprintguard/correlation/worker.py:1262-1324 | the compared line lists are exactly: each order change against what its board showed, successive orders, prebills and management documents, and the last prebill against all lines of the closures |
| `RecordedChanges.DifferencesAreRecorded` | src/retailprintguard/correlation/worker.py:1325-1345 | every article that differs between two compared line lists has an event that tells how, with both sides in their places |
| `RecordedChanges.SettlementIsRecorded` | src/retailprintguard/correlation/worker.py:1292-1345 | with a prebill and a closure, every article billed otherwise than on the last prebill has such an event |
| `RecordedChanges.ChangesAreCompared` | src/retailprintguard/correlation/worker.py:1325-1345 | every change event tells a difference of a compared pair, on the document that caused it and with the lines after it |
| `RecordedChanges.DesiredKinds` | src/retailprintguard/correlation/worker.py:1179-1370 | every desired event is a creation, a printed document, a payment, a difference or a closing |
| `RecordedChanges.CreatedOnce` | src/retailprintguard/correlation/worker.py:1205-1221 | exactly one ORDER_CREATED if some document opens the order |
| `RecordedChanges.CreatedByFirst` | src/retailprintguard/correlation/worker.py:1205-1221 | it comes from the earliest opening document, and without one there is none |
| `RecordedChanges.ClosedOnce` | src/retailprintguard/correlation/worker.py:1300-1368 | exactly one ORDER_CLOSED if some complete receipt, or else some settling management document, exists |
| `RecordedChanges.ClosedByLast` | src/retailprintguard/correlation/worker.py:1346-1368 | it comes from the latest such document with both totals, and without one there is none |
| `RecordedChanges.PrintedOnce` | src/retailprintguard/correlation/worker.py:1222-1245 | each printed document has exactly one event, of the type its document type demands |
| `RecordedChanges.PaidOnce` | src/retailprintguard/correlation/worker.py:1246-1260 | each document with payments, unless itself a payment, has exactly one event that lists them |
| `RecordedChanges.DesiredInOrder` | src/retailprintguard/correlation/worker.py:1369-1370 | the list is sorted by time, event type and document |
| `RecordedChanges.RankIsAlphabetical` | src/retailprintguard/common/domain.py:40-56 | event types are compared by their stored names |
| `DesiredEvents.DesiredDistinct` | src/retailprintguard/correlation/worker.py:1179-1370 | the desired events of a transaction have pairwise distinct identities |
| `OrderEvidence.AppendAllKeeps` | src/retailprintguard/correlation/worker.py:1372-1479 | a run extends both chains with contiguous records that verify, one snapshot per event, and stores exactly the desired identities besides the old ones |
| `OrderEvidence.AppendIsIdempotent` | src/retailprintguard/correlation/worker.py:1372-1479 | a second run on the same order and transaction appends nothing |
| `OrderEvidence.InsertsExactlyMissing` | src/retailprintguard/correlation/worker.py:1372-1479 | a run inserts exactly as many events as were missing |
| `OrderEvidence.AppendsTheMissing` | src/retailprintguard/correlation/worker.py:1400-1478 | the appended records are the missing desired events in their order, each with its identity, document and time, and one snapshot each with its time and lines |
| `OrderEvidence.OrderLog.AppendOrderEvidence` | src/retailprintguard/correlation/worker.py:1372-1479 | the loop with its running sequences and hashes does that append and returns both counts |
| `CorrelationStore.PersistKeepsOneActive` | src/retailprintguard/correlation/worker.py:972-1071 | persisting a transaction keeps every document in at most one active correlation |
| `CorrelationStore.EveryRunIsSane` | src/retailprintguard/correlation/worker.py:881-970 | over every run of ingestion, parsing, correlation, retirement and reviews no document is in two active correlations and none of an excluded job is in any; a member of an active one is still eligible iff the last parse of its job did not fail or the job was verified as usable |
| `CorrelationStore.StaysEligibleUnlessStranded` | src/retailprintguard/correlation/worker.py:354-381 | every member of an active correlation stays eligible through a step iff the step is not a failed parse of an unverified job with a document in an active row |
| `CorrelationStore.ReparseStrands` | src/retailprintguard/parser/repository.py:479-501 | a run in which a parsed and correlated job is parsed again and fails, which leaves its document in an active correlation although it is not eligible |
| `CorrelationRuns.ReportIsEnabled` | src/retailprintguard/correlation/worker.py:916-937 | whatever the engine returns for eligible sale documents is a correlation step the store's theorems speak of: disjoint groups of those documents |
| `CorrelationStore.NonSaleIsRetired` | src/retailprintguard/correlation/worker.py:796-833 | after a run no active correlation holds a reclassified document |
| `CorrelationStore.SeedsAndOrphansAreReplayed` | src/retailprintguard/correlation/worker.py:885-944 | a transaction holding a seed, or a document orphaned by a retirement, is active after the run |
| `CorrelationStore.CorrelateExactly` | src/retailprintguard/correlation/worker.py:881-970 | after a run exactly these rows are active: those of the transactions that hold a seed or an orphan, and the earlier rows that hold no reclassified document and none of such a transaction |
| `CorrelationStore.PersistIsIdempotent` | src/retailprintguard/correlation/worker.py:972-1009 | persisting the same transactions again inserts nothing and changes no status |
| `CorrelationStore.OnlyReproductionReactivates` | src/retailprintguard/correlation/worker.py:981-1009 | rows are never deleted, and a superseded row becomes active again only if the engine reproduced its algorithm and document versions |
| `CorrelationStore.Tables.PersistCorrelation` | src/retailprintguard/correlation/worker.py:972-1071 | supersedes every other active overlap, reactivates or inserts the row, and says whether a row was inserted |
| `CorrelationStore.PersistedStatus` | src/retailprintguard/correlation/worker.py:972-1071 | a persisted transaction keeps the status of its active row; a new or reactivated row is AUTOMATIC for several documents and UNCORRELATED for one |
| `CorrelationStore.Tables.SupersedeNonSale` | src/retailprintguard/correlation/worker.py:796-833 | retires every active correlation that holds a given document and returns all their members |
| `CorrelationStore.Tables.RunOnce` | src/retailprintguard/correlation/worker.py:881-970 | the row changes of a run are one correlation step, and the count is the number of new rows |
| `CorrelationStore.Tables.RecordParse` | src/retailprintguard/parser/repository.py:450-501 | a finished or failed parse sets the import status of a known job and nothing else |
| `CorrelationStore.EligibilityOfSteps` | src/retailprintguard/parser/repository.py:450-501 | which documents are eligible after an import, a parse and a correlation, from the job's capture, parse and review |
| `CorrelationStore.Tables.ReviewJob` | src/retailprintguard/db/repository.py:1367-1488 | an unknown job is absent, a complete one is refused; otherwise the review is one step of the store, whose effect on eligibility, rows and states the next three lemmas state |
| `CorrelationStore.VerifyingReadmits` | src/retailprintguard/db/repository.py:1367-1488 | after VERIFY_USABLE every document of the job is eligible, no row changes and the job is VERIFIED_USABLE |
| `CorrelationStore.WithdrawingRetires` | src/retailprintguard/db/repository.py:1367-1488 | after EXCLUDE or REOPEN no document of the job is eligible, exactly the rows that hold one are superseded, and the job is EXCLUDED or PENDING |
| `CorrelationStore.ReviewIsLocal` | src/retailprintguard/db/repository.py:1367-1488 | other jobs and their documents' eligibility are untouched, capture and import states stay, the watermark is cleared |
| `Watermark.RunAdvances` | src/retailprintguard/correlation/worker.py:560-591 | what stays beyond the watermark is exactly what was not a seed, and its number is what did not fit in the limit |
| `Watermark.AdvancesExactlyWithRoom` | src/retailprintguard/correlation/worker.py:690-722 | the watermark strictly advances iff a version lies beyond it and fewer than `limit` uncorrelated ones lie at or below it in the lookback; it never moves back while the settings are unchanged |
| `Watermark.NothingIsSkipped` | src/retailprintguard/correlation/worker.py:560-591 | over every run, with new versions anywhere, withdrawals, changed settings and deleted watermarks, every eligible version at or below the watermark was a seed since the last restart or arrived late since then |
| `Watermark.RevisitedAreSeeds` | src/retailprintguard/correlation/worker.py:560-586 | an uncorrelated version at or below the watermark in the lookback, such as a late one, is a seed of every run in which all of them fit in the limit |
| `Watermark.EveryVersionBecomesASeed` | src/retailprintguard/correlation/worker.py:522-722 | over a static set, as many runs with room as there are versions make every version a seed |
| `Watermark.StallIsPermanent` | src/retailprintguard/correlation/worker.py:560-591 | while `limit` versions at or below the watermark stay uncorrelated in the lookback, the watermark never moves and nothing beyond it is ever a seed |
| `Watermark.StallExample` | src/retailprintguard/correlation/worker.py:560-591 | two versions and a limit of one on which the second run does not move |
| `Watermark.AnalysisWatermark.CandidateBatch` | src/retailprintguard/correlation/worker.py:560-722 | the seeds are the first `limit` candidates in order, and the stored watermark moves to the last of them or stays |
| `LogQueue.LogAccountingIsConserved` | src/retailprintguard/common/logging.py:169-237 | under every interleaving offered plus summaries equals handled, queued, dropped, discarded, in flight and in hand; dropped equals what accepted summaries carry plus the unreported count; the queue is first in, first out and bounded |
| `LogQueue.EveryCallHasOneFate` | src/retailprintguard/common/logging.py:169-194 | every offered record is in flight, lost, or accepted once, and only one of these |
| `LogQueue.DroppedRecordsIsExactWithoutSummaries` | src/retailprintguard/common/logging.py:265-267 | the reported number is the lost records plus the discarded summaries, so it is exact iff no summary was discarded |
| `LogQueue.ListenerStopsOnSentinel` | src/retailprintguard/common/logging.py:208-238 | when the listener has stopped, everything accepted before the sentinel has left the queue, in order |
| `LogShutdown.StopIsDelayedByPutsOnly` | src/retailprintguard/common/logging.py:208-223 | in every run, with no condition on producers, stopping takes at most three queue operations and two more per item that producers get into the queue meanwhile, and discards at most one record and one more per item |
| `LogShutdown.StopTerminates` | src/retailprintguard/common/logging.py:208-223 | once no record is offered any more, the sentinel is placed within three queue operations and four more per call in flight, whatever the listener and those calls do; the stopper is never blocked |
| `LogShutdown.QuietStopTerminates` | src/retailprintguard/common/logging.py:208-223 | while no producer takes a step, three queue operations and one discarded record are enough |
| `LogShutdown.ProducersCanDelayStop` | src/retailprintguard/common/logging.py:208-223 | the bound is tight: from the initial state, for every capacity and every n, there is a run in which producers put n items and 2n operations are in vain, with three still needed |
| `LogQueue.BoundedLog.Enqueue` | src/retailprintguard/common/logging.py:169-194 | one undisturbed call: summary if there is room, then the record or a counted loss |
| `LogQueue.BoundedLog.EnqueueSentinel` | src/retailprintguard/common/logging.py:208-223 | the sentinel is queued last; a full queue loses its oldest item, and one discard is counted |
| `LogQueue.StepsAloneAreEnqueue` | src/retailprintguard/common/logging.py:169-194 | the state machine's steps of one uninterrupted call do what the method does |
| `Period.ZonedToUtc` | frontend/src/period.ts:41-63 | the two passes compute the resolved instant |
| `Period.ResolvesToLatest` | frontend/src/period.ts:41-63 | a wall clock exists iff its resolved instant reads it, and that is the latest instant that does; so input to UTC to input is the identity exactly for inputs that exist |
| `Period.SkippedResolvesForward` | frontend/src/period.ts:41-63 | a skipped wall clock resolves to an instant that reads later, by at most the widest offset |
| `Period.DisplayRoundTrip` | frontend/src/period.ts:76-95 | a displayed instant resolves to itself iff no later instant reads the same |
| `Period.ResolveKeepsOrder` | frontend/src/period.ts:41-63 | of two wall clocks the earlier resolves earlier iff it exists, or the later one does not, or some instant after the earlier one's reads the later one |
| `Period.ResolveKeepsOrderAcrossJump` | frontend/src/period.ts:41-63 | with at most one change in any 2 * widest minutes the last case is that the later wall clock lies further away than the jump over the earlier one |
| `Period.SkippedBreaksOrder` | frontend/src/period.ts:41-63 | a skipped wall clock can resolve after a later one, on a concrete zone |
| `Period.SeparatesExactlyWhenClean` | frontend/src/period.ts:41-63 | the resolved instant separates earlier from later readings iff exactly one instant reads the wall clock or it is the first skipped minute |
| `Period.PresetHoldsItsDays` | frontend/src/period.ts:65-74 | with clean midnights a preset holds exactly the instants whose local day is one of its days |
| `Period.PresetsByDaysAgo` | frontend/src/period.ts:65-74 | with clean midnights today holds the local day of now, yesterday the day before, and the week that day and the six before it |
| `Period.PresetsMeet` | frontend/src/period.ts:65-74 | yesterday ends where today begins, both are non-empty, the week ends with today, and today ends after now |

## Left out

- Text normalisation, regular expressions, JSON decoding and encoding, real SHA-256 and
  `uuid5`, and rounding of the decimal context.
- Criteria names, explanations and role labels of scored pairs; payments, economic totals and
  line changes of a transaction in `_build_transaction`.
- Completeness of `_candidate_pairs` against the scoring rules, which the code does not
  provide; `BlockingIsExact` states what would be needed.
- `Transactions.OutcomeIsDeterministic`: requires documents with equal identifiers to be equal,
  as the table's primary key guarantees.
- `Clustering.AttachmentFacts`: ties between targets of equal score and distance are broken by
  identifier, so there is one best target; the engine's tuple order does the same.
- `RecordedChanges.ComparisonsExactly`: requires the documents of a transaction to have distinct identifiers,
  as the table's primary key guarantees; so do the lemmas about changes that rest on it.
- `OrderEvidence.AppendsTheMissing`: the operator code of an event and the three totals of a snapshot, copied
  from the document, are not modelled.
- `ChunkStore.InsertChunks`: does not model the fallback numbering of chunks without sequences;
  a direction without a RAW artifact is one without bytes.
- `ChunkStore.StoreThenRead`: is about a session of one job, since offsets restart with each job.
- `Discovery.Adapter.Refresh`: sees one state of the spool; a refresh that is interleaved with
  spool changes, and entries that are not directories, are not modelled.
- `DiscoveryTheorems.IndexAgreesWithFullScan`: assumes that a change of directory entries does
  not leave the directory with the very time the index recorded for it; `ReusedTimeHidesJob`
  shows that this is needed.
- `Drain.Run`: assumes that a pass reports exactly the discovered keys and that the sources do
  not change during the drain; import results and retries are not modelled.
- SQL text and isolation levels; the row lock and the primary key of the audit chain head are
  taken to work as the database documents them.
- `CorrelationStore.EveryRunIsSane`: a job's import and parse states are one flag, whether the last
  of them succeeded; alerts, orders and price attributions are not part of the store.
- `Watermark.AnalysisWatermark.CandidateBatch`: the documents loaded around the seeds are not
  modelled.
- `LogQueue.BoundedLog.EnqueueSentinel`: is the undisturbed call; the interleaved one is in the
  state machine. Joining the listener thread with a timeout and restoring handlers are left out.
- `Period.PresetHoldsItsDays`: instants are whole minutes and calendar fields are minute counts;
  parsing and formatting of the input text and `apiPeriodParams` are left out.
- `_upsert_order`, whose choice among several linked orders is not determined, `update_alert`,
  parsers, proxies, fraud rules, pricing, rendering, read models, HTTP routes, command-line entry
  points and the user interface.
