/**
 Stored correlations as a state machine: persisting the transactions of a run, retiring
 correlations of reclassified documents, reviewing jobs and parsing them again
 (`_persist_correlation`, `_supersede_non_sale_correlations`, `run_once`, `review_job`,
 `store_documents`, `record_failure`). A database transaction is one step. The input
 fingerprint stands for the document versions it digests, and the transaction identifier for
 the set of documents it names, so a row is known by the algorithm and the versions it was
 computed from.
 */
module CorrelationStore {
  import opened Options

  datatype Status = Automatic | Uncorrelated | Superseded

  /** The algorithm version and the version of each member document. */
  datatype RowKey = RowKey(algorithm: nat, versions: map<nat, nat>)

  type Rows = map<RowKey, Status>

  datatype ReviewState = Pending | VerifiedUsable | Excluded

  /** Whether the capture is complete, whether the last import or parse succeeded, and the review. */
  datatype PrintJob = PrintJob(captured: bool, imported: bool, review: ReviewState, excluded: bool)

  predicate Incomplete(p: PrintJob) {
    !p.captured || !p.imported
  }

  datatype Store = Store(rows: Rows, jobs: map<nat, PrintJob>, jobOf: map<nat, nat>, watermark: bool)

  /** What the engine found: document versions, and whether they are correlated or a single document. */
  datatype Transaction = Transaction(versions: map<nat, nat>, correlated: bool)

  datatype ReviewAction = VerifyUsable | ExcludeFromAnalysis | ReopenReview

  predicate Active(rows: Rows, k: RowKey) {
    k in rows && rows[k] != Superseded
  }

  predicate Overlaps(k: RowKey, documents: set<nat>) {
    k.versions.Keys * documents != {}
  }

  // Steps on the rows.

  /** Every active row that holds one of the documents is superseded, except `keep`. */
  function Retire(rows: Rows, documents: set<nat>, keep: set<RowKey>): Rows {
    map k | k in rows :: if rows[k] != Superseded && Overlaps(k, documents) && k !in keep then Superseded else rows[k]
  }

  function FreshStatus(t: Transaction): Status {
    if t.correlated then Automatic else Uncorrelated
  }

  function Persist(rows: Rows, algorithm: nat, t: Transaction): Rows {
    var key := RowKey(algorithm, t.versions);
    var retired := Retire(rows, t.versions.Keys, {key});
    if key in rows && rows[key] != Superseded then retired else retired[key := FreshStatus(t)]
  }

  predicate Seeded(t: Transaction, seeds: set<nat>) {
    t.versions.Keys * seeds != {}
  }

  /** Only a transaction that holds a seed is persisted. */
  function PersistAll(rows: Rows, algorithm: nat, seeds: set<nat>, ts: seq<Transaction>): Rows {
    if ts == [] then rows
    else
      var n := |ts| - 1;
      var before := PersistAll(rows, algorithm, seeds, ts[..n]);
      if Seeded(ts[n], seeds) then Persist(before, algorithm, ts[n]) else before
  }

  /** The documents of the rows that are superseded for holding one of `documents`. */
  function RetiredMembers(rows: Rows, documents: set<nat>): set<nat> {
    set k, d | k in rows && rows[k] != Superseded && Overlaps(k, documents) && d in k.versions.Keys :: d
  }

  // Steps on the store.

  predicate Eligible(s: Store, d: nat) {
    && d in s.jobOf && s.jobOf[d] in s.jobs
    && !s.jobs[s.jobOf[d]].excluded
    && (!Incomplete(s.jobs[s.jobOf[d]]) || s.jobs[s.jobOf[d]].review == VerifiedUsable)
  }

  datatype Step =
    | Ingest(document: nat, job: nat, captured: bool, imported: bool)
    | Parse(job: nat, failed: bool)
    | Correlate(algorithm: nat, seeds: set<nat>, nonSale: set<nat>, transactions: seq<Transaction>)
    | Review(job: nat, action: ReviewAction)

  ghost predicate DisjointTransactions(ts: seq<Transaction>) {
    forall i, j :: 0 <= i < j < |ts| ==> ts[i].versions.Keys !! ts[j].versions.Keys
  }

  /** The engine partitions eligible sale documents; a review addresses a technically incomplete job. */
  ghost predicate Enabled(s: Store, step: Step) {
    match step
    case Ingest(d, j, _, _) => d !in s.jobOf
    case Parse(j, _) => j in s.jobs
    case Correlate(_, seeds, nonSale, ts) =>
      && (seeds == {} ==> nonSale == {} && ts == [])
      && DisjointTransactions(ts)
      && (forall i :: 0 <= i < |ts| ==> ts[i].versions.Keys !! nonSale)
      && (forall i, d :: 0 <= i < |ts| && d in ts[i].versions ==> Eligible(s, d))
    case Review(j, _) => j in s.jobs && Incomplete(s.jobs[j])
  }

  function DocumentsOf(s: Store, j: nat): set<nat> {
    set d | d in s.jobOf && s.jobOf[d] == j
  }

  function Reviewed(p: PrintJob, action: ReviewAction): PrintJob {
    match action
    case VerifyUsable => p.(review := VerifiedUsable, excluded := false)
    case ExcludeFromAnalysis => p.(review := Excluded, excluded := true)
    case ReopenReview => p.(review := Pending, excluded := true)
  }

  function Next(s: Store, step: Step): Store {
    match step
    case Ingest(d, j, captured, imported) =>
      s.(jobs := if j in s.jobs then s.jobs else s.jobs[j := PrintJob(captured, imported, Pending, false)],
         jobOf := s.jobOf[d := j])
    case Parse(j, failed) =>
      if j !in s.jobs then s else s.(jobs := s.jobs[j := s.jobs[j].(imported := !failed)])
    case Correlate(algorithm, seeds, nonSale, ts) =>
      s.(rows := PersistAll(Retire(s.rows, nonSale, {}), algorithm, seeds + RetiredMembers(s.rows, nonSale), ts),
         watermark := s.watermark || seeds != {})
    case Review(j, action) =>
      if j !in s.jobs then s
      else
        var p := Reviewed(s.jobs[j], action);
        s.(jobs := s.jobs[j := p], watermark := false,
           rows := if p.excluded then Retire(s.rows, DocumentsOf(s, j), {}) else s.rows)
  }

  // The invariant.

  /** No document is in two active correlations. */
  ghost predicate OneActive(rows: Rows) {
    forall k, l :: Active(rows, k) && Active(rows, l) && k != l ==> k.versions.Keys !! l.versions.Keys
  }

  /** The document's job is included, and completely captured or verified. */
  predicate Vouched(s: Store, d: nat) {
    && d in s.jobOf && s.jobOf[d] in s.jobs
    && !s.jobs[s.jobOf[d]].excluded
    && (s.jobs[s.jobOf[d]].captured || s.jobs[s.jobOf[d]].review == VerifiedUsable)
  }

  ghost predicate AllVouched(s: Store) {
    forall k, d :: Active(s.rows, k) && d in k.versions ==> Vouched(s, d)
  }

  ghost predicate Sane(s: Store) {
    OneActive(s.rows) && AllVouched(s)
  }

  lemma RetireActive(rows: Rows, documents: set<nat>, keep: set<RowKey>, k: RowKey)
    ensures Retire(rows, documents, keep).Keys == rows.Keys
    ensures Active(Retire(rows, documents, keep), k) <==> Active(rows, k) && (!Overlaps(k, documents) || k in keep)
    ensures Active(Retire(rows, documents, keep), k) ==> Retire(rows, documents, keep)[k] == rows[k]
  {
  }

  lemma PersistActive(rows: Rows, algorithm: nat, t: Transaction, k: RowKey)
    ensures Active(Persist(rows, algorithm, t), k) <==>
            k == RowKey(algorithm, t.versions) || (Active(rows, k) && !Overlaps(k, t.versions.Keys))
    ensures Persist(rows, algorithm, t).Keys == rows.Keys + {RowKey(algorithm, t.versions)}
  {
    var key := RowKey(algorithm, t.versions);
    RetireActive(rows, t.versions.Keys, {key}, k);
    RetireActive(rows, t.versions.Keys, {key}, key);
  }

  lemma PersistKeepsOneActive(rows: Rows, algorithm: nat, t: Transaction)
    requires OneActive(rows)
    ensures OneActive(Persist(rows, algorithm, t))
  {
    var next := Persist(rows, algorithm, t);
    forall k, l | Active(next, k) && Active(next, l) && k != l ensures k.versions.Keys !! l.versions.Keys {
      PersistActive(rows, algorithm, t, k);
      PersistActive(rows, algorithm, t, l);
      if k == RowKey(algorithm, t.versions) {
        ApartIfNoOverlap(l, k);
      } else if l == RowKey(algorithm, t.versions) {
        ApartIfNoOverlap(k, l);
      } else {
        assert Active(rows, k) && Active(rows, l);
      }
    }
  }

  lemma ApartIfNoOverlap(k: RowKey, l: RowKey)
    requires !Overlaps(k, l.versions.Keys)
    ensures k.versions.Keys !! l.versions.Keys
  {
    forall d | d in k.versions.Keys ensures d !in l.versions.Keys {
      assert d in l.versions.Keys ==> d in k.versions.Keys * l.versions.Keys;
    }
  }

  ghost predicate IsRowOf(k: RowKey, algorithm: nat, ts: seq<Transaction>) {
    exists i :: 0 <= i < |ts| && k == RowKey(algorithm, ts[i].versions)
  }

  /** What is active after a run: its own rows, and earlier rows. */
  lemma {:induction false} PersistAllActive(rows: Rows, algorithm: nat, seeds: set<nat>, ts: seq<Transaction>,
                                            k: RowKey)
    ensures Active(PersistAll(rows, algorithm, seeds, ts), k) ==> IsRowOf(k, algorithm, ts) || Active(rows, k)
    decreases |ts|
  {
    if ts != [] {
      var n := |ts| - 1;
      PersistAllActive(rows, algorithm, seeds, ts[..n], k);
      PersistActive(PersistAll(rows, algorithm, seeds, ts[..n]), algorithm, ts[n], k);
      if IsRowOf(k, algorithm, ts[..n]) {
        var i :| 0 <= i < n && k == RowKey(algorithm, ts[..n][i].versions);
        assert k == RowKey(algorithm, ts[i].versions);
      }
    }
  }

  /** A run's transactions do not supersede one another. */
  lemma {:induction false} PersistAllPersists(rows: Rows, algorithm: nat, seeds: set<nat>, ts: seq<Transaction>, i: nat)
    requires DisjointTransactions(ts) && i < |ts| && Seeded(ts[i], seeds)
    ensures Active(PersistAll(rows, algorithm, seeds, ts), RowKey(algorithm, ts[i].versions))
    decreases |ts|
  {
    var n := |ts| - 1;
    var k := RowKey(algorithm, ts[i].versions);
    PersistActive(PersistAll(rows, algorithm, seeds, ts[..n]), algorithm, ts[n], k);
    if i < n {
      assert ts[..n][i] == ts[i];
      PersistAllPersists(rows, algorithm, seeds, ts[..n], i);
      assert ts[i].versions.Keys !! ts[n].versions.Keys;
    }
  }

  lemma {:induction false} PersistAllKeepsOneActive(rows: Rows, algorithm: nat, seeds: set<nat>, ts: seq<Transaction>)
    requires OneActive(rows)
    ensures OneActive(PersistAll(rows, algorithm, seeds, ts))
    decreases |ts|
  {
    if ts != [] {
      PersistAllKeepsOneActive(rows, algorithm, seeds, ts[..|ts| - 1]);
      PersistKeepsOneActive(PersistAll(rows, algorithm, seeds, ts[..|ts| - 1]), algorithm, ts[|ts| - 1]);
    }
  }

  lemma RetireKeepsOneActive(rows: Rows, documents: set<nat>)
    requires OneActive(rows)
    ensures OneActive(Retire(rows, documents, {}))
  {
    forall k, l | Active(Retire(rows, documents, {}), k) && Active(Retire(rows, documents, {}), l) && k != l
      ensures k.versions.Keys !! l.versions.Keys
    {
      RetireActive(rows, documents, {}, k);
      RetireActive(rows, documents, {}, l);
    }
  }

  lemma CorrelateKeepsSane(s: Store, step: Step)
    requires Sane(s) && step.Correlate? && Enabled(s, step)
    ensures Sane(Next(s, step))
  {
    var retired := Retire(s.rows, step.nonSale, {});
    var seeds := step.seeds + RetiredMembers(s.rows, step.nonSale);
    RetireKeepsOneActive(s.rows, step.nonSale);
    PersistAllKeepsOneActive(retired, step.algorithm, seeds, step.transactions);
    var t := Next(s, step);
    forall k, d | Active(t.rows, k) && d in k.versions ensures Vouched(t, d) {
      PersistAllActive(retired, step.algorithm, seeds, step.transactions, k);
      RetireActive(s.rows, step.nonSale, {}, k);
      if IsRowOf(k, step.algorithm, step.transactions) {
        var i :| 0 <= i < |step.transactions| && k == RowKey(step.algorithm, step.transactions[i].versions);
        assert d in step.transactions[i].versions;
        assert Eligible(s, d);
      } else {
        assert Vouched(s, d);
      }
    }
  }

  lemma ReviewKeepsSane(s: Store, step: Step)
    requires Sane(s) && step.Review? && Enabled(s, step)
    ensures Sane(Next(s, step))
  {
    var t := Next(s, step);
    var documents := DocumentsOf(s, step.job);
    RetireKeepsOneActive(s.rows, documents);
    forall k, d | Active(t.rows, k) && d in k.versions ensures Vouched(t, d) {
      RetireActive(s.rows, documents, {}, k);
      assert Vouched(s, d);
      assert s.jobOf[d] == step.job ==> d in k.versions.Keys * documents;
    }
  }

  lemma StepKeepsSane(s: Store, step: Step)
    requires Sane(s) && Enabled(s, step)
    ensures Sane(Next(s, step))
  {
    if step.Correlate? {
      CorrelateKeepsSane(s, step);
    } else if step.Review? {
      ReviewKeepsSane(s, step);
    } else {
      forall k, d | Active(s.rows, k) && d in k.versions ensures Vouched(Next(s, step), d) {
        assert Vouched(s, d);
      }
    }
  }

  ghost predicate IsRun(s: Store, steps: seq<Step>)
    decreases |steps|
  {
    steps == [] || (Enabled(s, steps[0]) && IsRun(Next(s, steps[0]), steps[1..]))
  }

  ghost function After(s: Store, steps: seq<Step>): Store
    requires IsRun(s, steps)
    decreases |steps|
  {
    if steps == [] then s else After(Next(s, steps[0]), steps[1..])
  }

  lemma {:induction false} RunKeepsSane(s: Store, steps: seq<Step>)
    requires Sane(s) && IsRun(s, steps)
    ensures Sane(After(s, steps))
    decreases |steps|
  {
    if steps != [] {
      StepKeepsSane(s, steps[0]);
      RunKeepsSane(Next(s, steps[0]), steps[1..]);
    }
  }

  function Empty(): Store {
    Store(map[], map[], map[], false)
  }

  /** The last parse of the document's job failed and nobody has verified the job. */
  predicate ParseFailed(s: Store, d: nat)
    requires d in s.jobOf && s.jobOf[d] in s.jobs
  {
    !s.jobs[s.jobOf[d]].imported && s.jobs[s.jobOf[d]].review != VerifiedUsable
  }

  /**
   Over any run of ingestion, parsing, correlation, retirement and reviews no document is in two
   active correlations, and no document of an active one belongs to an excluded job. Such a
   document is still eligible if and only if its job's last parse did not fail or the job was
   verified as usable.
   */
  lemma EveryRunIsSane(steps: seq<Step>, k: RowKey, l: RowKey, d: nat)
    requires IsRun(Empty(), steps)
    requires Active(After(Empty(), steps).rows, k) && d in k.versions
    ensures var s := After(Empty(), steps);
            && (Active(s.rows, l) && d in l.versions ==> k == l)
            && d in s.jobOf && s.jobOf[d] in s.jobs && !s.jobs[s.jobOf[d]].excluded
            && (Eligible(s, d) <==> !ParseFailed(s, d))
  {
    assert Sane(Empty());
    RunKeepsSane(Empty(), steps);
    assert Vouched(After(Empty(), steps), d);
  }

  ghost predicate AllEligible(s: Store) {
    forall k, d :: Active(s.rows, k) && d in k.versions ==> Eligible(s, d)
  }

  /** A failed parse of a job that nobody has verified and that has a document in an active row. */
  ghost predicate Strands(s: Store, step: Step) {
    && step.Parse? && step.failed && step.job in s.jobs && s.jobs[step.job].review != VerifiedUsable
    && exists k, d :: Active(s.rows, k) && d in k.versions && d in s.jobOf && s.jobOf[d] == step.job
  }

  lemma CorrelateKeepsEligible(s: Store, step: Step)
    requires step.Correlate? && AllEligible(s) && Enabled(s, step)
    ensures AllEligible(Next(s, step))
  {
    var seeds := step.seeds + RetiredMembers(s.rows, step.nonSale);
    forall k, d | Active(Next(s, step).rows, k) && d in k.versions ensures Eligible(Next(s, step), d) {
      PersistAllActive(Retire(s.rows, step.nonSale, {}), step.algorithm, seeds, step.transactions, k);
      RetireActive(s.rows, step.nonSale, {}, k);
      if IsRowOf(k, step.algorithm, step.transactions) {
        var i :| 0 <= i < |step.transactions| && k == RowKey(step.algorithm, step.transactions[i].versions);
        assert d in step.transactions[i].versions;
      }
      assert Eligible(s, d);
    }
  }

  lemma ReviewKeepsEligible(s: Store, step: Step)
    requires step.Review? && AllEligible(s) && Enabled(s, step)
    ensures AllEligible(Next(s, step))
  {
    var documents := DocumentsOf(s, step.job);
    forall k, d | Active(Next(s, step).rows, k) && d in k.versions ensures Eligible(Next(s, step), d) {
      RetireActive(s.rows, documents, {}, k);
      assert Eligible(s, d);
      assert s.jobOf[d] == step.job ==> d in k.versions.Keys * documents;
    }
  }

  lemma ParseKeepsEligible(s: Store, step: Step)
    requires step.Parse? && AllEligible(s) && Enabled(s, step)
    ensures AllEligible(Next(s, step)) <==> !Strands(s, step)
  {
    var t := Next(s, step);
    if Strands(s, step) {
      var k, d :| Active(s.rows, k) && d in k.versions && d in s.jobOf && s.jobOf[d] == step.job;
      assert Active(t.rows, k) && !Eligible(t, d);
    } else {
      forall k, d | Active(t.rows, k) && d in k.versions ensures Eligible(t, d) {
        assert Active(s.rows, k) && Eligible(s, d);
      }
    }
  }

  /** Every member of an active correlation stays eligible through a step exactly if the step strands none. */
  lemma StaysEligibleUnlessStranded(s: Store, step: Step)
    requires AllEligible(s) && Enabled(s, step)
    ensures AllEligible(Next(s, step)) <==> !Strands(s, step)
  {
    if step.Correlate? {
      CorrelateKeepsEligible(s, step);
    } else if step.Review? {
      ReviewKeepsEligible(s, step);
    } else if step.Parse? {
      ParseKeepsEligible(s, step);
    } else {
      forall k, d | Active(s.rows, k) && d in k.versions ensures Eligible(Next(s, step), d) {
        assert Eligible(s, d);
      }
    }
  }

  /** One document is ingested and correlated, then its job is parsed again and fails. */
  function Reparse(): seq<Step> {
    [Ingest(0, 0, true, true), Correlate(0, {0}, {}, [Transaction(map[0 := 0], false)]), Parse(0, true)]
  }

  lemma ReparseStrands()
    ensures IsRun(Empty(), Reparse())
    ensures var s, k := After(Empty(), Reparse()), RowKey(0, map[0 := 0]);
            Active(s.rows, k) && 0 in k.versions && !Eligible(s, 0)
  {
    var steps, t := Reparse(), Transaction(map[0 := 0], false);
    var one := Next(Empty(), steps[0]);
    assert Eligible(one, 0);
    assert Enabled(one, steps[1]);
    var two := Next(one, steps[1]);
    PersistAllPersists(Retire(one.rows, {}, {}), 0, {0} + RetiredMembers(one.rows, {}), [t], 0);
    var three := Next(two, steps[2]);
    assert steps[1..][1..] == steps[2..] && steps[2..][1..] == [];
    assert IsRun(three, []) && After(three, []) == three;
    assert IsRun(two, steps[2..]) && After(two, steps[2..]) == three;
    assert IsRun(one, steps[1..]) && After(one, steps[1..]) == three;
  }

  /** After a correlation step no active row holds a document that is no longer a sale. */
  lemma NonSaleIsRetired(s: Store, step: Step, k: RowKey, d: nat)
    requires step.Correlate? && Enabled(s, step)
    requires Active(Next(s, step).rows, k) && d in k.versions
    ensures d !in step.nonSale
  {
    var nonSale := step.nonSale;
    var seeds := step.seeds + RetiredMembers(s.rows, nonSale);
    PersistAllActive(Retire(s.rows, nonSale, {}), step.algorithm, seeds, step.transactions, k);
    RetireActive(s.rows, nonSale, {}, k);
    assert d in nonSale ==> d in k.versions.Keys * nonSale;
  }

  /**
   After a correlation step a transaction that holds a seed is active; so is one that holds a
   document whose correlation was just retired because of another member.
   */
  lemma SeedsAndOrphansAreReplayed(s: Store, step: Step, i: nat, d: nat, k: RowKey)
    requires step.Correlate? && Enabled(s, step)
    requires i < |step.transactions| && d in step.transactions[i].versions
    requires d in step.seeds || (Active(s.rows, k) && Overlaps(k, step.nonSale) && d in k.versions)
    ensures Active(Next(s, step).rows, RowKey(step.algorithm, step.transactions[i].versions))
  {
    var seeds := step.seeds + RetiredMembers(s.rows, step.nonSale);
    assert d in step.transactions[i].versions.Keys * seeds;
    PersistAllPersists(Retire(s.rows, step.nonSale, {}), step.algorithm, seeds, step.transactions, i);
  }

  // What each step does to documents and rows.

  /** Verifying a job makes every document of it eligible and leaves all correlations as they are. */
  lemma VerifyingReadmits(s: Store, j: nat)
    requires j in s.jobs
    ensures var t := Next(s, Review(j, VerifyUsable));
            && (forall d :: d in s.jobOf && s.jobOf[d] == j ==> Eligible(t, d))
            && t.rows == s.rows
            && t.jobs[j].review == VerifiedUsable
  {
  }

  /**
   Excluding a job, or reopening its review, makes every document of it ineligible and supersedes
   exactly the correlations that hold one of them.
   */
  lemma WithdrawingRetires(s: Store, j: nat, action: ReviewAction)
    requires j in s.jobs && action != VerifyUsable
    ensures var t := Next(s, Review(j, action));
            && (forall d :: d in s.jobOf && s.jobOf[d] == j ==> !Eligible(t, d))
            && (forall k, d :: Active(t.rows, k) && d in k.versions && d in s.jobOf ==> s.jobOf[d] != j)
            && (forall k :: k in s.rows && (forall d :: d in k.versions && d in s.jobOf ==> s.jobOf[d] != j) ==>
                              k in t.rows && t.rows[k] == s.rows[k])
            && t.rows.Keys == s.rows.Keys
            && t.jobs[j].review == if action == ExcludeFromAnalysis then Excluded else Pending
  {
    var t, documents := Next(s, Review(j, action)), DocumentsOf(s, j);
    forall k, d | Active(t.rows, k) && d in k.versions && d in s.jobOf ensures s.jobOf[d] != j {
      RetireActive(s.rows, documents, {}, k);
      assert s.jobOf[d] == j ==> d in k.versions.Keys * documents;
    }
    forall k | k in s.rows && (forall d :: d in k.versions && d in s.jobOf ==> s.jobOf[d] != j)
      ensures k in t.rows && t.rows[k] == s.rows[k]
    {
      assert !Overlaps(k, documents);
    }
  }

  /** A review touches no other job, keeps what is known of the capture and the import, and clears the watermark. */
  lemma ReviewIsLocal(s: Store, j: nat, action: ReviewAction, d: nat)
    requires j in s.jobs
    ensures var t := Next(s, Review(j, action));
            && (d !in s.jobOf || s.jobOf[d] != j ==> (Eligible(t, d) <==> Eligible(s, d)))
            && t.jobs.Keys == s.jobs.Keys && t.jobOf == s.jobOf && !t.watermark
            && (forall i :: i in s.jobs && i != j ==> t.jobs[i] == s.jobs[i])
            && t.jobs[j].captured == s.jobs[j].captured && t.jobs[j].imported == s.jobs[j].imported
  {
  }

  /**
   A new job is eligible iff its capture and import are complete; a parse makes its job's documents eligible
   iff the job is included and either captured and parsed without failure or verified.
   */
  lemma EligibilityOfSteps(s: Store, step: Step, d: nat)
    requires Enabled(s, step)
    ensures step.Ingest? && step.job !in s.jobs && d == step.document ==>
              (Eligible(Next(s, step), d) <==> step.captured && step.imported)
    ensures step.Parse? && d in s.jobOf && s.jobOf[d] == step.job ==>
              var p := s.jobs[step.job];
              Eligible(Next(s, step), d) <==>
              !p.excluded && ((p.captured && !step.failed) || p.review == VerifiedUsable)
    ensures step.Correlate? ==> (Eligible(Next(s, step), d) <==> Eligible(s, d))
  {
  }

  lemma PersistStatus(rows: Rows, algorithm: nat, t: Transaction, k: RowKey)
    requires k in Persist(rows, algorithm, t)
    ensures var r := Persist(rows, algorithm, t)[k];
            && (k == RowKey(algorithm, t.versions) && !Active(rows, k) ==>
                  r == if t.correlated then Automatic else Uncorrelated)
            && (Active(rows, k) && r != Superseded ==> r == rows[k])
  {
  }

  /**
   A persisted transaction keeps the status of its active row; otherwise its row is automatic when
   documents were correlated and uncorrelated for a single document.
   */
  lemma {:induction false} PersistedStatus(rows: Rows, algorithm: nat, seeds: set<nat>, ts: seq<Transaction>, i: nat)
    requires DisjointTransactions(ts) && i < |ts| && Seeded(ts[i], seeds)
    ensures var k, r := RowKey(algorithm, ts[i].versions), PersistAll(rows, algorithm, seeds, ts);
            && k in r
            && r[k] == if Active(rows, k) then rows[k] else if ts[i].correlated then Automatic else Uncorrelated
    decreases |ts|
  {
    var n := |ts| - 1;
    var k := RowKey(algorithm, ts[i].versions);
    var before := PersistAll(rows, algorithm, seeds, ts[..n]);
    PersistAllPersists(rows, algorithm, seeds, ts, i);
    if i < n {
      assert ts[..n][i] == ts[i];
      PersistedStatus(rows, algorithm, seeds, ts[..n], i);
      PersistAllPersists(rows, algorithm, seeds, ts[..n], i);
      if Seeded(ts[n], seeds) {
        PersistStatus(before, algorithm, ts[n], k);
      }
    } else {
      UntouchedByOthers(rows, algorithm, seeds, ts[..n], k);
      PersistStatus(before, algorithm, ts[n], k);
    }
  }

  /** Some seeded transaction of the run computes the row. */
  ghost predicate IsSeededRow(k: RowKey, algorithm: nat, seeds: set<nat>, ts: seq<Transaction>) {
    exists i :: 0 <= i < |ts| && Seeded(ts[i], seeds) && k == RowKey(algorithm, ts[i].versions)
  }

  /** Some seeded transaction of the run holds a document of the row. */
  ghost predicate Overtaken(k: RowKey, seeds: set<nat>, ts: seq<Transaction>) {
    exists i :: 0 <= i < |ts| && Seeded(ts[i], seeds) && Overlaps(k, ts[i].versions.Keys)
  }

  lemma SeededUpToLast(k: RowKey, algorithm: nat, seeds: set<nat>, ts: seq<Transaction>)
    requires ts != []
    ensures var n := |ts| - 1;
            && (IsSeededRow(k, algorithm, seeds, ts) <==>
                  || IsSeededRow(k, algorithm, seeds, ts[..n])
                  || (Seeded(ts[n], seeds) && k == RowKey(algorithm, ts[n].versions)))
            && (Overtaken(k, seeds, ts) <==>
                  Overtaken(k, seeds, ts[..n]) || (Seeded(ts[n], seeds) && Overlaps(k, ts[n].versions.Keys)))
  {
    var n := |ts| - 1;
    assert forall i :: 0 <= i < n ==> ts[..n][i] == ts[i];
  }

  lemma SeededRowIsApart(k: RowKey, algorithm: nat, seeds: set<nat>, ts: seq<Transaction>)
    requires ts != [] && DisjointTransactions(ts) && IsSeededRow(k, algorithm, seeds, ts[..|ts| - 1])
    ensures !Overlaps(k, ts[|ts| - 1].versions.Keys)
  {
    var n := |ts| - 1;
    var i :| 0 <= i < n && Seeded(ts[..n][i], seeds) && k == RowKey(algorithm, ts[..n][i].versions);
    assert ts[..n][i] == ts[i] && ts[i].versions.Keys !! ts[n].versions.Keys;
  }

  /**
   After a run exactly these rows are active: those of its seeded transactions, and the rows active
   before that hold no document of a seeded transaction.
   */
  lemma {:induction false} ActiveExactly(rows: Rows, algorithm: nat, seeds: set<nat>, ts: seq<Transaction>, k: RowKey)
    requires DisjointTransactions(ts)
    ensures Active(PersistAll(rows, algorithm, seeds, ts), k) <==>
            IsSeededRow(k, algorithm, seeds, ts) || (Active(rows, k) && !Overtaken(k, seeds, ts))
    decreases |ts|
  {
    if ts != [] {
      var n := |ts| - 1;
      ActiveExactly(rows, algorithm, seeds, ts[..n], k);
      PersistActive(PersistAll(rows, algorithm, seeds, ts[..n]), algorithm, ts[n], k);
      SeededUpToLast(k, algorithm, seeds, ts);
      if IsSeededRow(k, algorithm, seeds, ts[..n]) {
        SeededRowIsApart(k, algorithm, seeds, ts);
      }
    }
  }

  /** A correlation step: what is active after it, from what was active before. */
  lemma CorrelateExactly(s: Store, step: Step, k: RowKey)
    requires step.Correlate? && Enabled(s, step)
    ensures var seeds := step.seeds + RetiredMembers(s.rows, step.nonSale);
            Active(Next(s, step).rows, k) <==>
            || IsSeededRow(k, step.algorithm, seeds, step.transactions)
            || (Active(s.rows, k) && !Overlaps(k, step.nonSale) && !Overtaken(k, seeds, step.transactions))
    ensures forall d :: d in RetiredMembers(s.rows, step.nonSale) <==>
                        exists l :: Active(s.rows, l) && Overlaps(l, step.nonSale) && d in l.versions
  {
    var seeds := step.seeds + RetiredMembers(s.rows, step.nonSale);
    RetireActive(s.rows, step.nonSale, {}, k);
    ActiveExactly(Retire(s.rows, step.nonSale, {}), step.algorithm, seeds, step.transactions, k);
    forall d | d in RetiredMembers(s.rows, step.nonSale)
      ensures exists l :: Active(s.rows, l) && Overlaps(l, step.nonSale) && d in l.versions
    {
      var l :| l in s.rows && s.rows[l] != Superseded && Overlaps(l, step.nonSale) && d in l.versions.Keys;
      assert Active(s.rows, l);
    }
  }

  /** A row apart from every transaction keeps its status. */
  lemma {:induction false} UntouchedByOthers(rows: Rows, algorithm: nat, seeds: set<nat>, ts: seq<Transaction>,
                                             k: RowKey)
    requires k.versions.Keys != {} && forall j :: 0 <= j < |ts| ==> ts[j].versions.Keys !! k.versions.Keys
    ensures var r := PersistAll(rows, algorithm, seeds, ts); (k in r <==> k in rows) && (k in r ==> r[k] == rows[k])
    decreases |ts|
  {
    if ts != [] {
      var n := |ts| - 1;
      assert forall j :: 0 <= j < n ==> ts[..n][j] == ts[j];
      UntouchedByOthers(rows, algorithm, seeds, ts[..n], k);
      assert ts[n].versions.Keys !! k.versions.Keys && !Overlaps(k, ts[n].versions.Keys);
    }
  }

  // Idempotence.

  lemma PersistAgain(rows: Rows, algorithm: nat, t: Transaction)
    requires Active(rows, RowKey(algorithm, t.versions)) && OneActive(rows)
    ensures Persist(rows, algorithm, t) == rows
  {
    var key := RowKey(algorithm, t.versions);
    forall k | k in rows && k != key && rows[k] != Superseded ensures !Overlaps(k, t.versions.Keys) {
      assert Active(rows, k) && k.versions.Keys !! key.versions.Keys;
    }
    assert Retire(rows, t.versions.Keys, {key}) == rows;
  }

  lemma {:induction false} PersistAllAgain(rows: Rows, algorithm: nat, seeds: set<nat>, ts: seq<Transaction>)
    requires OneActive(rows)
    requires forall i :: 0 <= i < |ts| && Seeded(ts[i], seeds) ==> Active(rows, RowKey(algorithm, ts[i].versions))
    ensures PersistAll(rows, algorithm, seeds, ts) == rows
    decreases |ts|
  {
    if ts != [] {
      PersistAllAgain(rows, algorithm, seeds, ts[..|ts| - 1]);
      if Seeded(ts[|ts| - 1], seeds) {
        PersistAgain(rows, algorithm, ts[|ts| - 1]);
      }
    }
  }

  /** Persisting the same transactions again inserts nothing and changes no status. */
  lemma PersistIsIdempotent(rows: Rows, algorithm: nat, seeds: set<nat>, ts: seq<Transaction>)
    requires OneActive(rows) && DisjointTransactions(ts)
    ensures var once := PersistAll(rows, algorithm, seeds, ts); PersistAll(once, algorithm, seeds, ts) == once
  {
    var once := PersistAll(rows, algorithm, seeds, ts);
    PersistAllKeepsOneActive(rows, algorithm, seeds, ts);
    forall i | 0 <= i < |ts| && Seeded(ts[i], seeds) ensures Active(once, RowKey(algorithm, ts[i].versions)) {
      PersistAllPersists(rows, algorithm, seeds, ts, i);
    }
    PersistAllAgain(once, algorithm, seeds, ts);
  }

  // Reactivation.

  lemma {:induction false} PersistAllKeys(rows: Rows, algorithm: nat, seeds: set<nat>, ts: seq<Transaction>)
    ensures rows.Keys <= PersistAll(rows, algorithm, seeds, ts).Keys
    decreases |ts|
  {
    if ts != [] {
      var n := |ts| - 1;
      PersistAllKeys(rows, algorithm, seeds, ts[..n]);
      PersistActive(PersistAll(rows, algorithm, seeds, ts[..n]), algorithm, ts[n], RowKey(algorithm, ts[n].versions));
    }
  }

  /**
   No row is ever deleted, and a superseded row becomes active again only in a correlation
   step whose engine reproduced the row's algorithm and document versions exactly.
   */
  lemma OnlyReproductionReactivates(s: Store, step: Step, k: RowKey)
    requires Enabled(s, step)
    ensures s.rows.Keys <= Next(s, step).rows.Keys
    ensures k in s.rows && s.rows[k] == Superseded && Active(Next(s, step).rows, k) ==>
              step.Correlate? && IsRowOf(k, step.algorithm, step.transactions)
  {
    match step {
      case Ingest(_, _, _, _) =>
      case Parse(_, _) =>
      case Correlate(algorithm, batch, nonSale, ts) =>
        var retired := Retire(s.rows, nonSale, {});
        var seeds := batch + RetiredMembers(s.rows, nonSale);
        RetireActive(s.rows, nonSale, {}, k);
        PersistAllKeys(retired, algorithm, seeds, ts);
        PersistAllActive(retired, algorithm, seeds, ts, k);
      case Review(j, _) =>
        RetireActive(s.rows, DocumentsOf(s, j), {}, k);
    }
  }

  // The tables as the two services update them.

  class Tables {
    var rows: Rows
    var jobs: map<nat, PrintJob>
    var jobOf: map<nat, nat>
    var watermark: bool

    function State(): Store
      reads this
    {
      Store(rows, jobs, jobOf, watermark)
    }

    /** Supersedes, row by row, what `Retire` says. */
    method SupersedeOverlaps(documents: set<nat>, keep: set<RowKey>)
      modifies this`rows
      ensures rows == Retire(old(rows), documents, keep)
    {
      var previous := set k | k in rows && rows[k] != Superseded && Overlaps(k, documents) && k !in keep;
      while previous != {}
        invariant rows.Keys == old(rows).Keys
        invariant forall k :: k in previous ==>
                  k in old(rows) && old(rows)[k] != Superseded && Overlaps(k, documents) && k !in keep
        invariant forall k :: k in old(rows) ==>
                  rows[k] == if k in previous then old(rows)[k] else Retire(old(rows), documents, keep)[k]
        decreases previous
      {
        var row :| row in previous;
        rows := rows[row := Superseded];
        previous := previous - {row};
      }
    }

    /** `_persist_correlation`; says whether a row was inserted. */
    method PersistCorrelation(algorithm: nat, t: Transaction) returns (inserted: bool)
      modifies this`rows
      ensures rows == Persist(old(rows), algorithm, t)
      ensures inserted <==> RowKey(algorithm, t.versions) !in old(rows)
      ensures |rows.Keys| == |old(rows).Keys| + if inserted then 1 else 0
    {
      PersistActive(rows, algorithm, t, RowKey(algorithm, t.versions));
      var key := RowKey(algorithm, t.versions);
      if key in rows {
        SupersedeOverlaps(t.versions.Keys, {key});
        if rows[key] == Superseded {
          rows := rows[key := FreshStatus(t)];
        }
        assert rows.Keys == old(rows).Keys;
        return false;
      }
      SupersedeOverlaps(t.versions.Keys, {key});
      rows := rows[key := FreshStatus(t)];
      inserted := true;
    }

    /** `_supersede_non_sale_correlations`; returns the members of the retired rows. */
    method SupersedeNonSale(documents: set<nat>) returns (members: set<nat>)
      modifies this`rows
      ensures rows == Retire(old(rows), documents, {})
      ensures members == RetiredMembers(old(rows), documents)
    {
      members := set k, d | k in rows && rows[k] != Superseded && Overlaps(k, documents) && d in k.versions.Keys :: d;
      SupersedeOverlaps(documents, {});
    }

    method PersistTransactions(algorithm: nat, seeds: set<nat>, ts: seq<Transaction>) returns (inserted: nat)
      modifies this`rows
      ensures rows == PersistAll(old(rows), algorithm, seeds, ts)
      ensures inserted == |rows.Keys| - |old(rows).Keys|
    {
      inserted := 0;
      for i := 0 to |ts|
        invariant rows == PersistAll(old(rows), algorithm, seeds, ts[..i])
        invariant inserted == |rows.Keys| - |old(rows).Keys|
      {
        assert ts[..i + 1][..i] == ts[..i];
        if Seeded(ts[i], seeds) {
          var created := PersistCorrelation(algorithm, ts[i]);
          inserted := inserted + if created then 1 else 0;
        }
      }
      assert ts[..|ts|] == ts;
    }

    /** The row changes of `run_once`. */
    method RunOnce(algorithm: nat, batch: set<nat>, nonSale: set<nat>, ts: seq<Transaction>) returns (inserted: nat)
      modifies this
      ensures State() == Next(old(State()), Correlate(algorithm, batch, nonSale, ts))
      ensures inserted == |rows.Keys| - |old(rows).Keys|
    {
      watermark := watermark || batch != {};
      var members := SupersedeNonSale(nonSale);
      assert rows.Keys == old(rows).Keys;
      inserted := PersistTransactions(algorithm, batch + members, ts);
    }

    /** The import status that `store_documents` or `record_failure` leaves on a job. */
    method RecordParse(job: nat, failed: bool)
      modifies this`jobs
      ensures State() == Next(old(State()), Parse(job, failed))
    {
      if job in jobs {
        jobs := jobs[job := jobs[job].(imported := !failed)];
      }
    }

    /** `review_job`: an unknown job is reported as absent, a technically complete one is refused. */
    method ReviewJob(job: nat, action: ReviewAction) returns (r: Result<bool, string>)
      modifies this
      ensures r.Ok? && r.value <==> job in old(jobs) && Incomplete(old(jobs)[job])
      ensures r.Ok? && r.value ==> State() == Next(old(State()), Review(job, action))
      ensures !(r.Ok? && r.value) ==> State() == old(State())
      ensures r.Err? <==> job in old(jobs) && !Incomplete(old(jobs)[job])
    {
      if job !in jobs {
        return Ok(false);
      }
      if !Incomplete(jobs[job]) {
        return Err("only technically incomplete jobs can be reviewed");
      }
      jobs := jobs[job := Reviewed(jobs[job], action)];
      watermark := false;
      if jobs[job].excluded {
        SupersedeOverlaps(set d | d in jobOf && jobOf[d] == job, {});
      }
      r := Ok(true);
    }
  }
}
