/**
 The shared audit chain and its two writers: the repository's audit entries and the worker's
 parser activations (`_append_audit_session`, `_append_parser_activation_audit`). A session
 selects the chain head for update, appends records and commits, or rolls back. The select
 locks an existing head row; a missing row locks nothing, so several sessions may find it
 missing and try to insert it, and its primary key lets one of them through.
 */
module AuditLog {
  import opened Options
  import opened HashChain

  datatype Entry = Entry(
    actor: Option<nat>,
    action: string,
    entityType: string,
    entityId: string,
    correlationId: string,
    occurredAt: int,
    metadata: string)

  /** The hashed content of an audit record: its sequence number and its entry. */
  type Body = (nat, Entry)

  datatype ChainHead = ChainHead(sequence: nat, recordHash: Hash)

  /** What the repository or the worker appends. */
  datatype Request =
    | Audit(entry: Entry)
    | Activation(actor: Option<nat>, versionId: string, occurredAt: int, details: string)

  /** The entry of a parser activation. */
  function ActivationEntry(actor: Option<nat>, versionId: string, occurredAt: int, details: string): Entry {
    Entry(actor, "PARSER_ACTIVATED", "PARSER_VERSION", versionId, "parser-activation:" + versionId, occurredAt, details)
  }

  function EntryOf(r: Request): Entry {
    match r
    case Audit(entry) => entry
    case Activation(actor, versionId, occurredAt, details) => ActivationEntry(actor, versionId, occurredAt, details)
  }

  /** The session that owns the head row, the head as it sees it, and its uncommitted records. */
  datatype Owner = Owner(session: nat, head: ChainHead, pending: seq<Record<Body>>)

  /** The committed records and head row, the owner, and the sessions that found no head row. */
  datatype State = State(records: seq<Record<Body>>, head: Option<ChainHead>, owner: Option<Owner>, missed: set<nat>)

  const EMPTY := State([], None, None, {})

  datatype Step =
    | Select(session: nat)
    | Insert(session: nat)
    | Append(session: nat, request: Request)
    | Commit(session: nat)
    | Rollback(session: nat)

  predicate Owns(s: State, session: nat) {
    s.owner.Some? && s.owner.value.session == session
  }

  /** Only a committed head row can be locked; an insert waits for another session's uncommitted one. */
  predicate Enabled(s: State, step: Step) {
    match step
    case Select(w) => !Owns(s, w) && w !in s.missed && (s.head.Some? ==> s.owner.None?)
    case Insert(w) => w in s.missed && (s.head.None? ==> s.owner.None?)
    case Append(w, _) => Owns(s, w)
    case Commit(w) => Owns(s, w)
    case Rollback(w) => Owns(s, w) || w in s.missed
  }

  function AppendTo(o: Owner, entry: Entry, h: Hasher<Body>): Owner {
    var sequence := o.head.sequence + 1;
    var recordHash := h((sequence, entry), o.head.recordHash, o.head.recordHash);
    Owner(o.session, ChainHead(sequence, recordHash),
          o.pending + [Record((sequence, entry), o.head.recordHash, recordHash)])
  }

  function Next(s: State, step: Step, h: Hasher<Body>): State
    requires Enabled(s, step)
  {
    match step
    case Select(w) =>
      if s.head.Some? then s.(owner := Some(Owner(w, s.head.value, []))) else s.(missed := s.missed + {w})
    case Insert(w) =>
      // A duplicate key fails the flush and rolls the session back.
      if s.head.Some? then s.(missed := s.missed - {w})
      else s.(owner := Some(Owner(w, ChainHead(0, ZERO_HASH), [])), missed := s.missed - {w})
    case Append(w, request) => s.(owner := Some(AppendTo(s.owner.value, EntryOf(request), h)))
    case Commit(w) =>
      s.(records := s.records + s.owner.value.pending, head := Some(s.owner.value.head), owner := None)
    case Rollback(w) => if Owns(s, w) then s.(owner := None) else s.(missed := s.missed - {w})
  }

  ghost predicate Numbered(records: seq<Record<Body>>) {
    forall i :: 0 <= i < |records| ==> records[i].body.0 == i + 1
  }

  /** The chain verifies, is numbered from one without gap, and ends at the head. */
  ghost predicate EndsAt(records: seq<Record<Body>>, head: ChainHead, h: Hasher<Body>) {
    Chained(records, h) && Numbered(records) && head == ChainHead(|records|, Head(records))
  }

  /** The committed head row is the last committed record, and the owner's is the last of its own view. */
  ghost predicate Intact(s: State, h: Hasher<Body>) {
    && EndsAt(s.records, if s.head.Some? then s.head.value else ChainHead(0, ZERO_HASH), h)
    && (s.owner.Some? ==> EndsAt(s.records + s.owner.value.pending, s.owner.value.head, h))
    && (s.owner.Some? ==> s.owner.value.session !in s.missed)
  }

  lemma AppendExtends(records: seq<Record<Body>>, o: Owner, entry: Entry, h: Hasher<Body>)
    requires EndsAt(records + o.pending, o.head, h)
    ensures EndsAt(records + AppendTo(o, entry, h).pending, AppendTo(o, entry, h).head, h)
  {
    var view := records + o.pending;
    ExtendChained(view, (|view| + 1, entry), h);
    assert records + AppendTo(o, entry, h).pending == Extend(view, (|view| + 1, entry), h);
  }

  lemma StepKeepsIntact(s: State, step: Step, h: Hasher<Body>)
    requires Intact(s, h) && Enabled(s, step)
    ensures Intact(Next(s, step, h), h)
    ensures s.records <= Next(s, step, h).records
  {
    var none: seq<Record<Body>> := [];
    assert s.records + none == s.records;
    if step.Append? {
      AppendExtends(s.records, s.owner.value, EntryOf(step.request), h);
    }
  }

  ghost predicate IsRun(s: State, steps: seq<Step>, h: Hasher<Body>)
    decreases |steps|
  {
    steps == [] || (Enabled(s, steps[0]) && IsRun(Next(s, steps[0], h), steps[1..], h))
  }

  ghost function After(s: State, steps: seq<Step>, h: Hasher<Body>): State
    requires IsRun(s, steps, h)
    decreases |steps|
  {
    if steps == [] then s else After(Next(s, steps[0], h), steps[1..], h)
  }

  lemma {:induction false} RunKeepsIntact(s: State, steps: seq<Step>, h: Hasher<Body>)
    requires Intact(s, h) && IsRun(s, steps, h)
    ensures Intact(After(s, steps, h), h)
    ensures s.records <= After(s, steps, h).records
    decreases |steps|
  {
    if steps != [] {
      StepKeepsIntact(s, steps[0], h);
      RunKeepsIntact(Next(s, steps[0], h), steps[1..], h);
    }
  }

  /**
   Any interleaving of sessions of both writers, with their locks, their races for a missing
   head row, their failed inserts and their rollbacks, keeps one contiguous chain that
   verifies and whose head row is its last record; committed records are never changed.
   */
  lemma EveryInterleavingIsOneChain(earlier: seq<Step>, later: seq<Step>, h: Hasher<Body>)
    requires IsRun(EMPTY, earlier, h) && IsRun(After(EMPTY, earlier, h), later, h)
    ensures Intact(After(EMPTY, earlier, h), h)
    ensures After(EMPTY, earlier, h).records <= After(After(EMPTY, earlier, h), later, h).records
  {
    RunKeepsIntact(EMPTY, earlier, h);
    RunKeepsIntact(After(EMPTY, earlier, h), later, h);
  }

  // What is committed.

  function EntriesOf(records: seq<Record<Body>>): seq<Entry> {
    seq(|records|, i requires 0 <= i < |records| => records[i].body.1)
  }

  /** The entries that a session asks for, in order. */
  function RequestsOf(steps: seq<Step>, w: nat): seq<Entry> {
    if steps == [] then [] else RequestOf(steps[0], w) + RequestsOf(steps[1..], w)
  }

  function RequestOf(step: Step, w: nat): seq<Entry> {
    if step.Append? && step.session == w then [EntryOf(step.request)] else []
  }

  /** Only a commit changes the committed records; a session that obtains the head row has appended nothing yet. */
  lemma OnlyCommitsAppend(s: State, step: Step, h: Hasher<Body>)
    requires Enabled(s, step)
    ensures !step.Commit? ==> Next(s, step, h).records == s.records && Next(s, step, h).head == s.head
    ensures step.Commit? ==> Next(s, step, h).head.Some?
    ensures Owns(Next(s, step, h), step.session) && !Owns(s, step.session) ==>
              (step.Select? || step.Insert?) && Next(s, step, h).owner.value.pending == []
  {
  }

  lemma AppendedEntry(o: Owner, entry: Entry, h: Hasher<Body>)
    ensures EntriesOf(AppendTo(o, entry, h).pending) == EntriesOf(o.pending) + [entry]
  {
  }

  /** While a session owns the head row, nothing is committed and the session's requests pile up. */
  lemma {:induction false} RequestsPileUp(s: State, steps: seq<Step>, w: nat, h: Hasher<Body>)
    requires Owns(s, w) && IsRun(s, steps, h)
    requires forall i :: 0 <= i < |steps| && steps[i].session == w ==> steps[i].Append?
    ensures var t := After(s, steps, h);
            && Owns(t, w) && t.records == s.records
            && EntriesOf(t.owner.value.pending) == EntriesOf(s.owner.value.pending) + RequestsOf(steps, w)
    decreases |steps|
  {
    if steps != [] {
      var next, rest := Next(s, steps[0], h), steps[1..];
      OtherStepsKeepOwner(s, steps[0], w, h);
      forall i | 0 <= i < |rest| && rest[i].session == w ensures rest[i].Append? {
        assert rest[i] == steps[i + 1];
      }
      RequestsPileUp(next, rest, w, h);
      Associative(EntriesOf(s.owner.value.pending), RequestOf(steps[0], w), RequestsOf(rest, w));
    }
  }

  lemma Associative<T>(a: seq<T>, b: seq<T>, c: seq<T>)
    ensures (a + b) + c == a + (b + c)
  {
  }

  lemma OtherStepsKeepOwner(s: State, step: Step, w: nat, h: Hasher<Body>)
    requires Owns(s, w) && Enabled(s, step) && (step.session == w ==> step.Append?)
    ensures var t := Next(s, step, h);
            && Owns(t, w) && t.records == s.records
            && EntriesOf(t.owner.value.pending) == EntriesOf(s.owner.value.pending) + RequestOf(step, w)
  {
    if step.Append? {
      AppendedEntry(s.owner.value, EntryOf(step.request), h);
    }
  }

  lemma {:induction false} RunThenStep(s: State, steps: seq<Step>, step: Step, h: Hasher<Body>)
    requires IsRun(s, steps, h) && Enabled(After(s, steps, h), step)
    ensures IsRun(s, steps + [step], h) && After(s, steps + [step], h) == Next(After(s, steps, h), step, h)
    decreases |steps|
  {
    if steps == [] {
      assert [step][1..] == [];
      assert steps + [step] == [step];
      assert IsRun(Next(s, step, h), [], h);
    } else {
      RunThenStep(Next(s, steps[0], h), steps[1..], step, h);
      assert (steps + [step])[1..] == steps[1..] + [step];
    }
  }

  /**
   Whatever other sessions do meanwhile, a session that has just obtained the head row commits
   exactly the entries it asked for, in that order and behind everything committed before.
   */
  lemma CommitsItsRequests(s: State, steps: seq<Step>, w: nat, h: Hasher<Body>)
    requires Owns(s, w) && s.owner.value.pending == [] && IsRun(s, steps, h)
    requires forall i :: 0 <= i < |steps| && steps[i].session == w ==> steps[i].Append?
    ensures IsRun(s, steps + [Commit(w)], h)
    ensures EntriesOf(After(s, steps + [Commit(w)], h).records) == EntriesOf(s.records) + RequestsOf(steps, w)
  {
    RequestsPileUp(s, steps, w, h);
    RunThenStep(s, steps, Commit(w), h);
    CommitStep(After(s, steps, h), w, h);
  }

  lemma CommitStep(s: State, w: nat, h: Hasher<Body>)
    requires Owns(s, w)
    ensures EntriesOf(Next(s, Commit(w), h).records) == EntriesOf(s.records) + EntriesOf(s.owner.value.pending)
  {
  }

  /** A session that rolls back instead leaves nothing. */
  lemma RollsBackItsRequests(s: State, steps: seq<Step>, w: nat, h: Hasher<Body>)
    requires Owns(s, w) && IsRun(s, steps, h)
    requires forall i :: 0 <= i < |steps| && steps[i].session == w ==> steps[i].Append?
    ensures IsRun(s, steps + [Rollback(w)], h)
    ensures After(s, steps + [Rollback(w)], h).records == s.records
    ensures After(s, steps + [Rollback(w)], h).owner.None?
  {
    RequestsPileUp(s, steps, w, h);
    RunThenStep(s, steps, Rollback(w), h);
  }

  lemma {:induction false} MissedStays(s: State, steps: seq<Step>, w: nat, h: Hasher<Body>)
    requires IsRun(s, steps, h) && forall i :: 0 <= i < |steps| ==> steps[i].session != w
    ensures w in s.missed && !Owns(s, w) ==> w in After(s, steps, h).missed && !Owns(After(s, steps, h), w)
    ensures s.head.Some? ==> After(s, steps, h).head.Some?
    decreases |steps|
  {
    if steps != [] {
      MissedStays(Next(s, steps[0], h), steps[1..], w, h);
    }
  }

  /**
   At most one session inserts the head row: a session that found it missing and does nothing
   while others run until some session has committed a head, at any time later fails on the
   duplicate key, owns nothing, and leaves records, head and owner as they are.
   */
  lemma OnlyOneInserts(s: State, steps: seq<Step>, later: seq<Step>, w: nat, h: Hasher<Body>)
    requires Intact(s, h) && w in s.missed
    requires IsRun(s, steps, h) && After(s, steps, h).head.Some? && IsRun(After(s, steps, h), later, h)
    requires forall i :: 0 <= i < |steps| ==> steps[i].session != w
    requires forall i :: 0 <= i < |later| ==> later[i].session != w
    ensures var t := After(After(s, steps, h), later, h);
            && Enabled(t, Insert(w)) && Next(t, Insert(w), h) == t.(missed := t.missed - {w})
            && !Owns(Next(t, Insert(w), h), w)
  {
    MissedStays(s, steps, w, h);
    MissedStays(After(s, steps, h), later, w, h);
  }

  /** The race does happen: from an empty table two sessions can both find the head row missing. */
  lemma RaceCanHappen(v: nat, w: nat, h: Hasher<Body>)
    requires v != w
    ensures var steps := [Select(v), Select(w)];
            IsRun(EMPTY, steps, h) && After(EMPTY, steps, h).missed == {v, w} && After(EMPTY, steps, h).head.None?
  {
    var steps := [Select(v), Select(w)];
    var one := Next(EMPTY, Select(v), h);
    var two := Next(one, Select(w), h);
    assert steps[1..] == [Select(w)] && [Select(w)][1..] == [];
    assert IsRun(two, [], h) && After(two, [], h) == two;
    assert IsRun(one, [Select(w)], h) && After(one, [Select(w)], h) == two;
  }

  /** The audit table as a session sees it that owns the head row or finds none. */
  class AuditTable {
    const hasher: Hasher<Body>
    var head: Option<ChainHead>
    var records: seq<Record<Body>>

    ghost predicate Valid()
      reads this
    {
      EndsAt(records, if head.Some? then head.value else ChainHead(0, ZERO_HASH), hasher)
    }

    constructor (hasher: Hasher<Body>)
      ensures Valid() && records == [] && head == None
    {
      this.hasher := hasher;
      head, records := None, [];
    }

    /** `_append_audit_session`. */
    method AppendAudit(entry: Entry)
      requires Valid()
      modifies this
      ensures Valid() && records == Extend(old(records), (|old(records)| + 1, EntryOf(Audit(entry))), hasher)
      ensures head == Some(ChainHead(|records|, Head(records)))
    {
      ExtendChained(records, (|records| + 1, entry), hasher);
      if head.None? {
        head := Some(ChainHead(0, ZERO_HASH));
      }
      var sequence := head.value.sequence + 1;
      var body := (sequence, entry);
      var recordHash := hasher(body, head.value.recordHash, head.value.recordHash);
      records := records + [Record(body, head.value.recordHash, recordHash)];
      head := Some(ChainHead(sequence, recordHash));
    }

    /** `_append_parser_activation_audit`, which builds its own record. */
    method AppendParserActivation(actor: Option<nat>, versionId: string, occurredAt: int, details: string)
      requires Valid()
      modifies this
      ensures Valid()
      ensures var entry := EntryOf(Activation(actor, versionId, occurredAt, details));
              records == Extend(old(records), (|old(records)| + 1, entry), hasher)
      ensures head == Some(ChainHead(|records|, Head(records)))
    {
      ghost var entry := ActivationEntry(actor, versionId, occurredAt, details);
      ExtendChained(records, (|records| + 1, entry), hasher);
      var chainHead := if head.None? then ChainHead(0, ZERO_HASH) else head.value;
      var sequence := chainHead.sequence + 1;
      var correlationId := "parser-activation:" + versionId;
      var payload := Entry(actor, "PARSER_ACTIVATED", "PARSER_VERSION", versionId, correlationId, occurredAt, details);
      var recordHash := hasher((sequence, payload), chainHead.recordHash, chainHead.recordHash);
      records := records + [Record((sequence, payload), chainHead.recordHash, recordHash)];
      head := Some(ChainHead(sequence, recordHash));
    }
  }
}
