/**
 The bounded log queue and its loss accounting: producers in `BoundedQueueHandler.enqueue`,
 the listener thread, and `_DrainableQueueListener.enqueue_sentinel`, interleaved at the
 granularity of single queue operations and lock sections.
 */
module LogQueue {
  import opened Options

  datatype Item = Record(call: nat) | Summary(drops: nat) | Sentinel

  /**
   Where a call of `enqueue` stands: before the lock, holding it, holding it with the summary
   already queued, about to put its record, or refused and about to be counted.
   */
  datatype Phase = Waiting | Holding | Summarised | Trying | Refused

  datatype Stopper = Idle | Putting | Discarding | Finished

  /** The queue; `accepted` and `taken` are the histories of everything put into it and got from it. */
  datatype Channel = Channel(capacity: nat, queue: seq<Item>, accepted: seq<Item>, taken: seq<Item>)

  /** The handler: the calls in flight, the calls whose record was lost, the lock and the two counters. */
  datatype Handler = Handler(
    offered: nat,
    calls: map<nat, Phase>,
    lost: set<nat>,
    lock: Option<nat>,
    dropped: nat,
    unreported: nat)

  /** The listener thread and the stopper; `thrown` is the history of what the stopper discarded. */
  datatype Listener = Listener(
    inHand: bool,
    handled: nat,
    listening: bool,
    stopper: Stopper,
    discarded: nat,
    thrown: seq<Item>)

  datatype State = State(channel: Channel, handler: Handler, listener: Listener)

  function Initial(capacity: nat): State {
    State(Channel(capacity, [], [], []), Handler(0, map[], {}, None, 0, 0), Listener(false, 0, true, Idle, 0, []))
  }

  datatype ProducerStep =
    | Offer
    | Acquire(call: nat)
    | Report(call: nat)
    | Clear(call: nat)
    | Put(call: nat)
    | Count(call: nat)

  datatype ConsumerStep = Get | Handle | Stop | PutSentinel | Discard

  datatype Step = Produce(producer: ProducerStep) | Consume(consumer: ConsumerStep)

  predicate At(h: Handler, call: nat, phase: Phase) {
    call in h.calls && h.calls[call] == phase
  }

  predicate CanProduce(h: Handler, step: ProducerStep) {
    match step
    case Offer => true
    case Acquire(c) => At(h, c, Waiting) && h.lock.None?
    case Report(c) => At(h, c, Holding)
    case Clear(c) => At(h, c, Summarised)
    case Put(c) => At(h, c, Trying)
    case Count(c) => At(h, c, Refused) && h.lock.None?
  }

  predicate CanConsume(ch: Channel, l: Listener, step: ConsumerStep) {
    match step
    case Get => l.listening && !l.inHand && ch.queue != []
    case Handle => l.inHand
    case Stop => l.stopper == Idle
    case PutSentinel => l.stopper == Putting
    case Discard => l.stopper == Discarding
  }

  predicate Enabled(s: State, step: Step) {
    match step
    case Produce(p) => CanProduce(s.handler, p)
    case Consume(c) => CanConsume(s.channel, s.listener, c)
  }

  predicate Full(ch: Channel) {
    |ch.queue| >= ch.capacity
  }

  function Enqueue(ch: Channel, item: Item): Channel {
    ch.(queue := ch.queue + [item], accepted := ch.accepted + [item])
  }

  function Dequeue(ch: Channel): Channel
    requires ch.queue != []
  {
    ch.(queue := ch.queue[1..], taken := ch.taken + [ch.queue[0]])
  }

  /** What a producer step puts into the queue, if anything. */
  function Offered(ch: Channel, h: Handler, step: ProducerStep): Option<Item> {
    if Full(ch) then None
    else
      match step
      case Report(_) => if h.unreported > 0 then Some(Summary(h.unreported)) else None
      case Put(c) => Some(Record(c))
      case _ => None
  }

  function MoveTo(h: Handler, c: nat, phase: Phase): Handler {
    h.(calls := h.calls[c := phase])
  }

  function Leave(h: Handler, c: nat): Handler {
    h.(calls := h.calls - {c})
  }

  function NextHandler(ch: Channel, h: Handler, step: ProducerStep): Handler {
    match step
    case Offer => MoveTo(h, h.offered, Waiting).(offered := h.offered + 1)
    case Acquire(c) => MoveTo(h, c, Holding).(lock := Some(c))
    case Report(c) =>
      if h.unreported > 0 && !Full(ch) then MoveTo(h, c, Summarised) else MoveTo(h, c, Trying).(lock := None)
    case Clear(c) => MoveTo(h, c, Trying).(lock := None, unreported := 0)
    case Put(c) => if Full(ch) then MoveTo(h, c, Refused) else Leave(h, c)
    case Count(c) => Leave(h, c).(dropped := h.dropped + 1, unreported := h.unreported + 1, lost := h.lost + {c})
  }

  function ConsumedChannel(ch: Channel, step: ConsumerStep): Channel {
    match step
    case Get => if ch.queue == [] then ch else Dequeue(ch)
    case PutSentinel => if Full(ch) then ch else Enqueue(ch, Sentinel)
    case Discard => if ch.queue == [] then ch else Dequeue(ch)
    case _ => ch
  }

  function NextListener(ch: Channel, l: Listener, step: ConsumerStep): Listener {
    match step
    case Get => if ch.queue != [] && ch.queue[0].Sentinel? then l.(listening := false) else l.(inHand := true)
    case Handle => l.(inHand := false, handled := l.handled + 1)
    case Stop => l.(stopper := Putting)
    case PutSentinel => l.(stopper := if Full(ch) then Discarding else Finished)
    case Discard =>
      if ch.queue == [] then l.(stopper := Putting)
      else l.(stopper := Putting, discarded := l.discarded + 1, thrown := l.thrown + [ch.queue[0]])
  }

  function Next(s: State, step: Step): State {
    match step
    case Produce(p) =>
      var item := Offered(s.channel, s.handler, p);
      State(if item.Some? then Enqueue(s.channel, item.value) else s.channel,
            NextHandler(s.channel, s.handler, p), s.listener)
    case Consume(c) =>
      State(ConsumedChannel(s.channel, c), s.handler, NextListener(s.channel, s.listener, c))
  }

  // Counting.

  function Records(items: seq<Item>): nat {
    if items == [] then 0 else Records(items[..|items| - 1]) + if items[|items| - 1].Record? then 1 else 0
  }

  function Summaries(items: seq<Item>): nat {
    if items == [] then 0 else Summaries(items[..|items| - 1]) + if items[|items| - 1].Summary? then 1 else 0
  }

  /** Records and summaries: everything but the sentinel. */
  function Entries(items: seq<Item>): nat {
    Records(items) + Summaries(items)
  }

  /** The losses that the summaries among the items report. */
  function Carried(items: seq<Item>): nat {
    if items == [] then 0
    else Carried(items[..|items| - 1]) + if items[|items| - 1].Summary? then items[|items| - 1].drops else 0
  }

  lemma Appended(items: seq<Item>, item: Item)
    ensures Records(items + [item]) == Records(items) + if item.Record? then 1 else 0
    ensures Summaries(items + [item]) == Summaries(items) + if item.Summary? then 1 else 0
    ensures Carried(items + [item]) == Carried(items) + if item.Summary? then item.drops else 0
  {
    assert (items + [item])[..|items|] == items;
  }

  lemma {:induction false} EntriesOfSum(a: seq<Item>, b: seq<Item>)
    ensures Records(a + b) == Records(a) + Records(b)
    ensures Summaries(a + b) == Summaries(a) + Summaries(b)
    decreases |b|
  {
    if b == [] {
      assert a + b == a;
    } else {
      var n := |b| - 1;
      EntriesOfSum(a, b[..n]);
      Appended(a + b[..n], b[n]);
      assert a + b == (a + b[..n]) + [b[n]];
    }
  }

  // The invariant.

  /** The queue is first in, first out, and bounded. */
  ghost predicate Fifo(ch: Channel) {
    ch.accepted == ch.taken + ch.queue && |ch.queue| <= ch.capacity
  }

  ghost predicate TakenCounted(taken: seq<Item>, l: Listener) {
    Entries(taken) == l.handled + l.discarded + if l.inHand then 1 else 0
  }

  /** The stopper never discards the sentinel. */
  ghost predicate ThrownCounted(l: Listener) {
    Entries(l.thrown) == l.discarded
  }

  ghost predicate OfferedCounted(accepted: seq<Item>, h: Handler) {
    && h.offered == |h.calls.Keys| + |h.lost| + Records(accepted)
    && h.dropped == |h.lost|
  }

  /** The losses are already carried by a summary that its producer is still to clear. */
  ghost predicate Reported(h: Handler) {
    h.lock.Some? && At(h, h.lock.value, Summarised)
  }

  ghost predicate LossesReported(accepted: seq<Item>, h: Handler) {
    h.dropped == Carried(accepted) + if Reported(h) then 0 else h.unreported
  }

  ghost predicate LockHeld(h: Handler) {
    && (h.lock.Some? ==> At(h, h.lock.value, Holding) || At(h, h.lock.value, Summarised))
    && forall c: nat :: At(h, c, Holding) || At(h, c, Summarised) ==> h.lock == Some(c)
  }

  /** The calls in flight and the lost ones are apart. */
  ghost predicate CallsApart(h: Handler) {
    && (forall c :: c in h.calls ==> c < h.offered && c !in h.lost)
    && (forall c :: c in h.lost ==> c < h.offered)
  }

  /** A call whose record was accepted is neither in flight nor lost, and its record was accepted once. */
  ghost predicate AcceptedOnce(accepted: seq<Item>, h: Handler) {
    && (forall i :: 0 <= i < |accepted| && accepted[i].Record? ==>
          accepted[i].call < h.offered && accepted[i].call !in h.calls && accepted[i].call !in h.lost)
    && (forall i, j :: 0 <= i < j < |accepted| && accepted[i].Record? ==> accepted[i] != accepted[j])
  }

  ghost predicate NoneForgotten(accepted: seq<Item>, h: Handler) {
    forall c: nat :: c < h.offered ==> c in h.calls || c in h.lost || Record(c) in accepted
  }

  /** The sentinel enters the queue once, when the stopper finishes; the listener stops on it. */
  ghost predicate SentinelOnce(ch: Channel, l: Listener) {
    && (Sentinel in ch.accepted <==> l.stopper == Finished)
    && (Sentinel in ch.taken <==> !l.listening)
    && (forall i, j :: 0 <= i < j < |ch.accepted| && ch.accepted[i].Sentinel? ==> !ch.accepted[j].Sentinel?)
  }

  ghost predicate HandlerAccounted(accepted: seq<Item>, h: Handler) {
    && OfferedCounted(accepted, h) && LossesReported(accepted, h) && LockHeld(h)
    && CallsApart(h) && AcceptedOnce(accepted, h) && NoneForgotten(accepted, h)
  }

  ghost predicate Accounted(s: State) {
    && Fifo(s.channel) && SentinelOnce(s.channel, s.listener) && TakenCounted(s.channel.taken, s.listener)
    && ThrownCounted(s.listener) && HandlerAccounted(s.channel.accepted, s.handler)
  }

  // The queue.

  lemma EnqueueKeeps(ch: Channel, l: Listener, item: Item)
    requires Fifo(ch) && SentinelOnce(ch, l) && !Full(ch) && !item.Sentinel?
    ensures Fifo(Enqueue(ch, item)) && SentinelOnce(Enqueue(ch, item), l)
  {
  }

  lemma ConsumeKeepsFifo(ch: Channel, step: ConsumerStep)
    requires Fifo(ch)
    ensures Fifo(ConsumedChannel(ch, step))
  {
  }

  lemma DequeueKeepsSentinel(ch: Channel, l: Listener)
    requires Fifo(ch) && SentinelOnce(ch, l) && ch.queue != []
    ensures SentinelOnce(Dequeue(ch), l.(listening := l.listening && !ch.queue[0].Sentinel?))
    ensures ch.queue[0].Sentinel? ==> l.stopper == Finished
  {
    assert ch.accepted[|ch.taken|] == ch.queue[0];
  }

  lemma ConsumeKeepsSentinel(ch: Channel, l: Listener, step: ConsumerStep)
    requires Fifo(ch) && SentinelOnce(ch, l) && CanConsume(ch, l, step)
    ensures SentinelOnce(ConsumedChannel(ch, step), NextListener(ch, l, step))
  {
    if (step.Get? || step.Discard?) && ch.queue != [] {
      DequeueKeepsSentinel(ch, l);
    }
  }

  /** What is taken is in the listener's hand, handled, or discarded by the stopper. */
  lemma ConsumeKeepsTaken(ch: Channel, l: Listener, step: ConsumerStep)
    requires Fifo(ch) && SentinelOnce(ch, l) && CanConsume(ch, l, step) && TakenCounted(ch.taken, l)
    ensures TakenCounted(ConsumedChannel(ch, step).taken, NextListener(ch, l, step))
  {
    if ch.queue != [] {
      Appended(ch.taken, ch.queue[0]);
      DequeueKeepsSentinel(ch, l);
    }
  }

  lemma ConsumeKeepsThrown(ch: Channel, l: Listener, step: ConsumerStep)
    requires Fifo(ch) && SentinelOnce(ch, l) && CanConsume(ch, l, step) && ThrownCounted(l)
    ensures ThrownCounted(NextListener(ch, l, step))
  {
    if ch.queue != [] {
      Appended(l.thrown, ch.queue[0]);
      DequeueKeepsSentinel(ch, l);
    }
  }

  lemma SentinelKeepsAccepted(accepted: seq<Item>, h: Handler)
    requires AcceptedOnce(accepted, h) && NoneForgotten(accepted, h)
    ensures AcceptedOnce(accepted + [Sentinel], h) && NoneForgotten(accepted + [Sentinel], h)
  {
  }

  lemma SentinelKeepsHandler(accepted: seq<Item>, h: Handler)
    requires HandlerAccounted(accepted, h)
    ensures HandlerAccounted(accepted + [Sentinel], h)
  {
    Appended(accepted, Sentinel);
    SentinelKeepsAccepted(accepted, h);
  }

  lemma ConsumeKeepsHandler(ch: Channel, h: Handler, step: ConsumerStep)
    requires HandlerAccounted(ch.accepted, h)
    ensures HandlerAccounted(ConsumedChannel(ch, step).accepted, h)
  {
    if step.PutSentinel? && !Full(ch) {
      SentinelKeepsHandler(ch.accepted, h);
    }
  }

  // The handler.

  function AfterProduce(ch: Channel, h: Handler, step: ProducerStep): seq<Item> {
    var item := Offered(ch, h, step);
    if item.Some? then ch.accepted + [item.value] else ch.accepted
  }

  lemma CallMoved(calls: map<nat, Phase>, c: nat, phase: Phase)
    ensures |calls[c := phase].Keys| == |calls.Keys| + if c in calls then 0 else 1
  {
    assert calls[c := phase].Keys == calls.Keys + {c};
  }

  lemma CallLeft(calls: map<nat, Phase>, c: nat)
    requires c in calls
    ensures |(calls - {c}).Keys| == |calls.Keys| - 1
  {
    assert (calls - {c}).Keys == calls.Keys - {c};
  }

  lemma CallsAfter(ch: Channel, h: Handler, step: ProducerStep)
    requires CanProduce(h, step) && CallsApart(h)
    ensures |NextHandler(ch, h, step).calls.Keys| ==
            |h.calls.Keys| + (if step.Offer? then 1 else 0)
            - (if step.Count? || (step.Put? && !Full(ch)) then 1 else 0)
  {
    if step.Offer? {
      CallMoved(h.calls, h.offered, Waiting);
    } else if step.Count? || (step.Put? && !Full(ch)) {
      CallLeft(h.calls, step.call);
    } else {
      CallMoved(h.calls, step.call, NextHandler(ch, h, step).calls[step.call]);
    }
  }

  lemma ProduceKeepsOffered(ch: Channel, h: Handler, step: ProducerStep)
    requires CanProduce(h, step) && CallsApart(h) && OfferedCounted(ch.accepted, h)
    ensures OfferedCounted(AfterProduce(ch, h, step), NextHandler(ch, h, step))
  {
    var item := Offered(ch, h, step);
    if item.Some? {
      Appended(ch.accepted, item.value);
    }
    CallsAfter(ch, h, step);
  }

  lemma ProduceKeepsLock(ch: Channel, h: Handler, step: ProducerStep)
    requires CanProduce(h, step) && CallsApart(h) && LockHeld(h)
    ensures LockHeld(NextHandler(ch, h, step))
  {
  }

  lemma ProduceKeepsLosses(ch: Channel, h: Handler, step: ProducerStep)
    requires CanProduce(h, step) && CallsApart(h) && LockHeld(h) && LossesReported(ch.accepted, h)
    ensures LossesReported(AfterProduce(ch, h, step), NextHandler(ch, h, step))
  {
    var item := Offered(ch, h, step);
    if item.Some? {
      Appended(ch.accepted, item.value);
    }
  }

  lemma ProduceKeepsCalls(ch: Channel, h: Handler, step: ProducerStep)
    requires CanProduce(h, step) && CallsApart(h)
    ensures CallsApart(NextHandler(ch, h, step))
  {
  }

  lemma ProduceKeepsAccepted(ch: Channel, h: Handler, step: ProducerStep)
    requires CanProduce(h, step) && CallsApart(h) && AcceptedOnce(ch.accepted, h)
    ensures AcceptedOnce(AfterProduce(ch, h, step), NextHandler(ch, h, step))
  {
  }

  lemma ProduceForgetsNone(ch: Channel, h: Handler, step: ProducerStep)
    requires CanProduce(h, step) && NoneForgotten(ch.accepted, h)
    ensures NoneForgotten(AfterProduce(ch, h, step), NextHandler(ch, h, step))
  {
    var t := NextHandler(ch, h, step);
    forall c: nat | c < t.offered ensures c in t.calls || c in t.lost || Record(c) in AfterProduce(ch, h, step) {
      assert c < h.offered ==> c in h.calls || c in h.lost || Record(c) in ch.accepted;
    }
  }

  // Every run.

  lemma StepKeepsAccounts(s: State, step: Step)
    requires Accounted(s) && Enabled(s, step)
    ensures Accounted(Next(s, step))
  {
    match step {
      case Produce(p) =>
        ProduceKeepsOffered(s.channel, s.handler, p);
        ProduceKeepsLock(s.channel, s.handler, p);
        ProduceKeepsLosses(s.channel, s.handler, p);
        ProduceKeepsCalls(s.channel, s.handler, p);
        ProduceKeepsAccepted(s.channel, s.handler, p);
        ProduceForgetsNone(s.channel, s.handler, p);
        var item := Offered(s.channel, s.handler, p);
        if item.Some? {
          EnqueueKeeps(s.channel, s.listener, item.value);
        }
      case Consume(c) =>
        ConsumeKeepsFifo(s.channel, c);
        ConsumeKeepsSentinel(s.channel, s.listener, c);
        ConsumeKeepsTaken(s.channel, s.listener, c);
        ConsumeKeepsThrown(s.channel, s.listener, c);
        ConsumeKeepsHandler(s.channel, s.handler, c);
    }
  }

  predicate IsRun(s: State, steps: seq<Step>)
    decreases |steps|
  {
    steps == [] || (Enabled(s, steps[0]) && IsRun(Next(s, steps[0]), steps[1..]))
  }

  function After(s: State, steps: seq<Step>): State
    decreases |steps|
  {
    if steps == [] then s else After(Next(s, steps[0]), steps[1..])
  }

  lemma {:induction false} RunKeepsAccounts(s: State, steps: seq<Step>)
    requires Accounted(s) && IsRun(s, steps)
    ensures Accounted(After(s, steps))
    decreases |steps|
  {
    if steps != [] {
      StepKeepsAccounts(s, steps[0]);
      RunKeepsAccounts(Next(s, steps[0]), steps[1..]);
    }
  }

  /**
   Under every interleaving: the offered records and the summaries are the handled, queued,
   dropped and discarded ones, those in flight and the one in the listener's hand; and the
   dropped ones are those that accepted summaries report and the unreported ones. Between
   queueing a summary and clearing the count, the count is reported already.
   */
  lemma LogAccountingIsConserved(capacity: nat, steps: seq<Step>)
    requires IsRun(Initial(capacity), steps)
    ensures var s := After(Initial(capacity), steps);
            && s.handler.offered + Summaries(s.channel.accepted) ==
               s.listener.handled + Entries(s.channel.queue) + s.handler.dropped + s.listener.discarded
               + |s.handler.calls.Keys| + (if s.listener.inHand then 1 else 0)
            && s.handler.dropped ==
               Carried(s.channel.accepted) + (if Reported(s.handler) then 0 else s.handler.unreported)
            && s.channel.accepted == s.channel.taken + s.channel.queue
            && |s.channel.queue| <= capacity
  {
    assert Accounted(Initial(capacity));
    RunKeepsAccounts(Initial(capacity), steps);
    RunKeepsCapacity(Initial(capacity), steps);
    var s := After(Initial(capacity), steps);
    EntriesOfSum(s.channel.taken, s.channel.queue);
  }

  /** Under every interleaving a call is in flight, lost, or has its record accepted once, and only one of these. */
  lemma EveryCallHasOneFate(capacity: nat, steps: seq<Step>, c: nat)
    requires IsRun(Initial(capacity), steps)
    requires c < After(Initial(capacity), steps).handler.offered
    ensures var s := After(Initial(capacity), steps);
            && (c in s.handler.calls || c in s.handler.lost || Record(c) in s.channel.accepted)
            && !(c in s.handler.calls && c in s.handler.lost)
            && !(c in s.handler.calls && Record(c) in s.channel.accepted)
            && !(c in s.handler.lost && Record(c) in s.channel.accepted)
            && forall i, j :: 0 <= i < j < |s.channel.accepted| && s.channel.accepted[i] == Record(c) ==>
                 s.channel.accepted[j] != Record(c)
  {
    assert Accounted(Initial(capacity));
    RunKeepsAccounts(Initial(capacity), steps);
  }

  lemma SentinelTaken(ch: Channel, l: Listener, i: nat)
    requires Fifo(ch) && SentinelOnce(ch, l) && !l.listening
    requires i < |ch.accepted| && ch.accepted[i] == Sentinel
    ensures i < |ch.taken| && ch.taken[..i] == ch.accepted[..i] && Sentinel !in ch.queue
  {
    var k :| 0 <= k < |ch.taken| && ch.taken[k] == Sentinel;
    assert ch.accepted[k] == Sentinel;
    forall j | 0 <= j < |ch.queue| ensures ch.queue[j] != Sentinel {
      assert ch.accepted[|ch.taken| + j] == ch.queue[j];
    }
  }

  /** Once the listener has stopped, everything accepted before the sentinel has left the queue, in order. */
  lemma ListenerStopsOnSentinel(capacity: nat, steps: seq<Step>, i: nat)
    requires IsRun(Initial(capacity), steps)
    requires var s := After(Initial(capacity), steps);
             !s.listener.listening && i < |s.channel.accepted| && s.channel.accepted[i] == Sentinel
    ensures var ch := After(Initial(capacity), steps).channel;
            i < |ch.taken| && ch.taken[..i] == ch.accepted[..i] && Sentinel !in ch.queue
  {
    assert Accounted(Initial(capacity));
    RunKeepsAccounts(Initial(capacity), steps);
    SentinelTaken(After(Initial(capacity), steps).channel, After(Initial(capacity), steps).listener, i);
  }

  /** `StructuredLoggingRuntime.dropped_records`. */
  function DroppedRecords(s: State): nat {
    s.handler.dropped + s.listener.discarded
  }

  /** The records that were refused or discarded. */
  ghost function LostRecords(s: State): nat {
    |s.handler.lost| + Records(s.listener.thrown)
  }

  /** The reported number counts a discarded summary as a record: it is exact iff no summary was discarded. */
  lemma DroppedRecordsIsExactWithoutSummaries(capacity: nat, steps: seq<Step>)
    requires IsRun(Initial(capacity), steps)
    ensures var s := After(Initial(capacity), steps);
            && DroppedRecords(s) == LostRecords(s) + Summaries(s.listener.thrown)
            && (DroppedRecords(s) == LostRecords(s) <==>
                forall i :: 0 <= i < |s.listener.thrown| ==> !s.listener.thrown[i].Summary?)
  {
    assert Accounted(Initial(capacity));
    RunKeepsAccounts(Initial(capacity), steps);
    NoSummaries(After(Initial(capacity), steps).listener.thrown);
  }

  lemma {:induction false} NoSummaries(items: seq<Item>)
    ensures Summaries(items) == 0 <==> forall i :: 0 <= i < |items| ==> !items[i].Summary?
    decreases |items|
  {
    if items != [] {
      var n := |items| - 1;
      NoSummaries(items[..n]);
      assert forall i :: 0 <= i < n ==> items[..n][i] == items[i];
    }
  }

  lemma {:induction false} RunKeepsCapacity(s: State, steps: seq<Step>)
    ensures After(s, steps).channel.capacity == s.channel.capacity
    decreases |steps|
  {
    if steps != [] {
      RunKeepsCapacity(Next(s, steps[0]), steps[1..]);
    }
  }

  // Putting runs together.

  lemma {:induction false} Concatenated(s: State, a: seq<Step>, b: seq<Step>)
    ensures IsRun(s, a + b) <==> IsRun(s, a) && IsRun(After(s, a), b)
    ensures After(s, a + b) == After(After(s, a), b)
    decreases |a|
  {
    if a == [] {
      assert a + b == b;
    } else {
      assert (a + b)[1..] == a[1..] + b;
      Concatenated(Next(s, a[0]), a[1..], b);
    }
  }

  lemma Single(s: State, step: Step)
    ensures IsRun(s, [step]) <==> Enabled(s, step)
    ensures After(s, [step]) == Next(s, step)
  {
    assert IsRun(Next(s, step), []);
  }

  lemma Preceded(s: State, step: Step, steps: seq<Step>)
    ensures IsRun(s, [step] + steps) <==> Enabled(s, step) && IsRun(Next(s, step), steps)
    ensures After(s, [step] + steps) == After(Next(s, step), steps)
  {
    assert ([step] + steps)[1..] == steps;
  }

  // The handler and the listener without interference.

  /** The queue and both counters after one call of `enqueue` that nobody interrupts. */
  function Undisturbed(capacity: nat, queue: seq<Item>, dropped: nat, unreported: nat, record: Item)
    : (r: (seq<Item>, nat, nat))
  {
    var reporting := unreported > 0 && |queue| < capacity;
    var q := if reporting then queue + [Summary(unreported)] else queue;
    var left := if reporting then 0 else unreported;
    if |q| < capacity then (q + [record], dropped, left) else (q, dropped + 1, left + 1)
  }

  class BoundedLog {
    const capacity: nat
    var queue: seq<Item>
    var dropped: nat
    var unreported: nat
    var discarded: nat

    predicate Valid()
      reads this
    {
      capacity >= 1 && |queue| <= capacity
    }

    /** `queue.Queue` treats a capacity of zero as unbounded; `_queue_capacity` refuses it. */
    constructor (capacity: nat)
      requires 1 <= capacity <= 100000
      ensures Valid() && this.capacity == capacity
      ensures queue == [] && dropped == 0 && unreported == 0 && discarded == 0
    {
      this.capacity := capacity;
      queue, dropped, unreported, discarded := [], 0, 0, 0;
    }

    method PutNowait(item: Item) returns (ok: bool)
      requires Valid()
      modifies this`queue
      ensures Valid()
      ensures ok <==> |old(queue)| < capacity
      ensures queue == if ok then old(queue) + [item] else old(queue)
    {
      ok := |queue| < capacity;
      if ok {
        queue := queue + [item];
      }
    }

    method Enqueue(record: Item)
      requires Valid()
      modifies this
      ensures Valid() && discarded == old(discarded)
      ensures (queue, dropped, unreported) == Undisturbed(capacity, old(queue), old(dropped), old(unreported), record)
    {
      if unreported > 0 {
        var reported := PutNowait(Summary(unreported));
        if reported {
          unreported := 0;
        }
      }
      var accepted := PutNowait(record);
      if !accepted {
        dropped, unreported := dropped + 1, unreported + 1;
      }
    }

    /** The sentinel is queued last; a full queue loses its oldest item for it. */
    method EnqueueSentinel()
      requires Valid()
      modifies this
      ensures Valid() && dropped == old(dropped) && unreported == old(unreported)
      ensures queue == (if |old(queue)| < capacity then old(queue) else old(queue)[1..]) + [Sentinel]
      ensures discarded == old(discarded) + if |old(queue)| < capacity then 0 else 1
    {
      var placed := false;
      while !placed
        invariant Valid() && dropped == old(dropped) && unreported == old(unreported)
        invariant !placed ==> (queue == old(queue) && discarded == old(discarded))
                              || (|old(queue)| == capacity && queue == old(queue)[1..] &&
                                     discarded == old(discarded) + 1)
        invariant placed ==> queue == (if |old(queue)| < capacity then old(queue) else old(queue)[1..]) + [Sentinel]
                             && discarded == old(discarded) + if |old(queue)| < capacity then 0 else 1
        decreases !placed, |queue|
      {
        placed := PutNowait(Sentinel);
        if !placed && queue != [] {
          queue := queue[1..];
          discarded := discarded + 1;
        }
      }
    }
  }

  /** The steps up to the put, and from the put on, of one call that nobody interrupts. */
  function ReportAlone(s: State): seq<Step> {
    var c := s.handler.offered;
    [Produce(Offer)] + ([Produce(Acquire(c))] + ([Produce(Report(c))]
    + if s.handler.unreported > 0 && !Full(s.channel) then [Produce(Clear(c))] else []))
  }

  function PutAlone(s: State, c: nat): seq<Step> {
    [Produce(Put(c))] + if Full(s.channel) then [Produce(Count(c))] else []
  }

  lemma ReportAloneEffect(s: State)
    requires s.handler.lock.None?
    ensures IsRun(s, ReportAlone(s))
    ensures var t := After(s, ReportAlone(s));
            var reporting := s.handler.unreported > 0 && !Full(s.channel);
            && t.handler.lock.None? && At(t.handler, s.handler.offered, Trying)
            && t.channel == (if reporting then Enqueue(s.channel, Summary(s.handler.unreported)) else s.channel)
            && t.handler.dropped == s.handler.dropped
            && t.handler.unreported == (if reporting then 0 else s.handler.unreported)
  {
    var c := s.handler.offered;
    var s1 := Next(s, Produce(Offer));
    var s2 := Next(s1, Produce(Acquire(c)));
    var s3 := Next(s2, Produce(Report(c)));
    var tail := if s.handler.unreported > 0 && !Full(s.channel) then [Produce(Clear(c))] else [];
    Single(s3, Produce(Clear(c)));
    Preceded(s2, Produce(Report(c)), tail);
    Preceded(s1, Produce(Acquire(c)), [Produce(Report(c))] + tail);
    Preceded(s, Produce(Offer), [Produce(Acquire(c))] + ([Produce(Report(c))] + tail));
  }

  lemma PutAloneEffect(s: State, c: nat)
    requires s.handler.lock.None? && At(s.handler, c, Trying)
    ensures IsRun(s, PutAlone(s, c))
    ensures var t := After(s, PutAlone(s, c));
            && t.channel == (if Full(s.channel) then s.channel else Enqueue(s.channel, Record(c)))
            && t.handler.dropped == s.handler.dropped + (if Full(s.channel) then 1 else 0)
            && t.handler.unreported == s.handler.unreported + (if Full(s.channel) then 1 else 0)
  {
    var s1 := Next(s, Produce(Put(c)));
    Single(s1, Produce(Count(c)));
    Preceded(s, Produce(Put(c)), if Full(s.channel) then [Produce(Count(c))] else []);
  }

  /** One call's own steps, run without interference, do to the queue and the counters what the method does. */
  lemma StepsAloneAreEnqueue(s: State)
    requires s.handler.lock.None?
    ensures var c := s.handler.offered;
            var steps := ReportAlone(s) + PutAlone(After(s, ReportAlone(s)), c);
            var t := After(s, steps);
            && IsRun(s, steps)
            && (t.channel.queue, t.handler.dropped, t.handler.unreported) ==
               Undisturbed(s.channel.capacity, s.channel.queue, s.handler.dropped, s.handler.unreported, Record(c))
  {
    var u := After(s, ReportAlone(s));
    ReportAloneEffect(s);
    PutAloneEffect(u, s.handler.offered);
    Concatenated(s, ReportAlone(s), PutAlone(u, s.handler.offered));
  }
}
