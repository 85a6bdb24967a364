/**
 Stopping the log queue (`_DrainableQueueListener.enqueue_sentinel` and `stop`) while producers
 and the listener go on: how long it takes, and what can delay it.
 */
module LogShutdown {
  import opened Options
  import opened LogQueue

  /** The attempts `enqueue_sentinel` still needs when no producer interferes. */
  function Attempts(ch: Channel, l: Listener): nat {
    match l.stopper
    case Idle => 0
    case Finished => 0
    case Putting => if Full(ch) then 3 else 1
    case Discarding => 2
  }

  /** The records `enqueue_sentinel` may still discard when no producer interferes. */
  function Expendable(ch: Channel, l: Listener): nat {
    if l.stopper == Discarding || (l.stopper == Putting && Full(ch)) then 1 else 0
  }

  predicate ByStopper(step: Step) {
    step == Consume(PutSentinel) || step == Consume(Discard)
  }

  function StopperSteps(steps: seq<Step>): nat {
    if steps == [] then 0 else (if ByStopper(steps[0]) then 1 else 0) + StopperSteps(steps[1..])
  }

  predicate Stopping(s: State) {
    s.channel.capacity >= 1 && |s.channel.queue| <= s.channel.capacity && s.listener.stopper != Idle
  }

  predicate Puts(s: State, step: Step) {
    step.Produce? && Offered(s.channel, s.handler, step.producer).Some?
  }

  /** How many items producers get into the queue during the run. */
  function PutCount(s: State, steps: seq<Step>): nat
    decreases |steps|
  {
    if steps == [] then 0 else (if Puts(s, steps[0]) then 1 else 0) + PutCount(Next(s, steps[0]), steps[1..])
  }

  lemma StepDelays(s: State, step: Step)
    requires Stopping(s) && Enabled(s, step)
    ensures Stopping(Next(s, step))
    ensures Attempts(Next(s, step).channel, Next(s, step).listener) + (if ByStopper(step) then 1 else 0)
            <= Attempts(s.channel, s.listener) + (if Puts(s, step) then 2 else 0)
    ensures Next(s, step).listener.discarded + Expendable(Next(s, step).channel, Next(s, step).listener)
            <= s.listener.discarded + Expendable(s.channel, s.listener) + (if Puts(s, step) then 1 else 0)
  {
  }

  /**
   In every run, whatever producers and the listener do, `enqueue_sentinel` needs at most two more
   queue operations and discards at most one more record for every item that a producer gets
   into the queue meanwhile; until it has finished it can always take its next one.
   */
  lemma {:induction false} StopIsDelayedByPutsOnly(s: State, steps: seq<Step>)
    requires Stopping(s) && IsRun(s, steps)
    ensures Stopping(After(s, steps))
    ensures StopperSteps(steps) + Attempts(After(s, steps).channel, After(s, steps).listener)
            <= Attempts(s.channel, s.listener) + 2 * PutCount(s, steps) <= 3 + 2 * PutCount(s, steps)
    ensures After(s, steps).listener.stopper != Finished ==>
              Enabled(After(s, steps), Consume(PutSentinel)) || Enabled(After(s, steps), Consume(Discard))
    ensures After(s, steps).listener.discarded + Expendable(After(s, steps).channel, After(s, steps).listener)
            <= s.listener.discarded + Expendable(s.channel, s.listener) + PutCount(s, steps)
    decreases |steps|
  {
    if steps != [] {
      StepDelays(s, steps[0]);
      StopIsDelayedByPutsOnly(Next(s, steps[0]), steps[1..]);
    }
  }

  /** The calls that may still put a summary, and those that may still put their record. */
  function Early(h: Handler): set<nat> {
    set c | c in h.calls && (h.calls[c] == Waiting || h.calls[c] == Holding)
  }

  function Open(h: Handler): set<nat> {
    set c | c in h.calls && h.calls[c] != Refused
  }

  /** The puts that the calls in flight may still make. */
  function Remaining(h: Handler): nat {
    |Early(h)| + |Open(h)|
  }

  lemma SetSizes(a: set<nat>, b: set<nat>, c: nat)
    ensures b <= a ==> |b| <= |a|
    ensures c in a && b <= a - {c} ==> |b| + 1 <= |a|
  {
    if b <= a {
      assert a == b + (a - b);
    }
    if c in a && b <= a - {c} {
      assert a - {c} == b + (a - {c} - b);
    }
  }

  lemma RemainingIsBounded(h: Handler)
    ensures Remaining(h) <= 2 * |h.calls.Keys|
  {
    SetSizes(h.calls.Keys, Early(h), 0);
    SetSizes(h.calls.Keys, Open(h), 0);
  }

  lemma ProduceUsesUp(ch: Channel, h: Handler, step: ProducerStep)
    requires CanProduce(h, step) && !step.Offer?
    ensures Remaining(NextHandler(ch, h, step)) + (if Offered(ch, h, step).Some? then 1 else 0) <= Remaining(h)
  {
    var t, c := NextHandler(ch, h, step), step.call;
    assert Early(t) <= Early(h) && Open(t) <= Open(h);
    assert step.Report? ==> Early(t) <= Early(h) - {c};
    assert step.Put? ==> Open(t) <= Open(h) - {c};
    SetSizes(Early(h), Early(t), c);
    SetSizes(Open(h), Open(t), c);
  }

  /** Calls in flight make at most two puts each. */
  lemma {:induction false} CallsInFlightPutAtMostTwice(s: State, steps: seq<Step>)
    requires IsRun(s, steps) && forall i :: 0 <= i < |steps| ==> steps[i] != Produce(Offer)
    ensures PutCount(s, steps) + Remaining(After(s, steps).handler) <= Remaining(s.handler)
    decreases |steps|
  {
    if steps != [] {
      if steps[0].Produce? {
        ProduceUsesUp(s.channel, s.handler, steps[0].producer);
      }
      CallsInFlightPutAtMostTwice(Next(s, steps[0]), steps[1..]);
    }
  }

  /**
   Once no new record is offered, `enqueue_sentinel` is done after at most three queue operations
   and four more for every call still in flight, whatever else happens meanwhile.
   */
  lemma StopTerminates(s: State, steps: seq<Step>)
    requires Stopping(s) && IsRun(s, steps)
    requires forall i :: 0 <= i < |steps| ==> steps[i] != Produce(Offer)
    ensures StopperSteps(steps) <= 3 + 4 * |s.handler.calls.Keys|
    ensures StopperSteps(steps) >= 3 + 4 * |s.handler.calls.Keys| ==> After(s, steps).listener.stopper == Finished
    ensures After(s, steps).listener.discarded <= s.listener.discarded + 1 + 2 * |s.handler.calls.Keys|
    ensures After(s, steps).listener.stopper != Finished ==>
              Enabled(After(s, steps), Consume(PutSentinel)) || Enabled(After(s, steps), Consume(Discard))
  {
    StopIsDelayedByPutsOnly(s, steps);
    CallsInFlightPutAtMostTwice(s, steps);
    RemainingIsBounded(s.handler);
  }

  lemma {:induction false} ConsumersPutNothing(s: State, steps: seq<Step>)
    requires forall i :: 0 <= i < |steps| ==> steps[i].Consume?
    ensures PutCount(s, steps) == 0
    decreases |steps|
  {
    if steps != [] {
      ConsumersPutNothing(Next(s, steps[0]), steps[1..]);
    }
  }

  /** While no producer takes a step, three queue operations and one discarded record are enough. */
  lemma QuietStopTerminates(s: State, steps: seq<Step>)
    requires Stopping(s) && IsRun(s, steps) && forall i :: 0 <= i < |steps| ==> steps[i].Consume?
    ensures StopperSteps(steps) <= 3
    ensures StopperSteps(steps) >= 3 ==> After(s, steps).listener.stopper == Finished
    ensures After(s, steps).listener.discarded <= s.listener.discarded + 1
  {
    StopIsDelayedByPutsOnly(s, steps);
    ConsumersPutNothing(s, steps);
  }

  // The bound is reached.

  lemma {:induction false} CountsAdd(s: State, a: seq<Step>, b: seq<Step>)
    ensures StopperSteps(a + b) == StopperSteps(a) + StopperSteps(b)
    ensures PutCount(s, a + b) == PutCount(s, a) + PutCount(After(s, a), b)
    decreases |a|
  {
    if a == [] {
      assert a + b == b;
    } else {
      assert (a + b)[1..] == a[1..] + b;
      CountsAdd(Next(s, a[0]), a[1..], b);
    }
  }

  lemma CountsOne(s: State, step: Step, steps: seq<Step>)
    ensures StopperSteps([step] + steps) == (if ByStopper(step) then 1 else 0) + StopperSteps(steps)
    ensures PutCount(s, [step] + steps) == (if Puts(s, step) then 1 else 0) + PutCount(Next(s, step), steps)
  {
    assert ([step] + steps)[1..] == steps;
  }

  /** A full queue that one producer refills after every discard. */
  predicate Jammed(s: State) {
    && |s.channel.queue| == s.channel.capacity >= 1 && s.listener.stopper == Putting
    && Quiet(s.handler)
  }

  function Refill(c: nat): seq<Step> {
    [Consume(PutSentinel), Consume(Discard)] + OneCall(c)
  }

  function Refills(s: State, n: nat): seq<Step>
    decreases n
  {
    if n == 0 then [] else Refill(s.handler.offered) + Refills(After(s, Refill(s.handler.offered)), n - 1)
  }

  lemma RefillKeepsJammed(s: State)
    requires Jammed(s)
    ensures IsRun(s, Refill(s.handler.offered)) && Jammed(After(s, Refill(s.handler.offered)))
    ensures StopperSteps(Refill(s.handler.offered)) == 2 && PutCount(s, Refill(s.handler.offered)) == 1
  {
    var c := s.handler.offered;
    var first := [Consume(PutSentinel), Consume(Discard)];
    Concatenated(s, first, OneCall(c));
    CountsAdd(s, first, OneCall(c));
    DiscardOne(s);
    PutOne(After(s, first));
  }

  lemma DiscardOne(s: State)
    requires Jammed(s)
    ensures var steps := [Consume(PutSentinel), Consume(Discard)];
            && IsRun(s, steps) && StopperSteps(steps) == 2 && PutCount(s, steps) == 0
            && After(s, steps).handler == s.handler && After(s, steps).listener.stopper == Putting
            && After(s, steps).channel.capacity == s.channel.capacity
            && |After(s, steps).channel.queue| == s.channel.capacity - 1
  {
    var t := Next(s, Consume(PutSentinel));
    var u := Next(t, Consume(Discard));
    Single(t, Consume(Discard));
    Preceded(s, Consume(PutSentinel), [Consume(Discard)]);
    CountsOne(t, Consume(Discard), []);
    CountsOne(s, Consume(PutSentinel), [Consume(Discard)]);
    assert [Consume(Discard)] + [] == [Consume(Discard)];
  }

  /** No call is in flight and no loss is unreported. */
  predicate Quiet(h: Handler) {
    h.calls == map[] && h.lock.None? && h.unreported == 0
  }

  /** One call of `enqueue` into a queue with room. */
  function OneCall(c: nat): seq<Step> {
    [Produce(Offer)] + ([Produce(Acquire(c))] + ([Produce(Report(c))] + [Produce(Put(c))]))
  }

  lemma PutOne(s: State)
    requires Quiet(s.handler) && !Full(s.channel)
    ensures var c := s.handler.offered;
            var t := After(s, OneCall(c));
            && IsRun(s, OneCall(c)) && StopperSteps(OneCall(c)) == 0 && PutCount(s, OneCall(c)) == 1
            && Quiet(t.handler) && t.listener == s.listener && t.channel == Enqueue(s.channel, Record(c))
  {
    var c := s.handler.offered;
    var s1 := Next(s, Produce(Offer));
    var s2 := Next(s1, Produce(Acquire(c)));
    var s3 := Next(s2, Produce(Report(c)));
    PutLast(s3, c);
    Preceded(s2, Produce(Report(c)), [Produce(Put(c))]);
    CountsOne(s2, Produce(Report(c)), [Produce(Put(c))]);
    Preceded(s1, Produce(Acquire(c)), [Produce(Report(c))] + [Produce(Put(c))]);
    CountsOne(s1, Produce(Acquire(c)), [Produce(Report(c))] + [Produce(Put(c))]);
    Preceded(s, Produce(Offer), [Produce(Acquire(c))] + ([Produce(Report(c))] + [Produce(Put(c))]));
    CountsOne(s, Produce(Offer), [Produce(Acquire(c))] + ([Produce(Report(c))] + [Produce(Put(c))]));
  }

  lemma PutLast(s: State, c: nat)
    requires s.handler.calls == map[c := Trying] && !Full(s.channel)
    ensures var steps, t := [Produce(Put(c))], After(s, [Produce(Put(c))]);
            && IsRun(s, steps) && StopperSteps(steps) == 0 && PutCount(s, steps) == 1
            && t.handler == s.handler.(calls := map[]) && t.listener == s.listener
            && t.channel == Enqueue(s.channel, Record(c))
  {
    Single(s, Produce(Put(c)));
    CountsOne(s, Produce(Put(c)), []);
    assert [Produce(Put(c))] + [] == [Produce(Put(c))];
    assert map[c := Trying] - {c} == map[];
  }

  function Fill(s: State, n: nat): seq<Step>
    decreases n
  {
    if n == 0 then [] else OneCall(s.handler.offered) + Fill(After(s, OneCall(s.handler.offered)), n - 1)
  }

  lemma {:induction false} FillRuns(s: State, n: nat)
    requires Quiet(s.handler) && |s.channel.queue| + n <= s.channel.capacity
    ensures IsRun(s, Fill(s, n))
    ensures var t := After(s, Fill(s, n));
            && Quiet(t.handler) && t.listener == s.listener && t.channel.capacity == s.channel.capacity
            && |t.channel.queue| == |s.channel.queue| + n
    decreases n
  {
    if n > 0 {
      var first := OneCall(s.handler.offered);
      PutOne(s);
      FillRuns(After(s, first), n - 1);
      Concatenated(s, first, Fill(After(s, first), n - 1));
    }
  }

  /** Producers fill the queue, then the service stops. */
  function Jam(capacity: nat): seq<Step> {
    Fill(Initial(capacity), capacity) + [Consume(Stop)]
  }

  lemma JamIsReached(capacity: nat)
    requires capacity >= 1
    ensures IsRun(Initial(capacity), Jam(capacity)) && Jammed(After(Initial(capacity), Jam(capacity)))
  {
    var s := Initial(capacity);
    FillRuns(s, capacity);
    var t := After(s, Fill(s, capacity));
    Single(t, Consume(Stop));
    Concatenated(s, Fill(s, capacity), [Consume(Stop)]);
  }

  lemma {:induction false} RefillsDelay(s: State, n: nat)
    requires Jammed(s)
    ensures IsRun(s, Refills(s, n)) && StopperSteps(Refills(s, n)) == 2 * n && PutCount(s, Refills(s, n)) == n
    ensures Jammed(After(s, Refills(s, n)))
    decreases n
  {
    if n > 0 {
      var first := Refill(s.handler.offered);
      RefillKeepsJammed(s);
      RefillsDelay(After(s, first), n - 1);
      Concatenated(s, first, Refills(After(s, first), n - 1));
      CountsAdd(s, first, Refills(After(s, first), n - 1));
    }
  }

  /**
   The bound is tight: with every capacity there is a run to a stop in progress, from which for
   every n another run makes 2 * n operations in vain while producers put n items, and still
   needs all three at its end.
   */
  lemma ProducersCanDelayStop(capacity: nat, n: nat)
    requires capacity >= 1
    ensures exists jam, steps ::
              && IsRun(Initial(capacity), jam) && Stopping(After(Initial(capacity), jam))
              && IsRun(After(Initial(capacity), jam), steps)
              && StopperSteps(steps) == 2 * n && PutCount(After(Initial(capacity), jam), steps) == n
              && var t := After(After(Initial(capacity), jam), steps); Attempts(t.channel, t.listener) == 3
  {
    var s := Initial(capacity);
    JamIsReached(capacity);
    var t := After(s, Jam(capacity));
    RefillsDelay(t, n);
    assert Stopping(t) && IsRun(t, Refills(t, n)) && IsRun(s, Jam(capacity));
  }
}
