/**
 The semantic diff against the change fold: comparing a line list with the result of
 applying order changes to it reports exactly what the changes did.
 */
module Reconciliation {
  import opened Options
  import opened Ordering
  import opened Lines
  import opened OrderChanges
  import opened ChangeEffects

  /** The sum of the signed quantities that a batch carries for a key. */
  function DeltaSum(deltas: seq<DocumentLine>, key: Key): real {
    if deltas == [] then 0.0
    else
      var n := |deltas| - 1;
      DeltaSum(deltas[..n], key) + (if LineKey(deltas[n], n) == key then DeltaQuantity(deltas[n]) else 0.0)
  }

  ghost predicate PositiveLines(lines: seq<DocumentLine>) {
    forall i :: 0 <= i < |lines| ==> Positive(lines[i])
  }

  /** Loading merges the lines of a key into one line of the summed quantity. */
  lemma {:induction false} LoadQuantity(lines: seq<DocumentLine>, key: Key)
    requires PositiveLines(lines)
    ensures key in Load(lines).lines <==> key in Aggregate(lines)
    ensures key in Load(lines).lines ==> CountedQuantity(Load(lines).lines[key]) == QuantityOf(lines, key)
    decreases |lines|
  {
    AggregateQuantity(lines, key);
    if lines != [] {
      var n := |lines| - 1;
      LoadQuantity(lines[..n], key);
      AggregateQuantity(lines[..n], key);
      LoadPositive(lines[..n]);
    }
  }

  lemma LoadLineKeeps(s: Slate, line: DocumentLine, at: Key, key: Key)
    ensures key in s.lines ==>
              key in LoadLine(s, line, at).lines &&
              LoadLine(s, line, at).lines[key].(quantity := None) == s.lines[key].(quantity := None)
    ensures at !in s.lines ==> LoadLine(s, line, at).lines[at] == line
  {
  }

  /** Apart from its quantity, a loaded line is the first line of its key. */
  lemma {:induction false} LoadKeepsFirstLine(lines: seq<DocumentLine>, key: Key, first: nat)
    requires FirstWith(lines, key, first)
    ensures key in Load(lines).lines
    ensures Load(lines).lines[key].(quantity := None) == lines[first].(quantity := None)
    decreases |lines|
  {
    var n := |lines| - 1;
    LoadLineKeeps(Load(lines[..n]), lines[n], LineKey(lines[n], n), key);
    if first == n {
      LoadedKeysOccur(lines[..n], key);
      assert !Occurs(lines[..n], key);
    } else {
      assert FirstWith(lines[..n], key, first);
      LoadKeepsFirstLine(lines[..n], key, first);
    }
  }

  lemma {:induction false} LoadedKeysOccur(lines: seq<DocumentLine>, key: Key)
    ensures key in Load(lines).lines <==> Occurs(lines, key)
    decreases |lines|
  {
    if lines != [] {
      LoadedKeysOccur(lines[..|lines| - 1], key);
      OccursExtend(lines, key);
    }
  }

  /** A line that is never removed gains exactly the sum of its deltas and keeps its price and discount. */
  lemma {:induction false} SurvivorQuantity(s: Slate, deltas: seq<DocumentLine>, key: Key)
    requires AllPositive(s) && key in s.lines && NeverRemoved(s, deltas, key)
    ensures key in ApplyDeltas(s, deltas).lines
    ensures var t := ApplyDeltas(s, deltas).lines[key];
            && CountedQuantity(t) == CountedQuantity(s.lines[key]) + DeltaSum(deltas, key)
            && EffectiveUnitPrice(t) == EffectiveUnitPrice(s.lines[key])
            && t.discount == s.lines[key].discount
    decreases |deltas|
  {
    if deltas != [] {
      var n := |deltas| - 1;
      NeverRemovedPrefix(s, deltas, key);
      SurvivorQuantity(s, deltas[..n], key);
      DeltasKeepPositive(s, deltas[..n]);
      assert deltas[..n] == deltas[..|deltas| - 1];
    }
  }

  /** What `compare_document_lines` sees of the applied result is the final slate. */
  lemma AppliedEntry(before: seq<DocumentLine>, deltas: seq<DocumentLine>, key: Key)
    requires AllNamed(before) && AllNamed(deltas) && PositiveLines(before)
    ensures var t := ApplyDeltas(Load(before), deltas);
            var after := Aggregate(Apply(before, deltas));
            && (key in after <==> key in t.lines)
            && (key in after ==> after[key].quantity == CountedQuantity(t.lines[key])
                                 && after[key].unitPrice == EffectiveUnitPrice(t.lines[key])
                                 && after[key].discount == t.lines[key].discount)
  {
    LoadSelfKeyed(before);
    DeltasSelfKeyed(Load(before), deltas);
    var t := ApplyDeltas(Load(before), deltas);
    var after := Apply(before, deltas);
    LoadRenderIsIdentity(t);
    RenderNamed(t);
    ApplyKeepsPositive(before, deltas);
    LoadQuantity(after, key);
    AggregateQuantity(after, key);
    if key in t.lines {
      var i :| 0 <= i < |t.order| && t.order[i] == key;
      forall j | 0 <= j < |after| && j != i ensures LineKey(after[j], j) != key {
        assert t.order[j] in t.lines;
        assert LineKey(after[j], j) == LineKey(after[j], 0) == t.order[j];
      }
      assert LineKey(after[i], i) == LineKey(after[i], 0) == key;
      AggregateFirstAndLast(after, key, i, i);
    }
  }

  /** The change that the diff of `before` and its changed version reports for a key. */
  ghost function Reported(before: seq<DocumentLine>, deltas: seq<DocumentLine>, key: Key): LineChange {
    ChangeOf(Aggregate(before), Aggregate(Apply(before, deltas)), key)
  }

  lemma VanishedAndNewKeys(before: seq<DocumentLine>, deltas: seq<DocumentLine>, key: Key)
    requires AllNamed(before) && AllNamed(deltas) && PositiveLines(before)
    requires key in Aggregate(before) || key in Aggregate(Apply(before, deltas))
    ensures Reported(before, deltas, key).changeType == Removed <==>
              key in Load(before).lines && key !in ApplyDeltas(Load(before), deltas).lines
    ensures Reported(before, deltas, key).changeType == Added <==> key !in Load(before).lines
  {
    LoadQuantity(before, key);
    AppliedEntry(before, deltas, key);
  }

  /**
   A new key is in the changed lines iff some change added it for good, and is then reported as ADDED
   with the sum of its changes since that one.
   */
  lemma AdditionReported(before: seq<DocumentLine>, deltas: seq<DocumentLine>, key: Key)
    requires AllNamed(before) && AllNamed(deltas) && PositiveLines(before) && key !in Load(before).lines
    ensures key in Aggregate(Apply(before, deltas)) <==> exists at :: AddedForGood(None, deltas, key, at)
    ensures forall at :: AddedForGood(None, deltas, key, at) ==>
              var c := Reported(before, deltas, key);
              c.changeType == Added && c.after.Some? && c.after.value.quantity == SumFrom(deltas, at, key)
  {
    LoadQuantity(before, key);
    AppliedEntry(before, deltas, key);
    PresentExactlySince(Load(before), deltas, key);
    assert !KeptAllAlong(None, deltas, key) by {
      var none: seq<DocumentLine> := [];
      assert deltas[..0] == none && History(None, none, key).None?;
    }
    forall at | AddedForGood(None, deltas, key, at)
      ensures var c := Reported(before, deltas, key);
              c.changeType == Added && c.after.Some? && c.after.value.quantity == SumFrom(deltas, at, key)
    {
      AddedQuantity(Load(before), deltas, key, at);
    }
  }

  lemma SurvivorReported(before: seq<DocumentLine>, deltas: seq<DocumentLine>, key: Key)
    requires AllNamed(before) && AllNamed(deltas) && PositiveLines(before)
    requires key in Load(before).lines && NeverRemoved(Load(before), deltas, key)
    ensures var c := Reported(before, deltas, key);
            && c.before.Some? && c.after.Some?
            && c.after.value.quantity - c.before.value.quantity == DeltaSum(deltas, key)
            && (c.changeType == QuantityChanged <==> DeltaSum(deltas, key) != 0.0)
  {
    LoadQuantity(before, key);
    AggregateQuantity(before, key);
    LoadPositive(before);
    AppliedEntry(before, deltas, key);
    SurvivorQuantity(Load(before), deltas, key);
  }

  /**
   A surviving key whose deltas cancel out is UNCHANGED exactly if the first and the last
   line of the key in `before` carry the same price; otherwise the diff reports a price
   change although the changes touched no price, because loading keeps the first price and
   aggregation the last one.
   */
  lemma SurvivorPrice(before: seq<DocumentLine>, deltas: seq<DocumentLine>, key: Key, first: nat, last: nat)
    requires AllNamed(before) && AllNamed(deltas) && PositiveLines(before)
    requires FirstWith(before, key, first) && LastWith(before, key, last)
    requires NeverRemoved(Load(before), deltas, key) && DeltaSum(deltas, key) == 0.0
    ensures Reported(before, deltas, key).changeType ==
            if EffectiveUnitPrice(before[first]) == EffectiveUnitPrice(before[last]) then Unchanged else PriceChanged
  {
    LoadKeepsFirstLine(before, key, first);
    SurvivorReported(before, deltas, key);
    AggregateFirstAndLast(before, key, first, last);
    LoadPositive(before);
    AppliedEntry(before, deltas, key);
    SurvivorQuantity(Load(before), deltas, key);
  }

  /** Two pieces of one article at two prices. */
  function TwoPrices(): seq<DocumentLine> {
    var line := Plain(Some("A"), 1.0).(unitPrice := Some(1.0));
    [line, line.(unitPrice := Some(2.0))]
  }

  /** Without any change at all the diff reports a changed price for such lines. */
  lemma NoChangeReportsPrice()
    ensures Reported(TwoPrices(), [], Code("A")).changeType == PriceChanged
  {
    var lines := TwoPrices();
    assert FirstWith(lines, Code("A"), 0) && LastWith(lines, Code("A"), 1);
    SurvivorPrice(lines, [], Code("A"), 0, 1);
  }

  /**
   The diff of `before` and its changed version, entry by entry: REMOVED exactly for the
   keys that vanished, ADDED exactly for new keys, and for a key that no change removes on
   the way the reported quantities differ by the sum of its deltas.
   */
  lemma DiffReconciles(before: seq<DocumentLine>, deltas: seq<DocumentLine>, i: nat)
    requires AllNamed(before) && AllNamed(deltas) && PositiveLines(before)
    requires i < |Diff(before, Apply(before, deltas))|
    ensures var c := Diff(before, Apply(before, deltas))[i];
            && (c.changeType == Removed <==>
                  c.itemKey in Load(before).lines && c.itemKey !in ApplyDeltas(Load(before), deltas).lines)
            && (c.changeType == Added <==> c.itemKey !in Load(before).lines)
            && (c.itemKey in Load(before).lines && NeverRemoved(Load(before), deltas, c.itemKey) ==>
                  && c.before.Some? && c.after.Some?
                  && c.after.value.quantity - c.before.value.quantity == DeltaSum(deltas, c.itemKey)
                  && (c.changeType == QuantityChanged <==> DeltaSum(deltas, c.itemKey) != 0.0))
  {
    DiffEntry(before, Apply(before, deltas), i);
    var key := Diff(before, Apply(before, deltas))[i].itemKey;
    VanishedAndNewKeys(before, deltas, key);
    if key in Load(before).lines && NeverRemoved(Load(before), deltas, key) {
      SurvivorReported(before, deltas, key);
    }
  }

  lemma DiffEntry(before: seq<DocumentLine>, after: seq<DocumentLine>, i: nat)
    requires i < |Diff(before, after)|
    ensures var c := Diff(before, after)[i];
            c == ChangeOf(Aggregate(before), Aggregate(after), c.itemKey) &&
            (c.itemKey in Aggregate(before) || c.itemKey in Aggregate(after))
  {
    var all := Aggregate(before).Keys + Aggregate(after).Keys;
    ArrangedElements(all, TextOrder);
    assert Arranged(all, TextOrder)[i] in all;
  }
}
