/**
 What order changes do to a list of lines, line by line (`apply_order_change_lines` of the
 correlation engine): every line depends on its own key's changes only, additions appear as
 printed and last, revisions change five fields, and the list stays in order of arrival.
 */
module ChangeEffects {
  import opened Options
  import opened Ordering
  import opened Lines
  import opened OrderChanges

  // One change.

  /** The change brings a positive quantity and removes nothing. */
  predicate Adds(delta: DocumentLine) {
    !delta.removed && !delta.cancelled && delta.quantity.Some? && delta.quantity.value > 0.0
  }

  /** A missing or zero quantity of a line counts as one piece. */
  function Pieces(line: DocumentLine): real {
    match line.quantity
    case None => 1.0
    case Some(q) => if q == 0.0 then 1.0 else q
  }

  /** A missing quantity of a change counts as none. */
  function Signed(delta: DocumentLine): real {
    match delta.quantity
    case None => 0.0
    case Some(q) => q
  }

  /** The line survives the change with what is left of it. */
  predicate Leaves(line: DocumentLine, delta: DocumentLine) {
    !delta.removed && !delta.cancelled && Pieces(line) + Signed(delta) > 0.0
  }

  /** An unmatched change that adds appears as printed and last; any other unmatched change does nothing. */
  lemma UnmatchedChange(s: Slate, delta: DocumentLine, key: Key)
    requires key !in s.lines
    ensures Adds(delta) ==> ApplyDelta(s, delta, key) == Slate(s.order + [key], s.lines[key := delta])
    ensures !Adds(delta) ==> ApplyDelta(s, delta, key) == s
  {
  }

  /**
   A matched change takes the line away, or leaves it in its place with the remaining quantity, its
   total at the effective price, the state CHANGED and the change's text and source if it has any;
   all other fields stay.
   */
  lemma MatchedChange(s: Slate, delta: DocumentLine, key: Key)
    requires Consistent(s) && key in s.lines
    ensures var line, t := s.lines[key], ApplyDelta(s, delta, key);
            && (key in t.lines <==> Leaves(line, delta))
            && (key in t.lines ==>
                  && t.order == s.order
                  && t.lines[key].quantity == Some(Pieces(line) + Signed(delta))
                  && t.lines[key].state == Some("CHANGED")
                  && t.lines[key].itemCode == line.itemCode && t.lines[key].descriptionKey == line.descriptionKey
                  && t.lines[key].description == line.description && t.lines[key].discount == line.discount
                  && t.lines[key].unitPrice == line.unitPrice
                  && t.lines[key].modifiedUnitPrice == line.modifiedUnitPrice
                  && t.lines[key].cancelled == line.cancelled && t.lines[key].removed == line.removed)
            && (key !in t.lines ==> key !in t.order)
            && forall k :: k != key ==> (k in t.lines <==> k in s.lines) && (k in s.lines ==> t.lines[k] == s.lines[k])
  {
    WithoutMeaning(s.order, key);
  }

  /** The modified price if there is one, else the printed one. */
  function Price(line: DocumentLine): Option<real> {
    match line.modifiedUnitPrice
    case Some(p) => Some(p)
    case None => line.unitPrice
  }

  lemma RevisedTotalAndEvidence(s: Slate, delta: DocumentLine, key: Key)
    requires key in s.lines && key in ApplyDelta(s, delta, key).lines
    ensures var line, now := s.lines[key], ApplyDelta(s, delta, key).lines[key];
            && (Price(line).None? ==> now.lineTotal == line.lineTotal)
            && (Price(line).Some? ==>
                  now.quantity.Some? && now.lineTotal == Some(Product(Price(line).value, now.quantity.value)))
            && now.rawText == (if delta.rawText.Some? && delta.rawText.value != "" then delta.rawText else line.rawText)
            && now.source == (if delta.source.Some? then delta.source else line.source)
  {
    assert EffectiveUnitPrice(s.lines[key]) == Price(s.lines[key]);
  }

  // Every key by itself.

  function Find(s: Slate, key: Key): Option<DocumentLine> {
    if key in s.lines then Some(s.lines[key]) else None
  }

  /** What one change makes of the line of its key. */
  function Changed(line: Option<DocumentLine>, delta: DocumentLine): Option<DocumentLine> {
    match line
    case None => if Adds(delta) then Some(delta) else None
    case Some(l) => if Leaves(l, delta) then Some(Revised(l, delta)) else None
  }

  /** The changes of one key, in order. */
  function History(line: Option<DocumentLine>, deltas: seq<DocumentLine>, key: Key): Option<DocumentLine> {
    if deltas == [] then line
    else
      var n := |deltas| - 1;
      var before := History(line, deltas[..n], key);
      if LineKey(deltas[n], n) == key then Changed(before, deltas[n]) else before
  }

  lemma OneKeyChanged(s: Slate, delta: DocumentLine, at: Key, key: Key)
    ensures Find(ApplyDelta(s, delta, at), key) == if at == key then Changed(Find(s, key), delta) else Find(s, key)
  {
  }

  /** After any changes a line is what the changes of its own key made of it, whatever happened to other lines. */
  lemma {:induction false} LinesAreIndependent(s: Slate, deltas: seq<DocumentLine>, key: Key)
    ensures Find(ApplyDeltas(s, deltas), key) == History(Find(s, key), deltas, key)
    decreases |deltas|
  {
    if deltas != [] {
      var n := |deltas| - 1;
      LinesAreIndependent(s, deltas[..n], key);
      OneKeyChanged(ApplyDeltas(s, deltas[..n]), deltas[n], LineKey(deltas[n], n), key);
    }
  }

  // Quantities.

  /** The sum of the signed quantities of the key's changes from number `from` on. */
  function SumFrom(deltas: seq<DocumentLine>, from: nat, key: Key): real {
    if |deltas| <= from then 0.0
    else
      var n := |deltas| - 1;
      SumFrom(deltas[..n], from, key) + (if LineKey(deltas[n], n) == key then Signed(deltas[n]) else 0.0)
  }

  /** The key is absent before change `at`, which adds it, and is there after every later change. */
  ghost predicate AddedForGood(line: Option<DocumentLine>, deltas: seq<DocumentLine>, key: Key, at: nat) {
    && at < |deltas| && LineKey(deltas[at], at) == key && Adds(deltas[at])
    && History(line, deltas[..at], key).None?
    && forall i :: at < i <= |deltas| ==> History(line, deltas[..i], key).Some?
  }

  lemma AddedPrefix(line: Option<DocumentLine>, deltas: seq<DocumentLine>, key: Key, at: nat)
    requires AddedForGood(line, deltas, key, at) && at < |deltas| - 1
    ensures AddedForGood(line, deltas[..|deltas| - 1], key, at)
  {
    var front := deltas[..|deltas| - 1];
    forall i | at < i <= |front| ensures History(line, front[..i], key).Some? {
      assert front[..i] == deltas[..i];
    }
    assert front[..at] == deltas[..at];
  }

  lemma StepQuantity(before: Option<DocumentLine>, delta: DocumentLine, sum: real)
    requires Changed(before, delta).Some?
    requires before.Some? ==> before.value.quantity == Some(sum) && sum > 0.0
    ensures Changed(before, delta).value.quantity == Some((if before.Some? then sum else 0.0) + Signed(delta))
    ensures (if before.Some? then sum else 0.0) + Signed(delta) > 0.0
  {
  }

  lemma {:induction false} AddedHistory(line: Option<DocumentLine>, deltas: seq<DocumentLine>, key: Key, at: nat)
    requires AddedForGood(line, deltas, key, at)
    ensures var now := History(line, deltas, key);
            now.Some? && now.value.quantity == Some(SumFrom(deltas, at, key)) && SumFrom(deltas, at, key) > 0.0
    decreases |deltas|
  {
    var n := |deltas| - 1;
    assert deltas[..|deltas|] == deltas;
    assert History(line, deltas, key).Some?;
    if at < n {
      AddedPrefix(line, deltas, key, at);
      AddedHistory(line, deltas[..n], key, at);
      if LineKey(deltas[n], n) == key {
        StepQuantity(History(line, deltas[..n], key), deltas[n], SumFrom(deltas[..n], at, key));
      }
    } else {
      assert SumFrom(deltas[..n], at, key) == 0.0;
      StepQuantity(None, deltas[n], 0.0);
    }
  }

  /** A line that was added and never removed since has the quantity of all changes of its key since then. */
  lemma AddedQuantity(s: Slate, deltas: seq<DocumentLine>, key: Key, at: nat)
    requires AddedForGood(Find(s, key), deltas, key, at)
    ensures var now := Find(ApplyDeltas(s, deltas), key);
            now.Some? && now.value.quantity == Some(SumFrom(deltas, at, key)) && SumFrom(deltas, at, key) > 0.0
  {
    LinesAreIndependent(s, deltas, key);
    AddedHistory(Find(s, key), deltas, key, at);
  }

  // Presence.

  /** The key was there at the start, and no change took it away. */
  ghost predicate KeptAllAlong(line: Option<DocumentLine>, deltas: seq<DocumentLine>, key: Key) {
    forall i :: 0 <= i <= |deltas| ==> History(line, deltas[..i], key).Some?
  }

  lemma {:induction false} PresentSince(line: Option<DocumentLine>, deltas: seq<DocumentLine>, key: Key)
    ensures History(line, deltas, key).Some? <==>
            KeptAllAlong(line, deltas, key) || exists at :: AddedForGood(line, deltas, key, at)
    decreases |deltas|
  {
    assert deltas[..|deltas|] == deltas;
    if History(line, deltas, key).Some? && deltas != [] {
      var n := |deltas| - 1;
      PresentSince(line, deltas[..n], key);
      if History(line, deltas[..n], key).Some? {
        forall i | 0 <= i <= n ensures deltas[..n][..i] == deltas[..i] {
        }
        if KeptAllAlong(line, deltas[..n], key) {
          forall i | 0 <= i <= |deltas| ensures History(line, deltas[..i], key).Some? {
            assert i <= n ==> deltas[..n][..i] == deltas[..i];
          }
        } else {
          var at :| AddedForGood(line, deltas[..n], key, at);
          AddedStays(line, deltas, key, at);
        }
      } else {
        assert AddedForGood(line, deltas, key, n);
      }
    }
  }

  lemma AddedStays(line: Option<DocumentLine>, deltas: seq<DocumentLine>, key: Key, at: nat)
    requires deltas != [] && AddedForGood(line, deltas[..|deltas| - 1], key, at) && History(line, deltas, key).Some?
    ensures AddedForGood(line, deltas, key, at)
  {
    var front := deltas[..|deltas| - 1];
    assert deltas[..|deltas|] == deltas && front[..at] == deltas[..at] && front[at] == deltas[at];
    forall i | at < i <= |deltas| ensures History(line, deltas[..i], key).Some? {
      assert i < |deltas| ==> front[..i] == deltas[..i];
    }
  }

  /** A key is in the result iff it was never taken away from the start, or some change added it for good. */
  lemma PresentExactlySince(s: Slate, deltas: seq<DocumentLine>, key: Key)
    ensures key in ApplyDeltas(s, deltas).lines <==>
            KeptAllAlong(Find(s, key), deltas, key) || exists at :: AddedForGood(Find(s, key), deltas, key, at)
  {
    LinesAreIndependent(s, deltas, key);
    PresentSince(Find(s, key), deltas, key);
  }

  // Order.

  /** When the key arrived: its place in the list at first, or after the list the change that last added it. */
  function Arrival(s: Slate, deltas: seq<DocumentLine>, key: Key): int {
    if deltas == [] then (if key in s.order then IndexOf(s.order, key) else -1)
    else
      var n := |deltas| - 1;
      if LineKey(deltas[n], n) == key && key !in ApplyDeltas(s, deltas[..n]).lines then |s.order| + n
      else Arrival(s, deltas[..n], key)
  }

  function IndexOf(order: seq<Key>, key: Key): (i: nat)
    requires key in order
    ensures i < |order| && order[i] == key
  {
    if order[0] == key then 0 else 1 + IndexOf(order[1..], key)
  }

  /** Arrivals are below the current time and increase along the list. */
  ghost predicate ByArrival(order: seq<Key>, arrival: Key -> int, now: int) {
    && (forall i :: 0 <= i < |order| ==> arrival(order[i]) < now)
    && forall i, j :: 0 <= i < j < |order| ==> arrival(order[i]) < arrival(order[j])
  }

  lemma AfterCut(order: seq<Key>, i: nat, j: nat)
    requires NoDuplicates(order) && i < |order| && j < |order| - 1
    ensures |Without(order, order[i])| == |order| - 1
    ensures Without(order, order[i])[j] == order[if j < i then j else j + 1]
  {
    WithoutAt(order, i);
  }

  lemma ByArrivalWithout(order: seq<Key>, arrival: Key -> int, now: int, key: Key)
    requires ByArrival(order, arrival, now) && NoDuplicates(order)
    ensures ByArrival(Without(order, key), arrival, now)
  {
    if key in order {
      var i, cut := IndexOf(order, key), Without(order, key);
      WithoutAt(order, i);
      forall j | 0 <= j < |cut| ensures arrival(cut[j]) < now {
        AfterCut(order, i, j);
      }
      forall j, k | 0 <= j < k < |cut| ensures arrival(cut[j]) < arrival(cut[k]) {
        AfterCut(order, i, j);
        AfterCut(order, i, k);
      }
    } else {
      WithoutAbsent(order, key);
    }
  }

  lemma {:induction false} WithoutAbsent(order: seq<Key>, key: Key)
    requires key !in order
    ensures Without(order, key) == order
    decreases |order|
  {
    if order != [] {
      assert order[0] in order;
      WithoutAbsent(order[1..], key);
    }
  }

  ghost function Arrivals(s: Slate, deltas: seq<DocumentLine>): Key -> int {
    (k: Key) => Arrival(s, deltas, k)
  }

  lemma StartByArrival(s: Slate)
    requires Consistent(s)
    ensures ByArrival(s.order, Arrivals(s, []), |s.order|)
  {
    forall i | 0 <= i < |s.order| ensures Arrivals(s, [])(s.order[i]) == i {
      assert s.order[IndexOf(s.order, s.order[i])] == s.order[i];
    }
  }

  lemma SameArrivals(order: seq<Key>, a: Key -> int, b: Key -> int, now: int, later: int)
    requires ByArrival(order, a, now) && now <= later && forall i :: 0 <= i < |order| ==> a(order[i]) == b(order[i])
    ensures ByArrival(order, b, later)
  {
  }

  lemma ByArrivalExtended(order: seq<Key>, arrival: Key -> int, now: int, key: Key)
    requires ByArrival(order, arrival, now) && arrival(key) == now
    ensures ByArrival(order + [key], arrival, now + 1)
  {
  }

  lemma ArrivalStays(s: Slate, deltas: seq<DocumentLine>, k: Key)
    requires deltas != [] && k in ApplyDeltas(s, deltas[..|deltas| - 1]).lines
    ensures Arrivals(s, deltas)(k) == Arrivals(s, deltas[..|deltas| - 1])(k)
  {
  }

  /** The lines stay in order of arrival: those of the start in their order, then the added ones by their addition. */
  lemma {:induction false} OrderIsByArrival(s: Slate, deltas: seq<DocumentLine>)
    requires Consistent(s)
    ensures ByArrival(ApplyDeltas(s, deltas).order, Arrivals(s, deltas), |s.order| + |deltas|)
    decreases |deltas|
  {
    if deltas == [] {
      StartByArrival(s);
    } else {
      var n := |deltas| - 1;
      var t, key, now := ApplyDeltas(s, deltas[..n]), LineKey(deltas[n], n), |s.order| + n;
      OrderIsByArrival(s, deltas[..n]);
      DeltasKeepConsistent(s, deltas[..n]);
      forall i | 0 <= i < |t.order| ensures Arrivals(s, deltas[..n])(t.order[i]) == Arrivals(s, deltas)(t.order[i]) {
        assert t.order[i] in t.lines;
        ArrivalStays(s, deltas, t.order[i]);
      }
      SameArrivals(t.order, Arrivals(s, deltas[..n]), Arrivals(s, deltas), now, now);
      if key in t.lines {
        ByArrivalWithout(t.order, Arrivals(s, deltas), now, key);
        SameArrivals(ApplyDelta(t, deltas[n], key).order, Arrivals(s, deltas), Arrivals(s, deltas), now, now + 1);
      } else {
        UnmatchedChange(t, deltas[n], key);
        ByArrivalExtended(t.order, Arrivals(s, deltas), now, key);
        SameArrivals(t.order, Arrivals(s, deltas), Arrivals(s, deltas), now, now + 1);
      }
    }
  }

  // Loading.

  /** The pieces of all lines of the key. */
  function PiecesOf(lines: seq<DocumentLine>, key: Key): real {
    if lines == [] then 0.0
    else
      var n := |lines| - 1;
      PiecesOf(lines[..n], key) + (if LineKey(lines[n], n) == key then Pieces(lines[n]) else 0.0)
  }

  /** Lines of one key are loaded as one: a single one as it is, several with the sum of their pieces. */
  lemma {:induction false} LoadedPieces(lines: seq<DocumentLine>, key: Key)
    requires forall i :: 0 <= i < |lines| ==> Pieces(lines[i]) > 0.0
    ensures Find(Load(lines), key).None? ==> PiecesOf(lines, key) == 0.0
    ensures Find(Load(lines), key).Some? ==> Pieces(Find(Load(lines), key).value) == PiecesOf(lines, key) > 0.0
    decreases |lines|
  {
    if lines != [] {
      var n := |lines| - 1;
      LoadedPieces(lines[..n], key);
    }
  }

  function Unquantified(line: DocumentLine): DocumentLine {
    line.(quantity := None)
  }

  lemma LoadStep(s: Slate, line: DocumentLine, at: Key, key: Key)
    ensures var t := LoadLine(s, line, at);
            && (key in t.lines <==> key in s.lines || key == at)
            && (key in s.lines ==> Unquantified(t.lines[key]) == Unquantified(s.lines[key]))
            && (key !in s.lines && key == at ==> t.lines[key] == line)
  {
  }

  /** Exactly the keys that occur are loaded. */
  lemma {:induction false} LoadedKeys(lines: seq<DocumentLine>, key: Key)
    ensures key in Load(lines).lines <==> Occurs(lines, key)
    decreases |lines|
  {
    if lines != [] {
      var n := |lines| - 1;
      LoadedKeys(lines[..n], key);
      LoadStep(Load(lines[..n]), lines[n], LineKey(lines[n], n), key);
      OccursUpToLast(lines, key);
    }
  }

  lemma OccursUpToLast(lines: seq<DocumentLine>, key: Key)
    requires lines != []
    ensures var n := |lines| - 1; Occurs(lines, key) <==> Occurs(lines[..n], key) || LineKey(lines[n], n) == key
  {
    var n := |lines| - 1;
    assert forall i :: 0 <= i < n ==> lines[..n][i] == lines[i];
  }

  /** Everything but the quantity comes from the first line of the key. */
  lemma {:induction false} LoadedLine(lines: seq<DocumentLine>, key: Key, i: nat)
    requires FirstWith(lines, key, i)
    ensures key in Load(lines).lines && Unquantified(Load(lines).lines[key]) == Unquantified(lines[i])
    decreases |lines|
  {
    var n := |lines| - 1;
    LoadStep(Load(lines[..n]), lines[n], LineKey(lines[n], n), key);
    if i < n {
      FirstInPrefix(lines, key, i);
      LoadedLine(lines[..n], key, i);
    } else {
      LoadedKeys(lines[..n], key);
      NotBeforeFirst(lines, key, i);
    }
  }

  lemma FirstInPrefix(lines: seq<DocumentLine>, key: Key, i: nat)
    requires FirstWith(lines, key, i) && i < |lines| - 1
    ensures FirstWith(lines[..|lines| - 1], key, i)
  {
    assert forall j :: 0 <= j < |lines| - 1 ==> lines[..|lines| - 1][j] == lines[j];
  }

  lemma NotBeforeFirst(lines: seq<DocumentLine>, key: Key, i: nat)
    requires FirstWith(lines, key, i)
    ensures !Occurs(lines[..i], key)
  {
    assert forall j :: 0 <= j < i ==> lines[..i][j] == lines[j];
  }
}
