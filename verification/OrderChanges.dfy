/**
 Applying signed order-change tickets to a list of lines (`apply_order_change_lines` of the
 correlation engine): the fold, and what it keeps.
 */
module OrderChanges {
  import opened Options
  import opened Ordering
  import opened Lines

  /** The dictionary of current lines and the list of its keys in order of first appearance. */
  datatype Slate = Slate(order: seq<Key>, lines: map<Key, DocumentLine>)

  /** Python's `quantity or 1`: both a missing and a zero quantity read as one. */
  function QuantityOrOne(line: DocumentLine): real {
    if line.quantity.Some? && line.quantity.value != 0.0 then line.quantity.value else 1.0
  }

  function DeltaQuantity(line: DocumentLine): real {
    if line.quantity.Some? then line.quantity.value else 0.0
  }

  function NonEmptyOr(a: Option<string>, b: Option<string>): Option<string> {
    if a.Some? && a.value != "" then a else b
  }

  /** A bare line of the given quantity, named or anonymous. */
  function Plain(code: Option<string>, quantity: real): DocumentLine {
    DocumentLine(code, None, None, Some(quantity), None, None, None, None, None, false, false, None, None)
  }

  /** Python's `order.remove(key)` on a list that contains the key. */
  function Without(order: seq<Key>, key: Key): seq<Key> {
    if order == [] then [] else if order[0] == key then order[1..] else [order[0]] + Without(order[1..], key)
  }

  function LoadLine(s: Slate, line: DocumentLine, key: Key): Slate {
    if key !in s.lines then
      Slate(s.order + [key], s.lines[key := line])
    else
      var current := s.lines[key];
      s.(lines := s.lines[key := current.(quantity := Some(QuantityOrOne(current) + QuantityOrOne(line)))])
  }

  function Load(before: seq<DocumentLine>): Slate {
    if before == [] then Slate([], map[])
    else
      var n := |before| - 1;
      LoadLine(Load(before[..n]), before[n], LineKey(before[n], n))
  }

  /** The change removes the line of its key from the slate. */
  predicate Removes(s: Slate, delta: DocumentLine, key: Key) {
    key in s.lines &&
    (delta.removed || delta.cancelled || QuantityOrOne(s.lines[key]) + DeltaQuantity(delta) <= 0.0)
  }

  function Product(price: real, quantity: real): (total: real)
    ensures total == price * quantity
  {
    price * quantity
  }

  function Revised(current: DocumentLine, delta: DocumentLine): DocumentLine {
    var residual := QuantityOrOne(current) + DeltaQuantity(delta);
    var price := EffectiveUnitPrice(current);
    current.(quantity := Some(residual),
             lineTotal := if price.Some? then Some(Product(price.value, residual)) else current.lineTotal,
             state := Some("CHANGED"),
             rawText := NonEmptyOr(delta.rawText, current.rawText),
             source := if delta.source.Some? then delta.source else current.source)
  }

  function ApplyDelta(s: Slate, delta: DocumentLine, key: Key): Slate {
    if key !in s.lines then
      if delta.removed || delta.cancelled || DeltaQuantity(delta) <= 0.0 then s
      else Slate(s.order + [key], s.lines[key := delta])
    else if Removes(s, delta, key) then
      Slate(Without(s.order, key), s.lines - {key})
    else
      s.(lines := s.lines[key := Revised(s.lines[key], delta)])
  }

  function ApplyDeltas(s: Slate, deltas: seq<DocumentLine>): Slate {
    if deltas == [] then s
    else
      var n := |deltas| - 1;
      ApplyDelta(ApplyDeltas(s, deltas[..n]), deltas[n], LineKey(deltas[n], n))
  }

  function Render(s: Slate): seq<DocumentLine>
    requires forall k :: k in s.order ==> k in s.lines
  {
    seq(|s.order|, i requires 0 <= i < |s.order| => s.lines[s.order[i]])
  }

  /** The order list names each key of the dictionary exactly once. */
  ghost predicate Consistent(s: Slate) {
    NoDuplicates(s.order) && forall k :: k in s.order <==> k in s.lines
  }

  lemma {:induction false} WithoutMeaning(order: seq<Key>, key: Key)
    requires NoDuplicates(order)
    ensures NoDuplicates(Without(order, key))
    ensures forall k :: k in Without(order, key) <==> k in order && k != key
    decreases |order|
  {
    if order != [] {
      assert order == [order[0]] + order[1..];
      WithoutMeaning(order[1..], key);
      assert order[0] !in order[1..];
    }
  }

  /** Removing a key cuts it out of a duplicate-free list. */
  lemma {:induction false} WithoutAt(order: seq<Key>, i: nat)
    requires NoDuplicates(order) && i < |order|
    ensures Without(order, order[i]) == order[..i] + order[i + 1..]
    decreases |order|
  {
    if i > 0 {
      assert order[0] != order[i];
      WithoutAt(order[1..], i - 1);
      assert order[1..][..i - 1] == order[1..i] && order[1..][i..] == order[i + 1..];
    }
  }

  lemma DeltaKeepsConsistent(s: Slate, delta: DocumentLine, key: Key)
    requires Consistent(s)
    ensures Consistent(ApplyDelta(s, delta, key))
  {
    WithoutMeaning(s.order, key);
  }

  lemma {:induction false} LoadConsistent(before: seq<DocumentLine>)
    ensures Consistent(Load(before))
    decreases |before|
  {
    if before != [] {
      LoadConsistent(before[..|before| - 1]);
    }
  }

  lemma {:induction false} DeltasKeepConsistent(s: Slate, deltas: seq<DocumentLine>)
    requires Consistent(s)
    ensures Consistent(ApplyDeltas(s, deltas))
    decreases |deltas|
  {
    if deltas != [] {
      var n := |deltas| - 1;
      DeltasKeepConsistent(s, deltas[..n]);
      DeltaKeepsConsistent(ApplyDeltas(s, deltas[..n]), deltas[n], LineKey(deltas[n], n));
    }
  }

  function Apply(before: seq<DocumentLine>, deltas: seq<DocumentLine>): seq<DocumentLine> {
    LoadConsistent(before);
    DeltasKeepConsistent(Load(before), deltas);
    Render(ApplyDeltas(Load(before), deltas))
  }

  method ApplyOrderChangeLines(before: seq<DocumentLine>, deltas: seq<DocumentLine>) returns (result: seq<DocumentLine>)
    ensures result == Apply(before, deltas)
  {
    var state: map<Key, DocumentLine> := map[];
    var order: seq<Key> := [];
    for ordinal := 0 to |before|
      invariant Slate(order, state) == Load(before[..ordinal])
    {
      var line := before[ordinal];
      var key := LineKey(line, ordinal);
      assert before[..ordinal + 1][..ordinal] == before[..ordinal];
      if key !in state {
        order, state := order + [key], state[key := line];
      } else {
        state := state[key := state[key].(quantity := Some(QuantityOrOne(state[key]) + QuantityOrOne(line)))];
      }
    }
    assert before[..|before|] == before;
    LoadConsistent(before);
    for ordinal := 0 to |deltas|
      invariant Slate(order, state) == ApplyDeltas(Load(before), deltas[..ordinal])
    {
      var delta := deltas[ordinal];
      var key := LineKey(delta, ordinal);
      assert deltas[..ordinal + 1][..ordinal] == deltas[..ordinal];
      var deltaQuantity := DeltaQuantity(delta);
      var explicitlyRemoved := delta.removed || delta.cancelled;
      if key !in state {
        if explicitlyRemoved || deltaQuantity <= 0.0 {
          continue;
        }
        order, state := order + [key], state[key := delta];
        continue;
      }
      var current := state[key];
      var residual := QuantityOrOne(current) + deltaQuantity;
      if explicitlyRemoved || residual <= 0.0 {
        state, order := state - {key}, Without(order, key);
        continue;
      }
      state := state[key := Revised(current, delta)];
    }
    assert deltas[..|deltas|] == deltas;
    DeltasKeepConsistent(Load(before), deltas);
    result := Render(Slate(order, state));
  }

  // Composition of changes.

  /** Every line of the slate is named and sits under its own key. */
  ghost predicate SelfKeyed(s: Slate) {
    Consistent(s) && forall k :: k in s.lines ==> Named(s.lines[k]) && LineKey(s.lines[k], 0) == k
  }

  lemma {:induction false} LoadSelfKeyed(before: seq<DocumentLine>)
    requires AllNamed(before)
    ensures SelfKeyed(Load(before))
    decreases |before|
  {
    LoadConsistent(before);
    if before != [] {
      LoadSelfKeyed(before[..|before| - 1]);
    }
  }

  lemma {:induction false} DeltasSelfKeyed(s: Slate, deltas: seq<DocumentLine>)
    requires SelfKeyed(s) && AllNamed(deltas)
    ensures SelfKeyed(ApplyDeltas(s, deltas))
    decreases |deltas|
  {
    DeltasKeepConsistent(s, deltas);
    if deltas != [] {
      DeltasSelfKeyed(s, deltas[..|deltas| - 1]);
    }
  }

  /** The first n lines of a slate. */
  ghost function Front(s: Slate, n: nat): Slate
    requires Consistent(s) && n <= |s.order|
  {
    Slate(s.order[..n], map k | k in s.lines && k in s.order[..n] :: s.lines[k])
  }

  lemma FrontStep(s: Slate, n: nat)
    requires Consistent(s) && n < |s.order|
    ensures Front(s, n + 1) == LoadLine(Front(s, n), s.lines[s.order[n]], s.order[n])
  {
    var key := s.order[n];
    assert s.order[..n + 1] == s.order[..n] + [key];
    assert key !in s.order[..n];
    assert Front(s, n + 1).lines == Front(s, n).lines[key := s.lines[key]];
  }

  /** Reading the rendered lines back gives the same slate. */
  lemma {:induction false} LoadRender(s: Slate, n: nat)
    requires SelfKeyed(s) && n <= |s.order|
    ensures Load(Render(s)[..n]) == Front(s, n)
    decreases n
  {
    if n > 0 {
      LoadRender(s, n - 1);
      FrontStep(s, n - 1);
      var front := Render(s)[..n];
      assert front[..n - 1] == Render(s)[..n - 1];
      assert front[n - 1] == s.lines[s.order[n - 1]];
      assert LineKey(front[n - 1], n - 1) == LineKey(front[n - 1], 0) == s.order[n - 1];
    }
  }

  lemma LoadRenderIsIdentity(s: Slate)
    requires SelfKeyed(s)
    ensures Load(Render(s)) == s
  {
    var n := |s.order|;
    LoadRender(s, n);
    assert Render(s)[..n] == Render(s) && s.order[..n] == s.order;
    assert Front(s, n).lines == s.lines;
  }

  lemma {:induction false} DeltasConcat(s: Slate, d1: seq<DocumentLine>, d2: seq<DocumentLine>)
    requires AllNamed(d2)
    ensures ApplyDeltas(s, d1 + d2) == ApplyDeltas(ApplyDeltas(s, d1), d2)
    decreases |d2|
  {
    if d2 == [] {
      assert d1 + d2 == d1;
    } else {
      var n, all := |d2| - 1, d1 + d2;
      DeltasConcat(s, d1, d2[..n]);
      LastDelta(s, all);
      LastDelta(ApplyDeltas(s, d1), d2);
      assert all[..|all| - 1] == d1 + d2[..n] && all[|all| - 1] == d2[n];
      assert LineKey(d2[n], |all| - 1) == LineKey(d2[n], n);
    }
  }

  lemma LastDelta(s: Slate, deltas: seq<DocumentLine>)
    requires deltas != []
    ensures var n := |deltas| - 1;
            ApplyDeltas(s, deltas) == ApplyDelta(ApplyDeltas(s, deltas[..n]), deltas[n], LineKey(deltas[n], n))
  {
  }

  lemma RenderNamed(s: Slate)
    requires SelfKeyed(s)
    ensures AllNamed(Render(s))
  {
    forall i | 0 <= i < |s.order| ensures Named(Render(s)[i]) {
      assert s.order[i] in s.lines;
    }
  }

  // Positive quantities and the order of surviving lines.

  ghost predicate Positive(line: DocumentLine) {
    line.quantity.None? || line.quantity.value > 0.0
  }

  ghost predicate AllPositive(s: Slate) {
    forall k :: k in s.lines ==> Positive(s.lines[k])
  }

  lemma {:induction false} LoadPositive(before: seq<DocumentLine>)
    requires forall i :: 0 <= i < |before| ==> Positive(before[i])
    ensures AllPositive(Load(before))
    decreases |before|
  {
    if before != [] {
      LoadPositive(before[..|before| - 1]);
    }
  }

  lemma {:induction false} DeltasKeepPositive(s: Slate, deltas: seq<DocumentLine>)
    requires AllPositive(s)
    ensures AllPositive(ApplyDeltas(s, deltas))
    decreases |deltas|
  {
    if deltas != [] {
      DeltasKeepPositive(s, deltas[..|deltas| - 1]);
    }
  }

  /** Whatever the changes say, no line of the result has a zero or negative quantity. */
  lemma ApplyKeepsPositive(before: seq<DocumentLine>, deltas: seq<DocumentLine>)
    requires forall i :: 0 <= i < |before| ==> Positive(before[i])
    ensures forall i :: 0 <= i < |Apply(before, deltas)| ==> Positive(Apply(before, deltas)[i])
  {
    LoadPositive(before);
    DeltasKeepPositive(Load(before), deltas);
    LoadConsistent(before);
    DeltasKeepConsistent(Load(before), deltas);
    var s := ApplyDeltas(Load(before), deltas);
    forall i | 0 <= i < |s.order| ensures Positive(Render(s)[i]) {
      assert s.order[i] in s.lines;
    }
  }

  /** No change of the batch removes the key. */
  ghost predicate NeverRemoved(s: Slate, deltas: seq<DocumentLine>, key: Key) {
    forall i :: 0 <= i < |deltas| && LineKey(deltas[i], i) == key ==>
      !Removes(ApplyDeltas(s, deltas[..i]), deltas[i], key)
  }

  ghost function Kept(order: seq<Key>, keep: set<Key>): seq<Key> {
    if order == [] then []
    else
      var n := |order| - 1;
      Kept(order[..n], keep) + (if order[n] in keep then [order[n]] else [])
  }

  lemma {:induction false} KeptConcat(a: seq<Key>, b: seq<Key>, keep: set<Key>)
    ensures Kept(a + b, keep) == Kept(a, keep) + Kept(b, keep)
    decreases |b|
  {
    if b == [] {
      assert a + b == a;
    } else {
      var n := |b| - 1;
      KeptConcat(a, b[..n], keep);
      assert (a + b)[..|a| + n] == a + b[..n];
    }
  }

  lemma {:induction false} KeptWithout(order: seq<Key>, key: Key, keep: set<Key>)
    requires key !in keep
    ensures Kept(Without(order, key), keep) == Kept(order, keep)
    decreases |order|
  {
    if order != [] {
      assert order == [order[0]] + order[1..];
      KeptConcat([order[0]], order[1..], keep);
      if order[0] == key {
        assert [order[0]][..0] == [];
        assert Kept([order[0]], keep) == [];
      } else {
        KeptWithout(order[1..], key, keep);
        KeptConcat([order[0]], Without(order[1..], key), keep);
      }
    }
  }

  lemma NeverRemovedPrefix(s: Slate, deltas: seq<DocumentLine>, key: Key)
    requires deltas != [] && NeverRemoved(s, deltas, key)
    ensures NeverRemoved(s, deltas[..|deltas| - 1], key)
  {
    var d := deltas[..|deltas| - 1];
    forall i | 0 <= i < |d| && LineKey(d[i], i) == key ensures !Removes(ApplyDeltas(s, d[..i]), d[i], key) {
      assert d[..i] == deltas[..i] && d[i] == deltas[i];
    }
  }

  /** Keys that no change removes stay, and stay in the same relative order. */
  lemma {:induction false} SurvivorsKeepOrder(s: Slate, deltas: seq<DocumentLine>, keep: set<Key>)
    requires Consistent(s)
    requires forall k :: k in keep ==> k in s.lines && NeverRemoved(s, deltas, k)
    ensures forall k :: k in keep ==> k in ApplyDeltas(s, deltas).lines
    ensures Kept(ApplyDeltas(s, deltas).order, keep) == Kept(s.order, keep)
    decreases |deltas|
  {
    if deltas != [] {
      var n := |deltas| - 1;
      forall k | k in keep ensures NeverRemoved(s, deltas[..n], k) {
        NeverRemovedPrefix(s, deltas, k);
      }
      SurvivorsKeepOrder(s, deltas[..n], keep);
      var t, key := ApplyDeltas(s, deltas[..n]), LineKey(deltas[n], n);
      DeltasKeepConsistent(s, deltas[..n]);
      if key in keep {
        assert !Removes(t, deltas[n], key);
      } else {
        KeptWithout(t.order, key, keep);
        KeptConcat(t.order, [key], keep);
        assert [key][..0] == [];
        assert Kept([key], keep) == [];
      }
    }
  }
}
