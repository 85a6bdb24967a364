/**
 Composition of order changes (`apply_order_change_lines` of the correlation engine):
 exactly which batches of changes may be applied one after the other instead of together.
 */
module Composition {
  import opened Options
  import opened Ordering
  import opened Lines
  import opened OrderChanges

  /** A line sits under its own key; an anonymous line sits under some position. */
  ghost predicate Homed(s: Slate) {
    && Consistent(s)
    && forall k :: k in s.lines ==> if k.Position? then !Named(s.lines[k]) else LineKey(s.lines[k], 0) == k
  }

  lemma {:induction false} LoadHomed(before: seq<DocumentLine>)
    ensures Homed(Load(before))
    decreases |before|
  {
    LoadConsistent(before);
    if before != [] {
      LoadHomed(before[..|before| - 1]);
    }
  }

  lemma {:induction false} DeltasHomed(s: Slate, deltas: seq<DocumentLine>)
    requires Homed(s)
    ensures Homed(ApplyDeltas(s, deltas))
    decreases |deltas|
  {
    DeltasKeepConsistent(s, deltas);
    if deltas != [] {
      DeltasHomed(s, deltas[..|deltas| - 1]);
    }
  }

  /** Equal keys, or two positions. */
  predicate Alike(k: Key, l: Key) {
    k == l || (k.Position? && l.Position?)
  }

  /** The same lines in the same order, under keys that differ at most in the numbers of positions. */
  ghost predicate Twins(a: Slate, b: Slate) {
    && Consistent(a) && Consistent(b) && |a.order| == |b.order|
    && forall i :: 0 <= i < |a.order| ==> Alike(a.order[i], b.order[i]) && a.lines[a.order[i]] == b.lines[b.order[i]]
  }

  /** The key under which the i-th line of a slate is read back. */
  function Reread(s: Slate, i: nat): Key
    requires i < |s.order|
  {
    if s.order[i].Position? then Position(i) else s.order[i]
  }

  /** The first n lines in order, each under its own new key. */
  ghost predicate Reads(u: Slate, s: Slate, n: nat)
    requires Consistent(s) && n <= |s.order|
  {
    && Consistent(u) && |u.order| == n
    && forall i :: 0 <= i < n ==> u.order[i] == Reread(s, i) && u.lines[u.order[i]] == s.lines[s.order[i]]
  }

  lemma RereadFresh(u: Slate, s: Slate, n: nat)
    requires Consistent(s) && n < |s.order| && Reads(u, s, n)
    ensures Reread(s, n) !in u.lines
  {
    forall i | 0 <= i < n ensures u.order[i] != Reread(s, n) {
      assert s.order[i] != s.order[n];
    }
  }

  lemma ReadsNext(u: Slate, s: Slate, n: nat)
    requires Consistent(s) && n < |s.order| && Reads(u, s, n)
    ensures Reads(LoadLine(u, s.lines[s.order[n]], Reread(s, n)), s, n + 1)
  {
    RereadFresh(u, s, n);
  }

  lemma LoadStep(lines: seq<DocumentLine>, n: nat)
    requires n < |lines|
    ensures Load(lines[..n + 1]) == LoadLine(Load(lines[..n]), lines[n], LineKey(lines[n], n))
  {
    assert lines[..n + 1][..n] == lines[..n];
  }

  lemma HomedKey(s: Slate, i: nat)
    requires Homed(s) && i < |s.order|
    ensures LineKey(s.lines[s.order[i]], i) == Reread(s, i)
  {
    assert s.order[i] in s.lines;
  }

  /** The lines of the slate in order, each with the key under which it is read back. */
  ghost predicate Lists(s: Slate, lines: seq<DocumentLine>)
    requires Consistent(s)
  {
    |lines| == |s.order| &&
    forall i :: 0 <= i < |lines| ==> lines[i] == s.lines[s.order[i]] && LineKey(lines[i], i) == Reread(s, i)
  }

  lemma {:induction false} LoadListed(s: Slate, lines: seq<DocumentLine>, n: nat)
    requires Consistent(s) && Lists(s, lines) && n <= |s.order|
    ensures Reads(Load(lines[..n]), s, n)
    decreases n
  {
    if n > 0 {
      LoadListed(s, lines, n - 1);
      LoadStep(lines, n - 1);
      ReadsNext(Load(lines[..n - 1]), s, n - 1);
    }
  }

  lemma RereadTwins(s: Slate)
    requires Homed(s)
    ensures Twins(s, Load(Render(s)))
  {
    var n, lines := |s.order|, Render(s);
    forall i | 0 <= i < n ensures LineKey(lines[i], i) == Reread(s, i) {
      HomedKey(s, i);
    }
    LoadListed(s, lines, n);
    assert lines[..n] == lines;
  }

  lemma TwinKey(a: Slate, b: Slate, key: Key)
    requires Twins(a, b) && !key.Position?
    ensures key in a.lines <==> key in b.lines
    ensures key in a.lines ==> exists i :: 0 <= i < |a.order| && a.order[i] == key && b.order[i] == key
  {
    if key in a.lines {
      var i :| 0 <= i < |a.order| && a.order[i] == key;
      assert b.order[i] == key;
    }
    if key in b.lines {
      var i :| 0 <= i < |b.order| && b.order[i] == key;
      assert a.order[i] == key;
    }
  }

  lemma TwinsAfterCut(a: Slate, b: Slate, key: Key, i: nat, j: nat)
    requires Twins(a, b) && i < |a.order| && a.order[i] == key && b.order[i] == key && j < |a.order| - 1
    ensures |Without(a.order, key)| == |a.order| - 1 && |Without(b.order, key)| == |a.order| - 1
    ensures var x, y := Without(a.order, key)[j], Without(b.order, key)[j];
            Alike(x, y) && x in a.lines && y in b.lines && x != key && y != key && a.lines[x] == b.lines[y]
  {
    WithoutAt(a.order, i);
    WithoutAt(b.order, i);
    var k := if j < i then j else j + 1;
    assert Without(a.order, key)[j] == a.order[k] && Without(b.order, key)[j] == b.order[k];
  }

  lemma TwinsRemoved(a: Slate, b: Slate, key: Key, i: nat)
    requires Twins(a, b) && i < |a.order| && a.order[i] == key && b.order[i] == key
    ensures Twins(Slate(Without(a.order, key), a.lines - {key}), Slate(Without(b.order, key), b.lines - {key}))
  {
    RemovedConsistent(a, key);
    RemovedConsistent(b, key);
    WithoutAt(a.order, i);
    WithoutAt(b.order, i);
    var x, y := Slate(Without(a.order, key), a.lines - {key}), Slate(Without(b.order, key), b.lines - {key});
    forall j | 0 <= j < |x.order| ensures Alike(x.order[j], y.order[j]) && x.lines[x.order[j]] == y.lines[y.order[j]] {
      TwinsAfterCut(a, b, key, i, j);
    }
  }

  lemma RemovedConsistent(s: Slate, key: Key)
    requires Consistent(s)
    ensures Consistent(Slate(Without(s.order, key), s.lines - {key}))
  {
    WithoutMeaning(s.order, key);
  }

  lemma TwinsReplaced(a: Slate, b: Slate, key: Key, i: nat, line: DocumentLine)
    requires Twins(a, b) && i < |a.order| && a.order[i] == key && b.order[i] == key
    ensures Twins(a.(lines := a.lines[key := line]), b.(lines := b.lines[key := line]))
  {
  }

  lemma TwinsExtended(a: Slate, b: Slate, key: Key, line: DocumentLine)
    requires Twins(a, b) && key !in a.lines && key !in b.lines
    ensures Twins(Slate(a.order + [key], a.lines[key := line]), Slate(b.order + [key], b.lines[key := line]))
  {
  }

  /** A named change treats both slates alike, since it never touches a position. */
  lemma TwinsStay(a: Slate, b: Slate, delta: DocumentLine, key: Key)
    requires Twins(a, b) && !key.Position?
    ensures Twins(ApplyDelta(a, delta, key), ApplyDelta(b, delta, key))
  {
    TwinKey(a, b, key);
    if key in a.lines {
      var i :| 0 <= i < |a.order| && a.order[i] == key && b.order[i] == key;
      TwinsRemoved(a, b, key, i);
      TwinsReplaced(a, b, key, i, Revised(a.lines[key], delta));
    } else {
      TwinsExtended(a, b, key, delta);
    }
  }

  lemma {:induction false} NamedDeltasKeepTwins(a: Slate, b: Slate, deltas: seq<DocumentLine>)
    requires Twins(a, b) && AllNamed(deltas)
    ensures Twins(ApplyDeltas(a, deltas), ApplyDeltas(b, deltas))
    decreases |deltas|
  {
    if deltas != [] {
      var n := |deltas| - 1;
      NamedDeltasKeepTwins(a, b, deltas[..n]);
      TwinsStay(ApplyDeltas(a, deltas[..n]), ApplyDeltas(b, deltas[..n]), deltas[n], LineKey(deltas[n], n));
    }
  }

  /**
   Applying two batches of changes one after the other equals applying them as one batch,
   whatever lines and changes came before, as long as the second batch is named.
   */
  lemma ApplyComposes(before: seq<DocumentLine>, d1: seq<DocumentLine>, d2: seq<DocumentLine>)
    requires AllNamed(d2)
    ensures Apply(before, d1 + d2) == Apply(Apply(before, d1), d2)
  {
    LoadHomed(before);
    DeltasHomed(Load(before), d1);
    var middle := ApplyDeltas(Load(before), d1);
    RereadTwins(middle);
    NamedDeltasKeepTwins(middle, Load(Render(middle)), d2);
    DeltasConcat(Load(before), d1, d2);
  }

  /**
   Composition needs names. An anonymous change is known by its position, and a second
   batch restarts the positions: two additions of an anonymous line in one batch give
   two lines, in two batches they give one line of quantity two.
   */
  lemma AnonymousLinesDoNotCompose()
    ensures var p := Plain(None, 1.0); Apply([], [p] + [p]) != Apply(Apply([], [p]), [p])
  {
    var p := Plain(None, 1.0);
    var empty := Load([]);
    assert [p][..0] == [] && [p, p][..1] == [p];
    var one := ApplyDelta(empty, p, Position(0));
    assert ApplyDeltas(empty, [p]) == one;
    assert ApplyDeltas(empty, [p, p]) == ApplyDelta(one, p, Position(1));
    assert |Apply([], [p, p])| == 2;
    assert Apply([], [p]) == [p];
    assert Load([p]) == Slate([Position(0)], map[Position(0) := p]);
    assert ApplyDeltas(Load([p]), [p]) == ApplyDelta(Load([p]), p, Position(0));
    assert |Apply([p], [p])| == 1;
  }

  /** A source number above all those that the changes carry. */
  function UnusedSource(deltas: seq<DocumentLine>): (r: int)
    ensures forall i :: 0 <= i < |deltas| && deltas[i].source.Some? ==> deltas[i].source.value < r
  {
    if deltas == [] then 0
    else
      var n := |deltas| - 1;
      var r, last := UnusedSource(deltas[..n]), deltas[n].source;
      assert forall i :: 0 <= i < n ==> deltas[..n][i] == deltas[i];
      if last.Some? && last.value >= r then last.value + 1 else r
  }

  /** An anonymous line that carries a given source. */
  function Marked(mark: int): DocumentLine {
    Plain(None, 1.0).(source := Some(mark))
  }

  /** Anonymous lines, the last of which, at position m, is marked. */
  function MarkedLines(m: nat, mark: int): seq<DocumentLine> {
    seq(m, i => Plain(None, 1.0)) + [Marked(mark)]
  }

  /** A named removal, which does nothing to anonymous lines but moves the positions of a batch by one. */
  function Idle(): DocumentLine {
    Plain(Some(""), 1.0).(removed := true)
  }

  /** The first n lines sit at their positions, in order. */
  ghost predicate Positioned(s: Slate, lines: seq<DocumentLine>, n: nat)
    requires n <= |lines|
  {
    && |s.order| == n && (forall i :: 0 <= i < n ==> s.order[i] == Position(i))
    && (forall k :: k in s.lines ==> k.Position? && k.ordinal < n)
    && (forall i :: 0 <= i < n ==> Position(i) in s.lines && s.lines[Position(i)] == lines[i])
  }

  lemma PositionedNext(s: Slate, lines: seq<DocumentLine>, n: nat)
    requires n < |lines| && Positioned(s, lines, n)
    ensures Positioned(LoadLine(s, lines[n], Position(n)), lines, n + 1)
  {
    assert Position(n) !in s.lines;
  }

  lemma {:induction false} LoadAnonymous(lines: seq<DocumentLine>, n: nat)
    requires n <= |lines| && forall i :: 0 <= i < |lines| ==> !Named(lines[i])
    ensures Positioned(Load(lines[..n]), lines, n)
    decreases n
  {
    if n > 0 {
      LoadAnonymous(lines, n - 1);
      LoadStep(lines, n - 1);
      PositionedNext(Load(lines[..n - 1]), lines, n - 1);
    }
  }

  lemma LoadMarkedLines(m: nat, mark: int)
    ensures Positioned(Load(MarkedLines(m, mark)), MarkedLines(m, mark), m + 1)
  {
    var lines := MarkedLines(m, mark);
    LoadAnonymous(lines, m + 1);
    assert lines[..m + 1] == lines;
  }

  lemma RenderPositioned(s: Slate, lines: seq<DocumentLine>)
    requires Consistent(s) && Positioned(s, lines, |lines|)
    ensures Render(s) == lines
  {
    forall i | 0 <= i < |lines| ensures Render(s)[i] == lines[i] {
      assert s.order[i] == Position(i);
    }
  }

  lemma IdleStays(s: Slate)
    requires Code("") !in s.lines
    ensures ApplyDeltas(s, [Idle()]) == s
  {
    var deltas := [Idle()];
    assert ApplyDeltas(s, deltas[..0]) == s;
    assert LineKey(deltas[0], 0) == Code("");
  }

  /** The idle change leaves the marked lines alone. */
  lemma IdleDoesNothing(m: nat, mark: int)
    ensures Apply(MarkedLines(m, mark), [Idle()]) == MarkedLines(m, mark)
  {
    var lines := MarkedLines(m, mark);
    LoadMarkedLines(m, mark);
    LoadConsistent(lines);
    IdleStays(Load(lines));
    RenderPositioned(Load(lines), lines);
  }

  lemma {:induction false} UntouchedLineStays(s: Slate, deltas: seq<DocumentLine>, key: Key)
    requires key in s.lines && forall i :: 0 <= i < |deltas| ==> LineKey(deltas[i], i) != key
    ensures key in ApplyDeltas(s, deltas).lines && ApplyDeltas(s, deltas).lines[key] == s.lines[key]
    decreases |deltas|
  {
    if deltas != [] {
      UntouchedLineStays(s, deltas[..|deltas| - 1], key);
    }
  }

  /** Only the line at position m carries the mark. */
  ghost predicate MarkedAt(s: Slate, m: nat, mark: int) {
    forall k :: k in s.lines && s.lines[k].source == Some(mark) ==> k == Position(m)
  }

  /** A line that carries the mark has been changed. */
  ghost predicate MarkChanged(s: Slate, mark: int) {
    forall k :: k in s.lines && s.lines[k].source == Some(mark) ==> s.lines[k].state == Some("CHANGED")
  }

  lemma MarkStays(s: Slate, delta: DocumentLine, key: Key, m: nat, mark: int)
    requires delta.source != Some(mark)
    ensures MarkedAt(s, m, mark) ==> MarkedAt(ApplyDelta(s, delta, key), m, mark)
    ensures MarkChanged(s, mark) ==> MarkChanged(ApplyDelta(s, delta, key), mark)
    ensures MarkedAt(s, m, mark) && key == Position(m) ==> MarkChanged(ApplyDelta(s, delta, key), mark)
  {
  }

  lemma {:induction false} TouchedMarkChanges(s: Slate, deltas: seq<DocumentLine>, m: nat, mark: int)
    requires MarkedAt(s, m, mark) && forall i :: 0 <= i < |deltas| ==> deltas[i].source != Some(mark)
    ensures MarkedAt(ApplyDeltas(s, deltas), m, mark)
    ensures m < |deltas| && !Named(deltas[m]) ==> MarkChanged(ApplyDeltas(s, deltas), mark)
    decreases |deltas|
  {
    if deltas != [] {
      var n := |deltas| - 1;
      TouchedMarkChanges(s, deltas[..n], m, mark);
      MarkStays(ApplyDeltas(s, deltas[..n]), deltas[n], LineKey(deltas[n], n), m, mark);
    }
  }

  lemma Rendered(s: Slate, line: DocumentLine)
    requires Consistent(s)
    ensures line in Render(s) <==> exists k :: k in s.lines && s.lines[k] == line
  {
    if k :| k in s.lines && s.lines[k] == line {
      var i :| 0 <= i < |s.order| && s.order[i] == k;
      assert Render(s)[i] == line;
    }
    if line in Render(s) {
      var i :| 0 <= i < |s.order| && Render(s)[i] == line;
      assert s.order[i] in s.lines;
    }
  }

  lemma IdleMovesKeys(d2: seq<DocumentLine>, m: nat, i: nat)
    requires m < |d2| && i <= |d2| && forall j :: 0 <= j < m ==> Named(d2[j])
    ensures LineKey(([Idle()] + d2)[i], i) != Position(m)
  {
    if i > 0 {
      assert ([Idle()] + d2)[i] == d2[i - 1];
    }
  }

  /** In one batch the anonymous changes come after the marked line, so it is still there. */
  lemma TogetherKeepsMark(d2: seq<DocumentLine>, m: nat, mark: int)
    requires m < |d2| && forall i :: 0 <= i < m ==> Named(d2[i])
    ensures Marked(mark) in Apply(MarkedLines(m, mark), [Idle()] + d2)
  {
    var before, deltas := MarkedLines(m, mark), [Idle()] + d2;
    LoadMarkedLines(m, mark);
    assert Load(before).lines[Position(m)] == Marked(mark);
    forall i | 0 <= i < |deltas| ensures LineKey(deltas[i], i) != Position(m) {
      IdleMovesKeys(d2, m, i);
    }
    UntouchedLineStays(Load(before), deltas, Position(m));
    LoadConsistent(before);
    DeltasKeepConsistent(Load(before), deltas);
    Rendered(ApplyDeltas(Load(before), deltas), Marked(mark));
  }

  /** In a batch of its own the anonymous change hits the marked line. */
  lemma ApartLosesMark(d2: seq<DocumentLine>, m: nat, mark: int)
    requires m < |d2| && !Named(d2[m]) && forall i :: 0 <= i < |d2| ==> d2[i].source != Some(mark)
    ensures Marked(mark) !in Apply(MarkedLines(m, mark), d2)
  {
    var before := MarkedLines(m, mark);
    LoadMarkedLines(m, mark);
    TouchedMarkChanges(Load(before), d2, m, mark);
    LoadConsistent(before);
    DeltasKeepConsistent(Load(before), d2);
    Rendered(ApplyDeltas(Load(before), d2), Marked(mark));
  }

  ghost predicate Composes(d2: seq<DocumentLine>) {
    forall before, d1 :: Apply(before, d1 + d2) == Apply(Apply(before, d1), d2)
  }

  lemma {:induction false} FirstAnonymous(d: seq<DocumentLine>) returns (m: nat)
    requires !AllNamed(d)
    ensures m < |d| && !Named(d[m]) && forall i :: 0 <= i < m ==> Named(d[i])
    decreases |d|
  {
    if Named(d[0]) {
      m := FirstAnonymous(d[1..]);
      m := m + 1;
      assert forall i :: 0 < i < |d| ==> d[i] == d[1..][i - 1];
    } else {
      m := 0;
    }
  }

  /** A batch may be split off, whatever came before it, exactly if all of its lines are named. */
  lemma ComposesExactlyWhenNamed(d2: seq<DocumentLine>)
    ensures Composes(d2) <==> AllNamed(d2)
  {
    if AllNamed(d2) {
      forall before, d1 ensures Apply(before, d1 + d2) == Apply(Apply(before, d1), d2) {
        ApplyComposes(before, d1, d2);
      }
    } else {
      var m := FirstAnonymous(d2);
      var mark := UnusedSource(d2);
      TogetherKeepsMark(d2, m, mark);
      ApartLosesMark(d2, m, mark);
      IdleDoesNothing(m, mark);
      assert Apply(MarkedLines(m, mark), [Idle()] + d2) != Apply(Apply(MarkedLines(m, mark), [Idle()]), d2);
    }
  }
}
