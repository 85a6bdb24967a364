/**
 Partitions and guarded merging. A partition maps every member to its class. A merge joins
 two classes only if a guard accepts the joint class; this is what the engine's `union`
 does, whatever the guard checks.
 */
module Partitions {

  type Partition = map<nat, set<nat>>

  /** Decides whether a set of members may form one class. */
  type Guard = set<nat> -> bool

  ghost predicate IsPartition(p: Partition) {
    && (forall x {:trigger p[x]} :: x in p ==> x in p[x])
    && (forall x, y {:trigger y in p[x]} :: x in p && y in p[x] ==> y in p && p[y] == p[x])
  }

  /** A partition all of whose classes pass the guard. */
  ghost predicate Sound(ok: Guard, p: Partition) {
    IsPartition(p) && forall x {:trigger p[x]} :: x in p ==> ok(p[x])
  }

  ghost predicate Together(p: Partition, x: nat, y: nat) {
    x in p && y in p[x]
  }

  /** Every member of `joint` gets `joint` as its class. */
  function Joined(p: Partition, joint: set<nat>): Partition {
    map x | x in p :: if x in joint then joint else p[x]
  }

  function Merge(p: Partition, left: nat, right: nat): Partition
    requires left in p && right in p
  {
    Joined(p, p[left] + p[right])
  }

  /** One call of `union`. */
  function TryMerge(ok: Guard, p: Partition, left: nat, right: nat): Partition
    requires left in p && right in p
  {
    if right in p[left] || !ok(p[left] + p[right]) then p else Merge(p, left, right)
  }

  ghost predicate PairsIn(p: Partition, pairs: seq<(nat, nat)>) {
    forall i :: 0 <= i < |pairs| ==> pairs[i].0 in p && pairs[i].1 in p
  }

  function MergeAll(ok: Guard, p: Partition, pairs: seq<(nat, nat)>): (r: Partition)
    requires PairsIn(p, pairs)
    ensures r.Keys == p.Keys
  {
    if pairs == [] then p
    else
      var n := |pairs| - 1;
      TryMerge(ok, MergeAll(ok, p, pairs[..n]), pairs[n].0, pairs[n].1)
  }

  function Singletons(members: set<nat>): Partition {
    map x | x in members :: {x}
  }

  lemma MergeIsPartition(p: Partition, left: nat, right: nat)
    requires IsPartition(p) && left in p && right in p
    ensures IsPartition(Merge(p, left, right))
    ensures Merge(p, left, right).Keys == p.Keys
  {
  }

  /** Every class of `a` is contained in a class of `b`. */
  ghost predicate Refines(a: Partition, b: Partition) {
    a.Keys == b.Keys && forall x :: x in a ==> a[x] <= b[x]
  }

  lemma MergeSound(ok: Guard, p: Partition, left: nat, right: nat)
    requires Sound(ok, p) && left in p && right in p && ok(p[left] + p[right])
    ensures Sound(ok, Merge(p, left, right))
  {
    MergeIsPartition(p, left, right);
  }

  lemma TryMergeSound(ok: Guard, p: Partition, left: nat, right: nat)
    requires Sound(ok, p) && left in p && right in p
    ensures Sound(ok, TryMerge(ok, p, left, right))
    ensures Refines(p, TryMerge(ok, p, left, right))
  {
    MergeIsPartition(p, left, right);
  }

  /** Any run of unions keeps every class acceptable and never separates members. */
  lemma {:induction false} MergeAllSound(ok: Guard, p: Partition, pairs: seq<(nat, nat)>)
    requires Sound(ok, p) && PairsIn(p, pairs)
    ensures Sound(ok, MergeAll(ok, p, pairs))
    ensures Refines(p, MergeAll(ok, p, pairs))
    decreases |pairs|
  {
    if pairs != [] {
      var n := |pairs| - 1;
      MergeAllSound(ok, p, pairs[..n]);
      TryMergeSound(ok, MergeAll(ok, p, pairs[..n]), pairs[n].0, pairs[n].1);
    }
  }

  lemma PairsInConcat(p: Partition, a: seq<(nat, nat)>, b: seq<(nat, nat)>)
    requires PairsIn(p, a) && PairsIn(p, b)
    ensures PairsIn(p, a + b)
  {
  }

  lemma {:induction false} MergeAllConcat(ok: Guard, p: Partition, a: seq<(nat, nat)>, b: seq<(nat, nat)>)
    requires PairsIn(p, a) && PairsIn(p, b) && PairsIn(p, a + b)
    ensures MergeAll(ok, p, a + b) == MergeAll(ok, MergeAll(ok, p, a), b)
    decreases |b|
  {
    if b == [] {
      assert a + b == a;
    } else {
      var n, ab := |b| - 1, a + b;
      PairsInConcat(p, a, b[..n]);
      MergeAllConcat(ok, p, a, b[..n]);
      assert ab[..|ab| - 1] == a + b[..n] && ab[|ab| - 1] == b[n];
    }
  }

  lemma RefinesTransitive(a: Partition, b: Partition, c: Partition)
    requires Refines(a, b) && Refines(b, c)
    ensures Refines(a, c)
  {
  }

  /** The state just before and just after the i-th union, and how they relate to the end of the run. */
  lemma RunSplit(ok: Guard, p: Partition, pairs: seq<(nat, nat)>, i: nat)
    requires Sound(ok, p) && PairsIn(p, pairs) && i < |pairs|
    ensures Sound(ok, MergeAll(ok, p, pairs[..i]))
    ensures Refines(MergeAll(ok, p, pairs[..i]), MergeAll(ok, p, pairs))
    ensures Refines(TryMerge(ok, MergeAll(ok, p, pairs[..i]), pairs[i].0, pairs[i].1), MergeAll(ok, p, pairs))
  {
    var q, t := MergeAll(ok, p, pairs[..i]), MergeAll(ok, p, pairs[..i + 1]);
    assert pairs[..i + 1][..i] == pairs[..i];
    assert pairs == pairs[..i + 1] + pairs[i + 1..];
    MergeAllSound(ok, p, pairs[..i]);
    MergeAllSound(ok, p, pairs[..i + 1]);
    MergeAllConcat(ok, p, pairs[..i + 1], pairs[i + 1..]);
    MergeAllSound(ok, t, pairs[i + 1..]);
    TryMergeSound(ok, q, pairs[i].0, pairs[i].1);
    RefinesTransitive(q, t, MergeAll(ok, p, pairs));
  }

  /**
   A pair that a run of unions leaves apart was refused at its turn, on classes contained in
   the final ones.
   */
  lemma RefusedAtItsTurn(ok: Guard, p: Partition, pairs: seq<(nat, nat)>, i: nat) returns (l: set<nat>, r: set<nat>)
    requires Sound(ok, p) && PairsIn(p, pairs) && i < |pairs|
    requires !Together(MergeAll(ok, p, pairs), pairs[i].0, pairs[i].1)
    ensures pairs[i].0 in l && l <= MergeAll(ok, p, pairs)[pairs[i].0]
    ensures pairs[i].1 in r && r <= MergeAll(ok, p, pairs)[pairs[i].1]
    ensures ok(l) && ok(r) && !ok(l + r)
  {
    var x, y := pairs[i].0, pairs[i].1;
    var q := MergeAll(ok, p, pairs[..i]);
    RunSplit(ok, p, pairs, i);
    l, r := q[x], q[y];
    var t := TryMerge(ok, q, x, y);
    assert Refines(t, MergeAll(ok, p, pairs));
    assert y !in t[x];
  }

  // Connectedness: however a class is cut in two, some edge crosses the cut.

  ghost predicate Crosses(edges: set<(nat, nat)>, a: set<nat>, b: set<nat>) {
    exists e :: e in edges && ((e.0 in a && e.1 in b) || (e.0 in b && e.1 in a))
  }

  ghost predicate Connected(edges: set<(nat, nat)>, s: set<nat>) {
    forall a {:trigger Crosses(edges, a, s - a)} :: a < s && a != {} ==> Crosses(edges, a, s - a)
  }

  lemma CrossesMore(edges: set<(nat, nat)>, a: set<nat>, b: set<nat>, a': set<nat>, b': set<nat>)
    requires Crosses(edges, a, b) && a <= a' && b <= b'
    ensures Crosses(edges, a', b')
  {
  }

  lemma JointConnected(edges: set<(nat, nat)>, s: set<nat>, t: set<nat>, x: nat, y: nat)
    requires Connected(edges, s) && Connected(edges, t)
    requires x in s && y in t && (x, y) in edges
    ensures Connected(edges, s + t)
  {
    forall a | a < s + t && a != {} ensures Crosses(edges, a, s + t - a) {
      if a * s != {} && a * s < s {
        CrossesMore(edges, a * s, s - a * s, a, s + t - a);
      } else if a * t != {} && a * t < t {
        CrossesMore(edges, a * t, t - a * t, a, s + t - a);
      } else if x in a {
        assert x in a * s;
        assert a * s == s;
        assert y in a ==> y in a * t;
      } else {
        assert x !in a * s && a * s <= s;
        assert a * s == {};
        var z :| z in a;
        assert z !in a * s && z in s + t;
        assert z in a * t && a * t <= t;
        assert a * t == t;
      }
    }
  }

  lemma SingleConnected(edges: set<(nat, nat)>, x: nat)
    ensures Connected(edges, {x})
  {
    forall a: set<nat> | a < {x} ensures a == {} {
      assert forall y :: y in a ==> y == x;
      assert x !in a;
    }
  }

  /** In a connected class of several members, every member has an edge inside the class. */
  lemma ConnectedLink(edges: set<(nat, nat)>, s: set<nat>, x: nat) returns (y: nat)
    requires Connected(edges, s) && x in s && s != {x}
    ensures y in s && y != x && ((x, y) in edges || (y, x) in edges)
  {
    assert {x} < s;
    assert Crosses(edges, {x}, s - {x});
    var e :| e in edges && ((e.0 in {x} && e.1 in s - {x}) || (e.0 in s - {x} && e.1 in {x}));
    y := if e.0 == x then e.1 else e.0;
  }

  /** Every class that unions build is connected by the pairs that were offered. */
  lemma {:induction false} MergeAllConnected(ok: Guard, p: Partition, pairs: seq<(nat, nat)>, edges: set<(nat, nat)>)
    requires Sound(ok, p) && PairsIn(p, pairs)
    requires forall x :: x in p ==> Connected(edges, p[x])
    requires forall i :: 0 <= i < |pairs| ==> pairs[i] in edges
    ensures forall x :: x in p ==> Connected(edges, MergeAll(ok, p, pairs)[x])
    decreases |pairs|
  {
    if pairs != [] {
      var n := |pairs| - 1;
      MergeAllConnected(ok, p, pairs[..n], edges);
      MergeAllSound(ok, p, pairs[..n]);
      var q := MergeAll(ok, p, pairs[..n]);
      var l, r := pairs[n].0, pairs[n].1;
      JointConnected(edges, q[l], q[r], l, r);
    }
  }

  // Members that take part in no union, and members that are attached to one target each.

  ghost predicate Alone(p: Partition, outside: set<nat>) {
    forall x {:trigger p[x]} :: x in p && x in outside ==> p[x] == {x}
  }

  lemma {:induction false} UntouchedStayAlone(ok: Guard, p: Partition, pairs: seq<(nat, nat)>, outside: set<nat>)
    requires Sound(ok, p) && PairsIn(p, pairs) && Alone(p, outside)
    requires forall i :: 0 <= i < |pairs| ==> pairs[i].0 !in outside && pairs[i].1 !in outside
    ensures Alone(MergeAll(ok, p, pairs), outside)
    decreases |pairs|
  {
    if pairs != [] {
      var n := |pairs| - 1;
      UntouchedStayAlone(ok, p, pairs[..n], outside);
      MergeAllSound(ok, p, pairs[..n]);
    }
  }

  /** The outside member `a` is alone, or shares a class with its target. */
  ghost predicate AloneOrAttached(q: Partition, pairs: seq<(nat, nat)>, a: nat)
    requires a in q
  {
    q[a] == {a} || exists i :: 0 <= i < |pairs| && pairs[i].0 == a && pairs[i].1 in q[a]
  }

  /** Outside members were attached without changing how the others are grouped. */
  ghost predicate OnlyAttached(p: Partition, q: Partition, pairs: seq<(nat, nat)>, outside: set<nat>) {
    && p.Keys == q.Keys
    && (forall x {:trigger q[x]} :: x in q && x !in outside ==> q[x] - outside == p[x])
    && (forall a {:trigger q[a]} :: a in q && a in outside ==> AloneOrAttached(q, pairs, a))
  }

  lemma AttachOne(p: Partition, q: Partition, pairs: seq<(nat, nat)>, outside: set<nat>, a: nat, t: nat)
    requires IsPartition(q) && OnlyAttached(p, q, pairs, outside)
    requires a in q && t in q && a in outside && t !in outside && q[a] == {a}
    ensures OnlyAttached(p, Merge(q, a, t), pairs + [(a, t)], outside)
  {
    var m := Merge(q, a, t);
    forall x | x in m && x !in outside ensures m[x] - outside == p[x] {
      assert x in q[a] + q[t] ==> q[x] == q[t];
      assert x in q[a] + q[t] ==> m[x] - outside == q[t] - outside;
    }
    forall b | b in m && b in outside ensures AloneOrAttached(m, pairs + [(a, t)], b) {
      if b == a {
        assert (pairs + [(a, t)])[|pairs|] == (a, t) && t in m[a];
      } else if q[b] == {b} {
        assert b !in q[t];
      } else {
        var i :| 0 <= i < |pairs| && pairs[i].0 == b && pairs[i].1 in q[b];
        assert (pairs + [(a, t)])[i] == pairs[i];
        assert q[b] <= m[b];
      }
    }
  }

  lemma MoreOffered(p: Partition, q: Partition, pairs: seq<(nat, nat)>, outside: set<nat>, extra: (nat, nat))
    requires OnlyAttached(p, q, pairs, outside)
    ensures OnlyAttached(p, q, pairs + [extra], outside)
  {
    forall b | b in q && b in outside ensures AloneOrAttached(q, pairs + [extra], b) {
      if q[b] != {b} {
        var i :| 0 <= i < |pairs| && pairs[i].0 == b && pairs[i].1 in q[b];
        assert (pairs + [extra])[i] == pairs[i];
      }
    }
  }

  lemma {:induction false} AttachAll(ok: Guard, p: Partition, pairs: seq<(nat, nat)>, outside: set<nat>)
    requires Sound(ok, p) && PairsIn(p, pairs) && Alone(p, outside)
    requires forall i :: 0 <= i < |pairs| ==> pairs[i].0 in outside && pairs[i].1 !in outside
    requires forall i, j :: 0 <= i < j < |pairs| ==> pairs[i].0 != pairs[j].0
    ensures OnlyAttached(p, MergeAll(ok, p, pairs), pairs, outside)
    decreases |pairs|
  {
    if pairs == [] {
      forall x | x in p && x !in outside ensures p[x] - outside == p[x] {
        forall y | y in p[x] ensures y !in outside {
          assert p[y] == p[x] && x in p[y];
        }
      }
    } else {
      var n := |pairs| - 1;
      AttachAll(ok, p, pairs[..n], outside);
      MergeAllSound(ok, p, pairs[..n]);
      var q := MergeAll(ok, p, pairs[..n]);
      var a, t := pairs[n].0, pairs[n].1;
      assert pairs == pairs[..n] + [(a, t)];
      assert AloneOrAttached(q, pairs[..n], a);
      assert q[a] == {a};
      if TryMerge(ok, q, a, t) == q {
        MoreOffered(p, q, pairs[..n], outside, (a, t));
      } else {
        AttachOne(p, q, pairs[..n], outside, a, t);
      }
    }
  }
}
