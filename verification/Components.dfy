/**
 The engine's union-find: a parent map with path halving and the member set of every root.
 Members are numbered in the order of their identifiers, so "the smaller root wins" keeps
 every parent at or below its child.
 */
module Components {
  import opened Partitions

  /** The parent of a member. The quantifiers below are about this function, so that they unfold one link at a time. */
  function Up(parent: map<nat, nat>, x: nat): nat
    requires x in parent
  {
    parent[x]
  }

  predicate IsLeast(x: nat, s: set<nat>) {
    x in s && forall y :: y in s ==> x <= y
  }

  /**
   Parents never exceed their child, so there is no cycle but at a root; every link stays
   inside a class, and a root is the smallest member of its class.
   */
  ghost predicate Represents(parent: map<nat, nat>, p: Partition) {
    && parent.Keys == p.Keys
    && IsPartition(p)
    && (forall x {:trigger Up(parent, x)} :: x in parent ==> LinkFits(x, Up(parent, x), p[x]))
  }

  ghost predicate LinkFits(x: nat, up: nat, cls: set<nat>) {
    up in cls && up <= x && (up == x ==> IsLeast(x, cls))
  }

  /** The dictionary of member sets holds exactly the classes, each under its smallest member. */
  ghost predicate MembersMatch(p: Partition, members: map<nat, set<nat>>) {
    && (forall r {:trigger members[r]} :: r in members ==> r in p && IsLeast(r, p[r]) && members[r] == p[r])
    && (forall r {:trigger IsLeast(r, p[r])} :: r in p && IsLeast(r, p[r]) ==> r in members)
  }

  /** Where following the parents of a member ends. */
  ghost function Root(parent: map<nat, nat>, p: Partition, x: nat): nat
    requires Represents(parent, p) && x in parent
  {
    if Up(parent, x) == x then x else Root(parent, p, Up(parent, x))
  }

  /** Following the parents of a member ends at the smallest member of its class. */
  lemma {:induction false} RootIsLeast(parent: map<nat, nat>, p: Partition, x: nat)
    requires Represents(parent, p) && x in parent
    ensures IsLeast(Root(parent, p, x), p[x])
    decreases x
  {
    if Up(parent, x) != x {
      RootIsLeast(parent, p, Up(parent, x));
    }
  }

  lemma HalvingRepresents(parent: map<nat, nat>, p: Partition, v: nat)
    requires Represents(parent, p) && v in parent
    ensures parent[v] in p[v] && parent[v] <= v
    ensures parent[parent[v]] in p[v] && parent[parent[v]] <= parent[v]
    ensures Represents(parent[v := parent[parent[v]]], p)
  {
    assert LinkFits(v, Up(parent, v), p[v]);
    assert LinkFits(Up(parent, v), Up(parent, Up(parent, v)), p[v]);
    RelinkRepresents(parent, v, Up(parent, Up(parent, v)), p);
  }

  lemma LinkFitsAfterMerge(parent: map<nat, nat>, p: Partition, first: nat, second: nat, x: nat)
    requires Represents(parent, p) && first in p && second in p && x in p && first < second
    requires IsLeast(first, p[first]) && IsLeast(second, p[second])
    ensures LinkFits(x, if x == second then first else Up(parent, x), Merge(p, first, second)[x])
  {
    assert LinkFits(x, Up(parent, x), p[x]);
    assert x in p[first] + p[second] ==> x in p[first] || x in p[second];
  }

  /** Changing one link gives a forest of `m` when every link then fits its class in `m`. */
  lemma RelinkRepresents(parent: map<nat, nat>, v: nat, up: nat, m: Partition)
    requires IsPartition(m) && m.Keys == parent.Keys && v in parent
    requires forall x {:trigger Up(parent, x)} :: x in parent ==>
              LinkFits(x, if x == v then up else Up(parent, x), m[x])
    ensures Represents(parent[v := up], m)
  {
    forall x | x in parent[v := up] ensures LinkFits(x, Up(parent[v := up], x), m[x]) {
      var was := Up(parent, x);
      assert Up(parent[v := up], x) == if x == v then up else was;
    }
  }

  lemma LinkRepresents(parent: map<nat, nat>, p: Partition, first: nat, second: nat)
    requires Represents(parent, p) && first in p && second in p && first < second
    requires IsLeast(first, p[first]) && IsLeast(second, p[second])
    ensures Represents(parent[second := first], Merge(p, first, second))
  {
    MergeIsPartition(p, first, second);
    var m := Merge(p, first, second);
    forall x | x in parent ensures LinkFits(x, if x == second then first else Up(parent, x), m[x]) {
      LinkFitsAfterMerge(parent, p, first, second, x);
    }
    RelinkRepresents(parent, second, first, m);
  }

  lemma LeastAfterMerge(p: Partition, first: nat, second: nat, r: nat)
    requires IsPartition(p) && first in p && second in p && r in p && first < second
    requires IsLeast(first, p[first]) && IsLeast(second, p[second])
    ensures IsLeast(r, Merge(p, first, second)[r]) <==> IsLeast(r, p[r]) && r != second
  {
    var m := Merge(p, first, second);
    if r in p[first] + p[second] {
      assert IsLeast(first, m[r]);
      assert IsLeast(r, p[r]) ==> r == first || r == second;
    } else {
      assert m[r] == p[r];
    }
  }

  lemma LinkUpdatesMembers(p: Partition, members: map<nat, set<nat>>, first: nat, second: nat)
    requires IsPartition(p) && MembersMatch(p, members) && first in members && second in members && first < second
    ensures MembersMatch(Merge(p, first, second), members[first := members[first] + members[second]] - {second})
  {
    var m := Merge(p, first, second);
    var updated := members[first := members[first] + members[second]] - {second};
    forall r | r in p ensures r in updated <==> IsLeast(r, m[r]) {
      LeastAfterMerge(p, first, second, r);
    }
    forall r | r in updated ensures updated[r] == m[r] {
      assert r != first ==> r !in p[first] + p[second];
    }
  }

  lemma MergeByRoots(p: Partition, left: nat, right: nat, first: nat, second: nat)
    requires IsPartition(p) && left in p && right in p
    requires (first in p[left] && second in p[right]) || (first in p[right] && second in p[left])
    ensures Merge(p, left, right) == Merge(p, first, second)
  {
    assert p[left] + p[right] == p[first] + p[second];
  }

  /** The two dictionaries describe the components `p`, and every component passes the guard. */
  ghost predicate Describes(ok: Guard, parent: map<nat, nat>, members: map<nat, set<nat>>, p: Partition) {
    Represents(parent, p) && MembersMatch(p, members) && Sound(ok, p)
  }

  lemma AttachKeeps(ok: Guard, parent: map<nat, nat>, members: map<nat, set<nat>>, p: Partition, first: nat,
                    second: nat)
    requires Describes(ok, parent, members, p)
    requires first in members && second in members && first < second && ok(members[first] + members[second])
    ensures first in p && second in p
    ensures Describes(ok, parent[second := first], members[first := members[first] + members[second]] - {second},
                      Merge(p, first, second))
  {
    LinkRepresents(parent, p, first, second);
    LinkUpdatesMembers(p, members, first, second);
    MergeSound(ok, p, first, second);
  }

  class UnionFind {
    const ok: Guard
    var parent: map<nat, nat>
    var componentMembers: map<nat, set<nat>>
    ghost var classes: Partition  // the current components

    ghost predicate Valid()
      reads this
    {
      Describes(ok, parent, componentMembers, classes)
    }

    constructor (members: set<nat>, ok: Guard)
      requires forall x :: x in members ==> ok({x})
      ensures Valid() && classes == Singletons(members) && this.ok == ok
    {
      this.ok := ok;
      parent := map x | x in members :: x;
      componentMembers := map x | x in members :: {x};
      classes := Singletons(members);
    }

    method Find(start: nat) returns (value: nat)
      requires Valid() && start in classes
      modifies this`parent
      ensures Valid()
      ensures IsLeast(value, classes[start])
    {
      value := start;
      while parent[value] != value
        invariant Represents(parent, classes)
        invariant value in parent && value in classes[start]
        decreases value
      {
        HalvingRepresents(parent, classes, value);
        parent := parent[value := parent[parent[value]]];
        value := parent[value];
      }
      assert Up(parent, value) == value;
    }

    /** Hangs the root `second` below the smaller root `first` and files the joint members there. */
    method Attach(first: nat, second: nat, proposed: set<nat>)
      requires Valid() && first in componentMembers && second in componentMembers && first < second
      requires proposed == componentMembers[first] + componentMembers[second] && ok(proposed)
      modifies this
      ensures Valid() && classes == Merge(old(classes), first, second)
    {
      AttachKeeps(ok, parent, componentMembers, classes, first, second);
      classes := Merge(classes, first, second);
      parent := parent[second := first];
      componentMembers := componentMembers[first := proposed] - {second};
    }

    /** Joins two components unless the guard refuses; says whether they are one component now. */
    method Union(left: nat, right: nat) returns (joined: bool)
      requires Valid() && left in classes && right in classes
      modifies this
      ensures Valid() && classes == TryMerge(ok, old(classes), left, right)
      ensures joined <==> Together(classes, left, right)
    {
      var leftRoot := Find(left);
      var rightRoot := Find(right);
      if leftRoot == rightRoot {
        return true;
      }
      assert right !in classes[left];
      var proposed := componentMembers[leftRoot] + componentMembers[rightRoot];
      assert proposed == classes[left] + classes[right];
      if !ok(proposed) {
        return false;
      }
      if leftRoot < rightRoot {
        MergeByRoots(classes, left, right, leftRoot, rightRoot);
        Attach(leftRoot, rightRoot, proposed);
      } else {
        MergeByRoots(classes, left, right, rightRoot, leftRoot);
        assert proposed == componentMembers[rightRoot] + componentMembers[leftRoot];
        Attach(rightRoot, leftRoot, proposed);
      }
      joined := true;
    }
  }
}
