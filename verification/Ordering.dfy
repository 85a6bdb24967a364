/**
 Sorting by a key. Every `sorted(..., key=...)` of the program compares tuples of
 numbers, identifiers and strings, so a key is a sequence of integers compared
 lexicographically. The point of the module is that sorting by an injective key
 forgets the order of its input: `SortedIsUnique` and `SortForgetsOrder`.
 */
module Ordering {

  predicate LexLess(a: seq<int>, b: seq<int>)
    decreases |a|
  {
    b != [] && (a == [] || a[0] < b[0] || (a[0] == b[0] && LexLess(a[1..], b[1..])))
  }

  lemma {:induction false} LexTotal(a: seq<int>, b: seq<int>)
    ensures a == b || LexLess(a, b) || LexLess(b, a)
    decreases |a|
  {
    if a != [] && b != [] {
      LexTotal(a[1..], b[1..]);
      assert a == [a[0]] + a[1..] && b == [b[0]] + b[1..];
    }
  }

  lemma {:induction false} LexIrreflexive(a: seq<int>)
    ensures !LexLess(a, a)
    decreases |a|
  {
    if a != [] {
      LexIrreflexive(a[1..]);
    }
  }

  lemma {:induction false} LexTransitive(a: seq<int>, b: seq<int>, c: seq<int>)
    requires LexLess(a, b) && LexLess(b, c)
    ensures LexLess(a, c)
    decreases |a|
  {
    if a != [] && a[0] == b[0] == c[0] {
      LexTransitive(a[1..], b[1..], c[1..]);
    }
  }

  /** `a` is at most `b` and `b` is at most `c`, in the total order. */
  lemma LexAtMostTransitive(a: seq<int>, b: seq<int>, c: seq<int>)
    requires !LexLess(b, a) && !LexLess(c, b)
    ensures !LexLess(c, a)
  {
    LexTotal(a, b);
    LexTotal(b, c);
    if LexLess(c, a) {
      if LexLess(a, b) { LexTransitive(c, a, b); }
    }
  }

  ghost predicate SortedBy<T>(s: seq<T>, key: T -> seq<int>) {
    forall i, j :: 0 <= i < j < |s| ==> !LexLess(key(s[j]), key(s[i]))
  }

  ghost predicate InjectiveOn<T>(s: multiset<T>, key: T -> seq<int>) {
    forall x, y :: x in s && y in s && key(x) == key(y) ==> x == y
  }

  ghost predicate NoDuplicates<T>(s: seq<T>) {
    forall i, j :: 0 <= i < j < |s| ==> s[i] != s[j]
  }

  function Insert<T>(x: T, s: seq<T>, key: T -> seq<int>): (r: seq<T>)
    ensures multiset(r) == multiset(s) + multiset{x}
  {
    if s == [] || !LexLess(key(s[0]), key(x)) then [x] + s
    else
      assert s == [s[0]] + s[1..];
      [s[0]] + Insert(x, s[1..], key)
  }

  /** Python's `sorted(s, key=key)`: stable, because an element goes before its equals on the right. */
  function SortBy<T>(s: seq<T>, key: T -> seq<int>): (r: seq<T>)
    ensures multiset(r) == multiset(s)
    ensures |r| == |s|
  {
    if s == [] then []
    else
      assert s == [s[0]] + s[1..];
      var r := Insert(s[0], SortBy(s[1..], key), key);
      assert |multiset(r)| == |r| && |multiset(s)| == |s|;
      r
  }

  lemma {:induction false} InsertSorted<T>(x: T, s: seq<T>, key: T -> seq<int>)
    requires SortedBy(s, key)
    ensures SortedBy(Insert(x, s, key), key)
    decreases |s|
  {
    if s == [] {
    } else if !LexLess(key(s[0]), key(x)) {
      forall j | 0 <= j < |s| ensures !LexLess(key(s[j]), key(x)) {
        if j > 0 { LexAtMostTransitive(key(x), key(s[0]), key(s[j])); }
      }
    } else {
      InsertSorted(x, s[1..], key);
      var rest := Insert(x, s[1..], key);
      forall j | 0 <= j < |rest| ensures !LexLess(key(rest[j]), key(s[0])) {
        assert rest[j] in multiset(rest);
        if rest[j] == x {
          if LexLess(key(x), key(s[0])) {
            LexTransitive(key(x), key(s[0]), key(x));
            LexIrreflexive(key(x));
          }
        } else {
          assert rest[j] in s[1..];
        }
      }
    }
  }

  lemma {:induction false} SortByIsSorted<T>(s: seq<T>, key: T -> seq<int>)
    ensures SortedBy(SortBy(s, key), key)
    decreases |s|
  {
    if s != [] {
      SortByIsSorted(s[1..], key);
      InsertSorted(s[0], SortBy(s[1..], key), key);
    }
  }

  lemma SortedHeads<T>(a: seq<T>, b: seq<T>, key: T -> seq<int>)
    requires SortedBy(a, key) && SortedBy(b, key)
    requires a != [] && b != [] && a[0] in b && b[0] in a
    ensures key(a[0]) == key(b[0])
  {
    var i :| 0 <= i < |b| && b[i] == a[0];
    var j :| 0 <= j < |a| && a[j] == b[0];
    LexIrreflexive(key(a[0]));
    LexTotal(key(a[0]), key(b[0]));
  }

  lemma TailMultiset<T>(a: seq<T>)
    requires a != []
    ensures multiset(a[1..]) == multiset(a) - multiset{a[0]}
  {
    assert a == [a[0]] + a[1..];
  }

  /** Two sorted arrangements of the same elements are equal when the key tells elements apart. */
  lemma {:induction false} SortedIsUnique<T>(a: seq<T>, b: seq<T>, key: T -> seq<int>)
    requires SortedBy(a, key) && SortedBy(b, key)
    requires multiset(a) == multiset(b)
    requires InjectiveOn(multiset(a), key)
    ensures a == b
    decreases |a|
  {
    SameMultisetSameLength(a, b);
    if a != [] {
      TailsAgree(a, b, key);
      SortedIsUnique(a[1..], b[1..], key);
      assert a == [a[0]] + a[1..] && b == [b[0]] + b[1..];
    }
  }

  lemma SameMultisetSameLength<T>(a: seq<T>, b: seq<T>)
    requires multiset(a) == multiset(b)
    ensures |a| == |b|
  {
    assert |multiset(a)| == |a| && |multiset(b)| == |b|;
  }

  lemma TailsAgree<T>(a: seq<T>, b: seq<T>, key: T -> seq<int>)
    requires SortedBy(a, key) && SortedBy(b, key)
    requires multiset(a) == multiset(b) && a != [] && b != []
    requires InjectiveOn(multiset(a), key)
    ensures a[0] == b[0]
    ensures SortedBy(a[1..], key) && SortedBy(b[1..], key)
    ensures multiset(a[1..]) == multiset(b[1..])
    ensures InjectiveOn(multiset(a[1..]), key)
  {
    assert a[0] in multiset(a) && b[0] in multiset(b);
    SortedHeads(a, b, key);
    TailMultiset(a);
    TailMultiset(b);
    SortedTail(a, key);
    SortedTail(b, key);
    InjectiveTail(a, key);
  }

  lemma InjectiveTail<T>(a: seq<T>, key: T -> seq<int>)
    requires InjectiveOn(multiset(a), key) && a != []
    ensures InjectiveOn(multiset(a[1..]), key)
  {
    TailMultiset(a);
  }

  lemma SortedTail<T>(a: seq<T>, key: T -> seq<int>)
    requires SortedBy(a, key) && a != []
    ensures SortedBy(a[1..], key)
  {
  }

  lemma SortForgetsOrder<T>(a: seq<T>, b: seq<T>, key: T -> seq<int>)
    requires multiset(a) == multiset(b)
    requires InjectiveOn(multiset(a), key)
    ensures SortBy(a, key) == SortBy(b, key)
  {
    SortByIsSorted(a, key);
    SortByIsSorted(b, key);
    SortedIsUnique(SortBy(a, key), SortBy(b, key), key);
  }

  lemma SortOfSorted<T>(a: seq<T>, key: T -> seq<int>)
    requires SortedBy(a, key)
    requires InjectiveOn(multiset(a), key)
    ensures SortBy(a, key) == a
  {
    SortByIsSorted(a, key);
    SortedIsUnique(SortBy(a, key), a, key);
  }

  /** The elements of a set, each once, in an unspecified order. */
  ghost function Listing<T(!new)>(s: set<T>): (r: seq<T>)
    ensures NoDuplicates(r)
    ensures forall x :: x in r <==> x in s
  {
    if s == {} then []
    else
      var x :| x in s;
      [x] + Listing(s - {x})
  }

  /** A set in key order. */
  ghost function Arranged<T(!new)>(s: set<T>, key: T -> seq<int>): seq<T> {
    SortBy(Listing(s), key)
  }

  lemma {:induction false} NoDuplicatesMultiset<T>(a: seq<T>, x: T)
    requires NoDuplicates(a)
    ensures multiset(a)[x] == if x in a then 1 else 0
    decreases |a|
  {
    if a != [] {
      NoDuplicatesMultiset(a[1..], x);
      assert a == [a[0]] + a[1..];
    }
  }

  lemma SameElementsSameMultiset<T>(a: seq<T>, b: seq<T>)
    requires NoDuplicates(a) && NoDuplicates(b)
    requires forall x :: x in a <==> x in b
    ensures multiset(a) == multiset(b)
  {
    forall x ensures multiset(a)[x] == multiset(b)[x] {
      NoDuplicatesMultiset(a, x);
      NoDuplicatesMultiset(b, x);
    }
  }

  /** Sorting any duplicate-free listing of a set gives the set in key order. */
  lemma SortIsArranged<T(!new)>(a: seq<T>, s: set<T>, key: T -> seq<int>)
    requires NoDuplicates(a)
    requires forall x :: x in a <==> x in s
    requires forall x, y :: x in s && y in s && key(x) == key(y) ==> x == y
    ensures SortBy(a, key) == Arranged(s, key)
  {
    SameElementsSameMultiset(a, Listing(s));
    SortForgetsOrder(a, Listing(s), key);
  }

  lemma SameMultisetSameElements<T>(a: seq<T>, b: seq<T>)
    requires multiset(a) == multiset(b) && NoDuplicates(b)
    ensures forall x :: x in a <==> x in b
    ensures NoDuplicates(a)
  {
    forall x ensures x in a <==> x in b {
      assert x in multiset(a) <==> x in multiset(b);
    }
    forall i, j | 0 <= i < j < |a| ensures a[i] != a[j] {
      if a[i] == a[j] {
        RepeatedTwice(a, i, j);
        NoDuplicatesMultiset(b, a[j]);
      }
    }
  }

  lemma RepeatedTwice<T>(a: seq<T>, i: nat, j: nat)
    requires i < j < |a| && a[i] == a[j]
    ensures multiset(a)[a[j]] >= 2
  {
    assert a == a[..j] + [a[j]] + a[j + 1..];
    assert a[..j][i] == a[i];
    assert a[j] in multiset(a[..j]);
  }

  lemma ArrangedElements<T(!new)>(s: set<T>, key: T -> seq<int>)
    ensures forall x :: x in Arranged(s, key) <==> x in s
    ensures NoDuplicates(Arranged(s, key))
  {
    SameMultisetSameElements(Arranged(s, key), Listing(s));
  }

  lemma ArrangedPair<T(!new)>(a: T, b: T, key: T -> seq<int>)
    requires a != b && key(a) != key(b) && !LexLess(key(b), key(a))
    ensures Arranged({a, b}, key) == [a, b]
  {
    PairIsSorted(a, b, key);
    SortIsArranged([a, b], {a, b}, key);
    SortOfSorted([a, b], key);
  }

  lemma PairIsSorted<T>(a: T, b: T, key: T -> seq<int>)
    requires a != b && key(a) != key(b) && !LexLess(key(b), key(a))
    ensures SortedBy([a, b], key) && NoDuplicates([a, b]) && InjectiveOn(multiset([a, b]), key)
    ensures forall x :: x in [a, b] <==> x in {a, b}
  {
  }

  lemma LexOfTwo(a: seq<int>, b: seq<int>)
    requires |a| == |b| == 2
    ensures LexLess(a, b) <==> a[0] < b[0] || (a[0] == b[0] && a[1] < b[1])
  {
    assert LexLess(a[1..], b[1..]) <==> a[1] < b[1] || (a[1] == b[1] && LexLess(a[1..][1..], b[1..][1..]));
  }

  lemma LexOfThree(a: seq<int>, b: seq<int>)
    requires |a| == |b| == 3
    ensures LexLess(a, b) <==> a[0] < b[0] || (a[0] == b[0] && (a[1] < b[1] || (a[1] == b[1] && a[2] < b[2])))
  {
    assert LexLess(a[1..], b[1..]) <==> a[1] < b[1] || (a[1] == b[1] && LexLess(a[1..][1..], b[1..][1..]));
    assert a[1..][1..] == a[2..] && b[1..][1..] == b[2..];
    assert LexLess(a[2..], b[2..]) <==> a[2] < b[2] || (a[2] == b[2] && LexLess(a[2..][1..], b[2..][1..]));
  }

  lemma LexOfFour(a: seq<int>, b: seq<int>)
    requires |a| == |b| == 4
    ensures LexLess(a, b) <==>
            || a[0] < b[0]
            || (a[0] == b[0] && (a[1] < b[1] || (a[1] == b[1] && (a[2] < b[2] || (a[2] == b[2] && a[3] < b[3])))))
  {
    LexOfThree(a[1..], b[1..]);
  }

  /** Python's `sorted` of a set, by a key that tells its elements apart. */
  method SortedSet<T(!new, ==)>(s: set<T>, key: T -> seq<int>) returns (r: seq<T>)
    requires forall x, y :: x in s && y in s && key(x) == key(y) ==> x == y
    ensures r == Arranged(s, key)
  {
    var todo, listed := s, [];
    while todo != {}
      invariant NoDuplicates(listed)
      invariant todo <= s
      invariant forall x :: x in listed <==> x in s && x !in todo
      decreases todo
    {
      var x :| x in todo;
      todo, listed := todo - {x}, listed + [x];
    }
    SortIsArranged(listed, s, key);
    r := SortBy(listed, key);
  }
}
