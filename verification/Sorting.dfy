/** Stable sorting by a key, as the libraries of Rust, JavaScript and Python provide it. */
module Sorting {

  /** `a` comes before `b`: by key, and by position among equal keys. */
  predicate Before(key: nat -> int, a: nat, b: nat) {
    key(a) < key(b) || (key(a) == key(b) && a < b)
  }

  ghost predicate Sorted(key: nat -> int, s: seq<nat>) {
    forall i, j :: 0 <= i < j < |s| ==> Before(key, s[i], s[j])
  }

  /** Every position below `n`, once each. */
  ghost predicate Permutation(s: seq<nat>, n: nat) {
    && (forall i, j :: 0 <= i < j < |s| ==> s[i] != s[j])
    && forall x: nat :: x in s <==> x < n
  }

  /** Insert the last position after everything that does not come after it. */
  function Insert(key: nat -> int, s: seq<nat>, x: nat): seq<nat> {
    if s == [] || Before(key, s[|s| - 1], x) then s + [x]
    else Insert(key, s[..|s| - 1], x) + [s[|s| - 1]]
  }

  /** The positions below `n`, stably sorted by their keys. */
  function StableSort(key: nat -> int, n: nat): seq<nat> {
    if n == 0 then [] else Insert(key, StableSort(key, n - 1), n - 1)
  }

  lemma SortedSnoc(key: nat -> int, s: seq<nat>, x: nat)
    requires Sorted(key, s) && forall y :: y in s ==> Before(key, y, x)
    ensures Sorted(key, s + [x])
  {
  }

  lemma LastAfterAll(key: nat -> int, s: seq<nat>)
    requires Sorted(key, s) && s != []
    ensures forall k :: 0 <= k < |s| - 1 ==> Before(key, s[k], s[|s| - 1])
  {
  }

  lemma {:induction false} InsertSorts(key: nat -> int, s: seq<nat>, x: nat)
    requires Sorted(key, s) && x !in s
    ensures Sorted(key, Insert(key, s, x))
    ensures |Insert(key, s, x)| == |s| + 1 && forall y: nat :: y in Insert(key, s, x) <==> y in s || y == x
  {
    if s == [] || Before(key, s[|s| - 1], x) {
      if s != [] { LastAfterAll(key, s); }
      forall y | y in s
        ensures Before(key, y, x)
      {
        assert y == s[|s| - 1] || y in s[..|s| - 1];
      }
      SortedSnoc(key, s, x);
    } else {
      var n := |s| - 1;
      InsertSorts(key, s[..n], x);
      LastAfterAll(key, s);
      SortedSnoc(key, Insert(key, s[..n], x), s[n]);
      assert s == s[..n] + [s[n]];
    }
  }

  lemma SortedDistinct(key: nat -> int, s: seq<nat>)
    requires Sorted(key, s)
    ensures forall i, j :: 0 <= i < j < |s| ==> s[i] != s[j]
  {
    forall i, j | 0 <= i < j < |s|
      ensures s[i] != s[j]
    {
      assert Before(key, s[i], s[j]);
    }
  }

  lemma InsertNext(key: nat -> int, s: seq<nat>, n: nat)
    requires Sorted(key, s) && Permutation(s, n) && |s| == n
    ensures Sorted(key, Insert(key, s, n)) && Permutation(Insert(key, s, n), n + 1) && |Insert(key, s, n)| == n + 1
  {
    InsertSorts(key, s, n);
    var r := Insert(key, s, n);
    SortedDistinct(key, r);
    forall x: nat
      ensures x in r <==> x < n + 1
    {
      assert x in s <==> x < n;
    }
  }

  lemma {:induction false} StableSortSorts(key: nat -> int, n: nat)
    ensures Sorted(key, StableSort(key, n)) && Permutation(StableSort(key, n), n) && |StableSort(key, n)| == n
  {
    if n == 0 {
    } else {
      StableSortSorts(key, n - 1);
      InsertNext(key, StableSort(key, n - 1), n - 1);
    }
  }

  ghost predicate SameMembers(a: seq<nat>, b: seq<nat>) {
    forall x: nat :: x in a <==> x in b
  }

  /** Only one arrangement of the same elements is sorted. */
  lemma {:induction false} SortedUnique(key: nat -> int, a: seq<nat>, b: seq<nat>)
    requires Sorted(key, a) && Sorted(key, b) && SameMembers(a, b)
    ensures a == b
    decreases |a|
  {
    if b != [] {
      assert b[0] in a;
    }
    if a == [] {
    } else {
      assert a[0] in b;
      LastIsLast(key, a, b);
      SameInits(key, a, b);
      SortedUnique(key, a[..|a| - 1], b[..|b| - 1]);
      assert a == a[..|a| - 1] + [a[|a| - 1]] && b == b[..|b| - 1] + [b[|b| - 1]];
    }
  }

  lemma SameInits(key: nat -> int, a: seq<nat>, b: seq<nat>)
    requires Sorted(key, a) && Sorted(key, b) && SameMembers(a, b)
    requires a != [] && b != [] && a[|a| - 1] == b[|b| - 1]
    ensures SameMembers(a[..|a| - 1], b[..|b| - 1])
  {
    InitMembers(key, a);
    InitMembers(key, b);
    var p, q := a[..|a| - 1], b[..|b| - 1];
    forall x: nat
      ensures x in p <==> x in q
    {
      assert x in a <==> x in b;
    }
  }

  lemma InitMembers(key: nat -> int, s: seq<nat>)
    requires Sorted(key, s) && s != []
    ensures forall x: nat :: x in s[..|s| - 1] <==> x in s && x != s[|s| - 1]
  {
    SortedDistinct(key, s);
    assert s == s[..|s| - 1] + [s[|s| - 1]];
  }

  lemma LastIsLast(key: nat -> int, a: seq<nat>, b: seq<nat>)
    requires a != [] && b != [] && Sorted(key, a) && Sorted(key, b) && SameMembers(a, b)
    ensures a[|a| - 1] == b[|b| - 1]
  {
    var x, y := a[|a| - 1], b[|b| - 1];
    assert x in b && y in a;
    var i :| 0 <= i < |b| && b[i] == x;
    var j :| 0 <= j < |a| && a[j] == y;
    assert i < |b| - 1 ==> Before(key, x, y);
    assert j < |a| - 1 ==> Before(key, y, x);
  }

  /** A sorted arrangement of the positions below `n`, however it was made, is the stable sort. */
  lemma SortIsStable(key: nat -> int, n: nat, s: seq<nat>)
    requires Sorted(key, s) && Permutation(s, n)
    ensures s == StableSort(key, n)
  {
    StableSortSorts(key, n);
    SortedUnique(key, s, StableSort(key, n));
  }
}
