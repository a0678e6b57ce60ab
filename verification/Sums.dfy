/** Sums over sequences, and how updates and rearrangements affect them. */
module Sums {

  function SumBy<T>(s: seq<T>, f: T -> nat): nat {
    if s == [] then 0 else SumBy(s[..|s| - 1], f) + f(s[|s| - 1])
  }

  lemma SumAppend<T>(s: seq<T>, x: T, f: T -> nat)
    ensures SumBy(s + [x], f) == SumBy(s, f) + f(x)
  {
    assert (s + [x])[..|s|] == s;
  }

  lemma {:induction false} SumUpdate<T>(s: seq<T>, i: nat, x: T, f: T -> nat)
    requires i < |s|
    ensures SumBy(s[i := x], f) + f(s[i]) == SumBy(s, f) + f(x)
    ensures SumBy(s, f) >= f(s[i])
    decreases |s|
  {
    var n := |s| - 1;
    if i == n {
      assert s[i := x][..n] == s[..n];
    } else {
      SumUpdate(s[..n], i, x, f);
      assert s[i := x][..n] == s[..n][i := x];
    }
  }

  /** Pointwise smaller terms give a smaller sum. */
  lemma {:induction false} SumMonotone<T>(s: seq<T>, f: T -> nat, g: T -> nat)
    requires forall x :: x in s ==> f(x) <= g(x)
    ensures SumBy(s, f) <= SumBy(s, g)
  {
    if s == [] {
    } else {
      assert s[|s| - 1] in s;
      SumMonotone(s[..|s| - 1], f, g);
    }
  }

  /** Terms that vanish where the indicator does, and are bounded by `bound`, sum to at most count times bound. */
  lemma {:induction false} SumBounded<T>(s: seq<T>, f: T -> nat, indicator: T -> nat, bound: nat)
    requires forall x :: x in s ==> f(x) <= indicator(x) * bound
    ensures SumBy(s, f) <= SumBy(s, indicator) * bound
  {
    if s == [] {
    } else {
      var init, last := s[..|s| - 1], s[|s| - 1];
      assert last in s;
      SumBounded(init, f, indicator, bound);
      assert (SumBy(init, indicator) + indicator(last)) * bound
          == SumBy(init, indicator) * bound + indicator(last) * bound;
    }
  }

  lemma {:induction false} SumRemove<T>(s: seq<T>, i: nat, f: T -> nat)
    requires i < |s|
    ensures SumBy(s, f) == SumBy(s[..i] + s[i + 1..], f) + f(s[i])
    decreases |s|
  {
    var n := |s| - 1;
    if i == n {
      assert s[..i] + s[i + 1..] == s[..n];
    } else {
      SumRemove(s[..n], i, f);
      assert s[..i] + s[i + 1..] == (s[..n][..i] + s[..n][i + 1..]) + [s[n]];
      SumAppend(s[..n][..i] + s[..n][i + 1..], s[n], f);
      assert s[..n] + [s[n]] == s;
    }
  }

  lemma RemoveOne<T>(s: seq<T>, i: nat)
    requires i < |s|
    ensures multiset(s[..i] + s[i + 1..]) == multiset(s) - multiset{s[i]}
  {
    assert s == (s[..i] + [s[i]]) + s[i + 1..];
    assert multiset(s) == multiset(s[..i]) + multiset{s[i]} + multiset(s[i + 1..]);
  }

  lemma SameLength<T>(a: seq<T>, b: seq<T>)
    requires multiset(a) == multiset(b)
    ensures |a| == |b|
  {
    assert |multiset(a)| == |a| && |multiset(b)| == |b|;
  }

  /** A sum does not depend on the order of its terms. */
  lemma {:induction false} SumPermutation<T>(a: seq<T>, b: seq<T>, f: T -> nat)
    requires multiset(a) == multiset(b)
    ensures SumBy(a, f) == SumBy(b, f)
    decreases |a|
  {
    SameLength(a, b);
    if a == [] {
    } else {
      var n := |a| - 1;
      assert a[n] in multiset(b);
      var i :| 0 <= i < |b| && b[i] == a[n];
      RemoveOne(a, n);
      RemoveOne(b, i);
      assert a[..n] + a[n + 1..] == a[..n];
      SumPermutation(a[..n], b[..i] + b[i + 1..], f);
      SumRemove(b, i, f);
    }
  }

  /** Where one function is nowhere below another, their sums agree only if they agree on every term. */
  lemma {:induction false} SumsAgree<T>(s: seq<T>, f: T -> nat, g: T -> nat)
    requires forall x :: x in s ==> g(x) <= f(x)
    ensures SumBy(s, f) == SumBy(s, g) <==> forall x :: x in s ==> f(x) == g(x)
  {
    if s == [] {
    } else {
      var init, last := s[..|s| - 1], s[|s| - 1];
      assert s == init + [last];
      SumMonotone(init, g, f);
      SumsAgree(init, f, g);
    }
  }
}
