/**
 The round-robin cursor of `paymaster-server/src/horizon.rs`: an unsigned machine word that is
 incremented by every call and reduced modulo the number of nodes.
 */
module RoundRobin {

  /** An atomic increment of a counter of `wrap` values. */
  function Next(cursor: nat, wrap: nat): nat {
    if cursor + 1 < wrap then cursor + 1 else 0
  }

  /** The cursor after `calls` further calls. */
  function CursorAfter(cursor: nat, calls: nat, wrap: nat): nat {
    if calls == 0 then cursor else Next(CursorAfter(cursor, calls - 1, wrap), wrap)
  }

  /** The node that comes first in the `i`-th of the calls that start at `cursor`. */
  function First(cursor: nat, i: nat, n: nat, wrap: nat): nat
    requires n > 0
  {
    CursorAfter(cursor, i, wrap) % n
  }

  /** In `n` calls each of the `n` nodes comes first exactly once. */
  ghost predicate Fair(cursor: nat, n: nat, wrap: nat)
    requires n > 0
  {
    && (forall i, j :: 0 <= i < j < n ==> First(cursor, i, n, wrap) != First(cursor, j, n, wrap))
    && forall node :: 0 <= node < n ==> Served(cursor, node, n, wrap)
  }

  ghost predicate Served(cursor: nat, node: nat, n: nat, wrap: nat)
    requires n > 0
  {
    exists i :: 0 <= i < n && First(cursor, i, n, wrap) == node
  }

  /** Order of visits: all indices below `n`, starting at `start`. */
  function Rotation(n: nat, start: nat): (order: seq<nat>)
    requires start < n
    ensures |order| == n && order[0] == start
  {
    seq(n, (k: nat) => if start + k < n then start + k else start + k - n)
  }

  lemma {:induction false} CursorIs(cursor: nat, calls: nat, wrap: nat)
    requires cursor < wrap && calls <= wrap
    ensures CursorAfter(cursor, calls, wrap) == if cursor + calls < wrap then cursor + calls else cursor + calls - wrap
  {
    if calls == 0 {
    } else {
      CursorIs(cursor, calls - 1, wrap);
    }
  }

  lemma Distribute(n: int, p: int, q: int)
    ensures n * (p + q) == n * p + n * q
  {
  }

  lemma AtLeastOnce(n: nat, d: nat)
    requires d >= 1
    ensures n * d >= n
  {
    Distribute(n, d - 1, 1);
  }

  lemma NotAhead(n: nat, p: int, q: int, x: int, y: int)
    requires n * p + x == n * q + y && 0 <= x < n && 0 <= y < n
    ensures p <= q
  {
    if p > q {
      Distribute(n, q, p - q);
      AtLeastOnce(n, p - q);
    }
  }

  /** Quotient and remainder are unique. */
  lemma Between(n: nat, p: int, q: int, x: int, y: int)
    requires n * p + x == n * q + y && 0 <= x < n && 0 <= y < n
    ensures p == q && x == y
  {
    NotAhead(n, p, q, x, y);
    NotAhead(n, q, p, y, x);
  }

  lemma ModIs(a: nat, n: nat, q: nat, x: nat)
    requires n > 0 && a == n * q + x && x < n
    ensures a % n == x
  {
    Between(n, a / n, q, a % n, x);
  }

  /** Shifting by a multiple of `n` keeps the remainder. */
  lemma ModShift(a: nat, n: nat, w: nat)
    requires n > 0
    ensures (a + n * w) % n == a % n
  {
    Distribute(n, a / n, w);
    ModIs(a + n * w, n, a / n + w, a % n);
  }

  lemma ShiftByWrap(a: nat, n: nat, wrap: nat)
    requires n > 0 && wrap % n == 0
    ensures (a + wrap) % n == a % n
  {
    var w := wrap / n;
    assert wrap == n * w;
    ModShift(a, n, w);
  }

  /** `n` consecutive numbers have different remainders, and all of them. */
  lemma ConsecutiveDiffer(a: nat, n: nat, i: nat, j: nat)
    requires i < j < n
    ensures (a + i) % n != (a + j) % n
  {
    var p, q := (a + i) / n, (a + j) / n;
    if (a + i) % n == (a + j) % n {
      Distribute(n, p, q - p);
      Between(n, q - p, 0, 0, j - i);
    }
  }

  lemma ConsecutiveCover(a: nat, n: nat, x: nat) returns (i: nat)
    requires x < n
    ensures i < n && (a + i) % n == x
  {
    var q, r := a / n, a % n;
    if x >= r {
      i := x - r;
      ModIs(a + i, n, q, x);
    } else {
      i := x + n - r;
      Distribute(n, q, 1);
      ModIs(a + i, n, q + 1, x);
    }
  }

  /** Without a disturbing wrap, the first nodes are the remainders of consecutive numbers. */
  lemma FirstIs(cursor: nat, i: nat, n: nat, wrap: nat)
    requires 0 < n <= wrap && cursor < wrap && i < n
    requires cursor + n <= wrap || wrap % n == 0
    ensures First(cursor, i, n, wrap) == (cursor + i) % n
  {
    CursorIs(cursor, i, wrap);
    if cursor + i >= wrap {
      ShiftByWrap(cursor + i - wrap, n, wrap);
    }
  }

  lemma FairUnlessCut(cursor: nat, n: nat, wrap: nat)
    requires 0 < n <= wrap && cursor < wrap
    requires cursor + n <= wrap || wrap % n == 0
    ensures Fair(cursor, n, wrap)
  {
    forall i, j | 0 <= i < j < n
      ensures First(cursor, i, n, wrap) != First(cursor, j, n, wrap)
    {
      FirstIs(cursor, i, n, wrap);
      FirstIs(cursor, j, n, wrap);
      ConsecutiveDiffer(cursor, n, i, j);
    }
    forall node | 0 <= node < n
      ensures Served(cursor, node, n, wrap)
    {
      var i := ConsecutiveCover(cursor, n, node);
      FirstIs(cursor, i, n, wrap);
    }
  }

  /** The counter just below its range, `r` short of a multiple of `n`. */
  lemma RemaindersAtWrap(wrap: nat, m: nat, n: nat)
    requires 0 < n <= wrap && m < n
    ensures wrap % n >= m ==> (wrap - m) % n == wrap % n - m
    ensures wrap % n < m ==> (wrap - wrap % n) % n == 0
  {
    var q, r := wrap / n, wrap % n;
    if r >= m {
      ModIs(wrap - m, n, q, r - m);
    }
    ModIs(wrap - r, n, q, 0);
  }

  lemma SmallRemainder(x: nat, n: nat)
    requires x < n
    ensures x % n == x
  {
    ModIs(x, n, 0, x);
  }

  /** A wrap in the middle, of a counter that is no multiple of `n`, serves some node twice. */
  lemma UnfairWhenCut(cursor: nat, n: nat, wrap: nat)
    requires 0 < n <= wrap && cursor < wrap && cursor + n > wrap && wrap % n != 0
    ensures !Fair(cursor, n, wrap)
  {
    var m, r := wrap - cursor, wrap % n;
    RemaindersAtWrap(wrap, m, n);
    if r >= m {
      CursorIs(cursor, r, wrap);
      SmallRemainder(r - m, n);
      assert First(cursor, 0, n, wrap) == First(cursor, r, n, wrap);
    } else {
      CursorIs(cursor, m - r, wrap);
      CursorIs(cursor, m, wrap);
      SmallRemainder(0, n);
      assert First(cursor, m - r, n, wrap) == First(cursor, m, n, wrap);
    }
  }

  /**
   In any `n` consecutive calls each node comes first exactly once if and only if the counter does
   not wrap among them, or its range is a multiple of `n`.
   */
  lemma FairExactly(cursor: nat, n: nat, wrap: nat)
    requires 0 < n <= wrap && cursor < wrap
    ensures Fair(cursor, n, wrap) <==> cursor + n <= wrap || wrap % n == 0
  {
    if cursor + n <= wrap || wrap % n == 0 {
      FairUnlessCut(cursor, n, wrap);
    } else {
      UnfairWhenCut(cursor, n, wrap);
    }
  }
}
