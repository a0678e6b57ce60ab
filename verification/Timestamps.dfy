/** Counting timestamps in intervals. */
module Timestamps {

  /** How many of the timestamps lie in the half-open interval from `lo` to `hi`. */
  function CountIn(s: seq<nat>, lo: int, hi: int): nat {
    if s == [] then 0
    else CountIn(s[..|s| - 1], lo, hi) + if lo <= s[|s| - 1] < hi then 1 else 0
  }

  /** How many of the timestamps lie in the half-open window of the given length from `lo`. */
  function InWindow(s: seq<nat>, lo: int, length: nat): nat {
    CountIn(s, lo, lo + length)
  }

  /** How many of the timestamps are `lo` or later. */
  function CountFrom(s: seq<nat>, lo: int): nat {
    if s == [] then 0
    else CountFrom(s[..|s| - 1], lo) + if lo <= s[|s| - 1] then 1 else 0
  }

  ghost predicate AtMost(s: seq<nat>, t: int) {
    forall i :: 0 <= i < |s| ==> s[i] <= t
  }

  lemma CountInSnoc(s: seq<nat>, x: nat, lo: int, hi: int)
    ensures CountIn(s + [x], lo, hi) == CountIn(s, lo, hi) + if lo <= x < hi then 1 else 0
  {
    assert (s + [x])[..|s|] == s;
  }

  lemma CountFromSnoc(s: seq<nat>, x: nat, lo: int)
    ensures CountFrom(s + [x], lo) == CountFrom(s, lo) + if lo <= x then 1 else 0
  {
    assert (s + [x])[..|s|] == s;
  }

  lemma {:induction false} CountInBelowCountFrom(s: seq<nat>, lo: int, hi: int, from: int)
    requires from <= lo
    ensures CountIn(s, lo, hi) <= CountFrom(s, from)
  {
    if s == [] {
    } else {
      CountInBelowCountFrom(s[..|s| - 1], lo, hi, from);
    }
  }

  lemma {:induction false} CountFromMonotone(s: seq<nat>, lo: int, lo': int)
    requires lo <= lo'
    ensures CountFrom(s, lo') <= CountFrom(s, lo)
  {
    if s == [] {
    } else {
      CountFromMonotone(s[..|s| - 1], lo, lo');
    }
  }

  lemma {:induction false} CountFromPast(s: seq<nat>, lo: int)
    requires AtMost(s, lo - 1)
    ensures CountFrom(s, lo) == 0
  {
    if s == [] {
    } else {
      CountFromPast(s[..|s| - 1], lo);
    }
  }

  lemma {:induction false} CountInEmpty(s: seq<nat>, lo: int)
    ensures CountIn(s, lo, lo) == 0
  {
    if s == [] {
    } else {
      CountInEmpty(s[..|s| - 1], lo);
    }
  }

  // ------------------------------------------------------------ sliding windows

  /** The timestamps that are younger than the window, as `Vec::retain` keeps them. */
  function Retain(s: seq<nat>, now: nat, windowMs: nat): seq<nat> {
    if s == [] then []
    else
      var last := s[|s| - 1];
      Retain(s[..|s| - 1], now, windowMs) + if now - last < windowMs then [last] else []
  }

  lemma {:induction false} RetainTwice(s: seq<nat>, t: nat, t': nat, w: nat)
    requires t <= t'
    ensures Retain(Retain(s, t, w), t', w) == Retain(s, t', w)
  {
    if s == [] {
    } else {
      var init, last := s[..|s| - 1], s[|s| - 1];
      RetainTwice(init, t, t', w);
      RetainSnoc(Retain(init, t, w), last, t', w);
      assert Retain(init, t, w) + [] == Retain(init, t, w);
      assert Retain(init, t', w) + [] == Retain(init, t', w);
    }
  }

  lemma RetainSnoc(s: seq<nat>, x: nat, t: nat, w: nat)
    ensures Retain(s + [x], t, w) == Retain(s, t, w) + if t - x < w then [x] else []
  {
    assert (s + [x])[..|s|] == s;
  }

  /** Each admission found fewer than `limit` earlier ones inside its window. */
  ghost predicate Spaced(s: seq<nat>, limit: nat, w: nat) {
    s == [] || (
      var init, last := s[..|s| - 1], s[|s| - 1];
      Spaced(init, limit, w) && AtMost(init, last) && |Retain(init, last, w)| < limit
    )
  }

  lemma {:induction false} CountInWithin(s: seq<nat>, lo: int, hi: int, now: nat, w: nat)
    requires now < hi <= lo + w && AtMost(s, now)
    ensures CountIn(s, lo, hi) <= |Retain(s, now, w)|
  {
    if s == [] {
    } else {
      CountInWithin(s[..|s| - 1], lo, hi, now, w);
    }
  }

  lemma {:induction false} SpacedBound(s: seq<nat>, limit: nat, w: nat, lo: int)
    requires Spaced(s, limit, w)
    ensures CountIn(s, lo, lo + w) <= limit
  {
    if s == [] {
    } else {
      var init, last := s[..|s| - 1], s[|s| - 1];
      SpacedBound(init, limit, w, lo);
      if lo <= last < lo + w {
        CountInWithin(init, lo, lo + w, last, w);
      }
    }
  }

  lemma SpacedSnoc(s: seq<nat>, limit: nat, w: nat, now: nat)
    requires Spaced(s, limit, w) && AtMost(s, now) && |Retain(s, now, w)| < limit
    ensures Spaced(s + [now], limit, w)
  {
    var more := s + [now];
    assert more[..|more| - 1] == s;
  }
}
