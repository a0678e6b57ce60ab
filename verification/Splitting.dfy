/**
 Cutting a byte string into consecutive parts with a reader, as the decoders' loops do:
 each turn reads one part and moves on by its size, until the offset reaches the length.
 */
module Splitting {
  import opened Prelude

  /** A value read from the front of a byte string and the bytes it took. */
  datatype Read<T> = Read(value: T, size: nat)

  /** The parts, and how far the last one claims to run past the end. */
  datatype Split<T> = Split(parts: seq<T>, overrun: nat)

  /** Every turn moves on. */
  ghost predicate Progressive<T, E>(next: seq<byte> -> Result<Read<T>, E>) {
    forall s :: next(s).Ok? ==> next(s).value.size > 0
  }

  /** A part that was read does not depend on the bytes after it. */
  ghost predicate Local<T, E>(next: seq<byte> -> Result<Read<T>, E>) {
    forall a, b :: next(a).Ok? ==> next(a + b) == next(a)
  }

  function Prepend<T, E>(parts: seq<T>, rest: Result<Split<T>, E>): Result<Split<T>, E> {
    match rest
    case Err(e) => Err(e)
    case Ok(split) => Ok(split.(parts := parts + split.parts))
  }

  function SplitAll<T, E>(next: seq<byte> -> Result<Read<T>, E>, s: seq<byte>): Result<Split<T>, E>
    requires Progressive(next)
    decreases |s|
  {
    if s == [] then Ok(Split([], 0))
    else
      match next(s)
      case Err(e) => Err(e)
      case Ok(p) =>
        if p.size > |s| then Ok(Split([p.value], p.size - |s|))
        else Prepend([p.value], SplitAll(next, s[p.size..]))
  }

  /** The parts end exactly where the byte string does. */
  predicate Exact<T, E>(r: Result<Split<T>, E>) {
    r.Ok? && r.value.overrun == 0
  }

  /** Where the last part starts. */
  function LastStart<T, E>(next: seq<byte> -> Result<Read<T>, E>, s: seq<byte>): (start: nat)
    requires Progressive(next) && s != [] && SplitAll(next, s).Ok?
    ensures start < |s|
    decreases |s|
  {
    var size := next(s).value.size;
    if size >= |s| then 0 else size + LastStart(next, s[size..])
  }

  /** A split overruns by what its last part claims beyond the end, and only by that. */
  lemma {:induction false} OverrunOfLast<T, E>(next: seq<byte> -> Result<Read<T>, E>, s: seq<byte>)
    requires Progressive(next) && s != [] && SplitAll(next, s).Ok?
    ensures var start := LastStart(next, s);
            && next(s[start..]).Ok?
            && start + next(s[start..]).value.size == |s| + SplitAll(next, s).value.overrun
    decreases |s|
  {
    var size := next(s).value.size;
    if size >= |s| {
      assert s[0..] == s;
    } else {
      OverrunOfLast(next, s[size..]);
      assert s[size..][LastStart(next, s[size..])..] == s[LastStart(next, s)..];
    }
  }

  lemma PrependNothing<T, E>(r: Result<Split<T>, E>)
    ensures Prepend([], r) == r
  {
    if r.Ok? { assert [] + r.value.parts == r.value.parts; }
  }

  lemma PrependTwice<T, E>(a: seq<T>, b: seq<T>, r: Result<Split<T>, E>)
    ensures Prepend(a, Prepend(b, r)) == Prepend(a + b, r)
  {
    if r.Ok? { assert a + (b + r.value.parts) == (a + b) + r.value.parts; }
  }

  lemma {:induction false} SplitConcat<T, E>(next: seq<byte> -> Result<Read<T>, E>, a: seq<byte>, b: seq<byte>)
    requires Progressive(next) && Local(next) && Exact(SplitAll(next, a))
    ensures SplitAll(next, a + b) == Prepend(SplitAll(next, a).value.parts, SplitAll(next, b))
    decreases |a|
  {
    if a == [] {
      assert a + b == b;
      PrependNothing(SplitAll(next, b));
    } else {
      var p := next(a).value;
      var tail := a[p.size..];
      SplitConcat(next, tail, b);
      assert next(a + b) == next(a);
      assert (a + b)[p.size..] == tail + b;
      PrependTwice([p.value], SplitAll(next, tail).value.parts, SplitAll(next, b));
    }
  }

  lemma SplitCons<T, E>(next: seq<byte> -> Result<Read<T>, E>, s: seq<byte>, part: T, rest: seq<byte>)
    requires Progressive(next) && s != [] && next(s + rest) == Ok(Read(part, |s|))
    ensures SplitAll(next, s + rest) == Prepend([part], SplitAll(next, rest))
  {
    assert (s + rest)[|s|..] == rest;
  }

  /** `concatBytes`. */
  function Join(pieces: seq<seq<byte>>): seq<byte> {
    if pieces == [] then [] else Join(pieces[..|pieces| - 1]) + pieces[|pieces| - 1]
  }

  /** Every piece is one part, and nothing else. */
  ghost predicate OnePartEach<T, E>(next: seq<byte> -> Result<Read<T>, E>, pieces: seq<seq<byte>>, parts: seq<T>)
    requires Progressive(next)
  {
    |pieces| == |parts| && forall i :: 0 <= i < |pieces| ==> SplitAll(next, pieces[i]) == Ok(Split([parts[i]], 0))
  }

  lemma JoinNext<T, E>(next: seq<byte> -> Result<Read<T>, E>, a: seq<byte>, parts: seq<T>, b: seq<byte>, part: T)
    requires Progressive(next) && Local(next)
    requires SplitAll(next, a) == Ok(Split(parts, 0)) && SplitAll(next, b) == Ok(Split([part], 0))
    ensures SplitAll(next, a + b) == Ok(Split(parts + [part], 0))
  {
    SplitConcat(next, a, b);
  }

  /** Pieces that each split into one part split, once joined, into those parts in order. */
  lemma {:induction false} SplitJoin<T, E>(next: seq<byte> -> Result<Read<T>, E>, pieces: seq<seq<byte>>, parts: seq<T>)
    requires Progressive(next) && Local(next) && OnePartEach(next, pieces, parts)
    ensures SplitAll(next, Join(pieces)) == Ok(Split(parts, 0))
    decreases |pieces|
  {
    if pieces == [] {
    } else {
      var n := |pieces| - 1;
      SplitJoin(next, pieces[..n], parts[..n]);
      JoinNext(next, Join(pieces[..n]), parts[..n], pieces[n], parts[n]);
      assert parts[..n] + [parts[n]] == parts;
    }
  }
}
