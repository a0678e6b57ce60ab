/** Base 128 varints, as written and read by `client/src/grpcTransport.ts`. */
module Varint {
  import opened Prelude
  import opened Bits
  import opened Splitting

  datatype DecodeError =
    | MalformedVarint
    | UnexpectedEndOfVarint
    | MalformedLengthDelimitedField
    | UnsupportedWireType(wireType: nat)
    | UnexpectedWireType(fieldNumber: nat)

  /** `byte & 0x7f`. */
  function Group(b: byte): nat {
    b % 0x80
  }

  /** The canonical base 128 form of a number, least significant group first. */
  function VarintBytes(n: nat): (s: seq<byte>)
    ensures |s| > 0
  {
    if n < 0x80 then [n] else [n % 0x80 + 0x80] + VarintBytes(n / 0x80)
  }

  /** What a base 128 byte string denotes in the Protocol Buffers encoding. */
  function Base128(s: seq<byte>): nat {
    if s == [] then 0 else Group(s[0]) + 0x80 * Base128(s[1..])
  }

  /** Exactly one group of bytes: continuation bits on all but the last. */
  predicate Terminated(s: seq<byte>) {
    |s| > 0 && s[|s| - 1] < 0x80 && forall i :: 0 <= i < |s| - 1 ==> s[i] >= 0x80
  }

  /** `(current & 0x7f) | 0x80`. */
  method ContinuationByte(current: nat) returns (b: byte)
    ensures b == current % 0x80 + 0x80
  {
    Pow2Values();
    OrDisjoint(current % 0x80, 1, 7);
    b := Or(current % 0x80, 0x80);
  }

  /** One turn of the writing loop moves a group over. */
  lemma WriteTurn(done: seq<byte>, current: nat, goal: seq<byte>)
    requires current >= 0x80 && done + VarintBytes(current) == goal
    ensures (done + [current % 0x80 + 0x80]) + VarintBytes(current / 0x80) == goal
  {
    var group: seq<byte> := [current % 0x80 + 0x80];
    assert VarintBytes(current) == group + VarintBytes(current / 0x80);
    assert (done + group) + VarintBytes(current / 0x80) == done + (group + VarintBytes(current / 0x80));
  }

  /** `encodeVarint`. */
  method EncodeVarint(value: int) returns (bytes: seq<byte>)
    ensures bytes == VarintBytes(ToUint32(value))
  {
    var current: nat := ToUint32(value);
    ghost var goal := VarintBytes(current);
    bytes := [];
    while current >= 0x80
      invariant bytes + VarintBytes(current) == goal
    {
      var next := ContinuationByte(current);
      WriteTurn(bytes, current, goal);
      bytes := bytes + [next];
      current := current / 0x80;
    }
    bytes := bytes + [current];
  }

  /** `x` moved up to bit position `shift`, for the first five positions of a group. */
  function Scale(shift: nat, x: nat): nat {
    if shift == 0 then x else if shift == 7 then 0x80 * x else if shift == 14 then 0x4000 * x
    else if shift == 21 then 0x20_0000 * x else 0x1000_0000 * x
  }

  /**
   One turn of the loop of `readVarint`, `value | (group << shift)`, in closed form: four groups
   add their bits, the fifth keeps four of its own, and a sixth is shifted by 35 modulo 32.
   */
  function NextValue(value: nat, shift: nat, group: nat): nat {
    if shift < 28 then value + Scale(shift, group)
    else if shift == 28 then value + 0x1000_0000 * (group % 16)
    else Or(value, 8 * group)
  }

  /** The values the loop can hold when the next group goes to position `shift`. */
  ghost predicate InReach(value: nat, shift: nat) {
    if shift == 35 then value < U32 else shift in {0, 7, 14, 21, 28} && value < Scale(shift, 1)
  }

  /** The loop of `readVarint` on the bytes still ahead of it. */
  function ReadVarintFrom(s: seq<byte>, value: nat, shift: nat): (r: Result<Read<nat>, DecodeError>)
    decreases |s|
  {
    if s == [] then Err(UnexpectedEndOfVarint)
    else
      var value' := NextValue(value, shift, Group(s[0]));
      if s[0] < 0x80 then Ok(Read(value', 1))
      else if shift + 7 > 35 then Err(MalformedVarint)
      else
        match ReadVarintFrom(s[1..], value', shift + 7)
        case Ok(r) => Ok(r.(size := r.size + 1))
        case Err(e) => Err(e)
  }

  function ReadVarint(s: seq<byte>): Result<Read<nat>, DecodeError> {
    ReadVarintFrom(s, 0, 0)
  }

  function Advance(r: Result<Read<nat>, DecodeError>, size: nat): Result<Read<nat>, DecodeError> {
    match r case Ok(read) => Ok(read.(size := size + read.size)) case Err(e) => Err(e)
  }

  /** `value |= (byte & 0x7f) << shift`. */
  method AccumulateGroup(value: nat, shift: nat, b: byte) returns (value': nat)
    requires InReach(value, shift)
    ensures value' == NextValue(value, shift, Group(b))
    ensures shift < 35 ==> InReach(value', shift + 7)
  {
    TurnValue(value, shift, Group(b));
    value' := Or(value, ShiftLeft(Group(b), shift));
  }

  /** `readVarint`: reads at an offset, with the 32-bit operators of JavaScript. */
  method ReadVarintAt(bytes: seq<byte>, startOffset: nat) returns (r: Result<Read<nat>, DecodeError>)
    requires startOffset <= |bytes|
    ensures r == ReadVarint(bytes[startOffset..])
  {
    var offset, value, shift := startOffset, 0, 0;
    while offset < |bytes|
      invariant startOffset <= offset <= |bytes|
      invariant InReach(value, shift)
      invariant ReadVarint(bytes[startOffset..]) ==
                Advance(ReadVarintFrom(bytes[offset..], value, shift), offset - startOffset)
    {
      var b := bytes[offset];
      ghost var ahead := bytes[offset..];
      offset := offset + 1;
      assert ahead[1..] == bytes[offset..];
      value := AccumulateGroup(value, shift, b);
      if b < 0x80 {
        return Ok(Read(value, offset - startOffset));
      }
      shift := shift + 7;
      if shift > 35 {
        return Err(MalformedVarint);
      }
    }
    return Err(UnexpectedEndOfVarint);
  }

  // ------------------------------------------------------------------ values

  /** One turn of the loop over the first four groups adds the next seven bits. */
  lemma GroupStep(value: nat, group: nat, shift: nat)
    requires shift in {0, 7, 14, 21} && value < Scale(shift, 1) && group < 0x80
    ensures Or(value, ShiftLeft(group, shift)) == value + Scale(shift, group) < Scale(shift + 7, 1)
  {
    Pow2Values();
    ShiftLow(group, shift, Scale(shift, 1));
    OrDisjoint(value, group, shift);
  }

  /** The fifth group keeps only its low four bits. */
  lemma FifthGroup(value: nat, group: nat)
    requires value < 0x1000_0000 && group < 0x80
    ensures Or(value, ShiftLeft(group, 28)) == value + 0x1000_0000 * (group % 16) < U32
  {
    Pow2Values();
    ShiftHigh(group);
    OrDisjoint(value, group % 16, 28);
  }

  /** A sixth group is shifted by 35 modulo 32, that is by 3. */
  lemma SixthGroup(value: nat, group: nat)
    requires value < U32 && group < 0x80
    ensures Or(value, ShiftLeft(group, 35)) == Or(value, 8 * group) < U32
  {
    Pow2Values();
    ShiftLow(group, 3, 8);
    OrBelow(value, 8 * group, 32);
  }

  /** The value after the groups of `p`, of which the first arrives at position `shift`. */
  function GroupsValue(p: seq<byte>, value: nat, shift: nat): nat
    decreases |p|
  {
    if p == [] then value else GroupsValue(p[1..], NextValue(value, shift, Group(p[0])), shift + 7)
  }

  lemma TurnValue(value: nat, shift: nat, group: nat)
    requires InReach(value, shift) && group < 0x80
    ensures Or(value, ShiftLeft(group, shift)) == NextValue(value, shift, group) < U32
    ensures shift < 35 ==> InReach(NextValue(value, shift, group), shift + 7)
  {
    if shift < 28 {
      GroupStep(value, group, shift);
    } else if shift == 28 {
      FifthGroup(value, group);
    } else {
      SixthGroup(value, group);
    }
  }

  /** The loop stops at the first byte without a continuation bit, within six groups. */
  lemma {:induction false} ReadFromSize(s: seq<byte>, value: nat, shift: nat)
    requires ReadVarintFrom(s, value, shift).Ok? && shift % 7 == 0 && shift <= 35
    ensures var size := ReadVarintFrom(s, value, shift).value.size;
            0 < size <= |s| && 7 * size + shift <= 42 && Terminated(s[..size])
    decreases |s|
  {
    if s[0] >= 0x80 {
      ReadFromSize(s[1..], NextValue(value, shift, Group(s[0])), shift + 7);
      var size := ReadVarintFrom(s, value, shift).value.size;
      assert forall i :: 0 < i < size ==> s[..size][i] == s[1..][..size - 1][i - 1];
    }
  }

  ghost predicate AllContinue(s: seq<byte>, n: nat) {
    n <= |s| && forall i :: 0 <= i < n ==> s[i] >= 0x80
  }

  /** From its turn `k` on, the loop fails on what is still ahead of it. */
  lemma {:induction false} ReadFromFails(s: seq<byte>, value: nat, k: nat)
    requires k <= 5
    ensures ReadVarintFrom(s, value, 7 * k) == Err(UnexpectedEndOfVarint) <==> |s| + k < 6 && AllContinue(s, |s|)
    ensures ReadVarintFrom(s, value, 7 * k) == Err(MalformedVarint) <==> AllContinue(s, 6 - k)
    decreases |s|
  {
    if s == [] {
    } else if s[0] >= 0x80 {
      assert forall i :: 0 <= i < |s| - 1 ==> s[1..][i] == s[i + 1];
      assert forall i :: 0 < i < |s| ==> s[i] == s[1..][i - 1];
      if k < 5 { ReadFromFails(s[1..], NextValue(value, 7 * k, Group(s[0])), k + 1); }
    }
  }

  /** The bytes end too early, or six of them all ask for another; nothing else fails. */
  lemma ReadVarintFails(s: seq<byte>)
    ensures ReadVarint(s) == Err(UnexpectedEndOfVarint) <==> |s| < 6 && forall i :: 0 <= i < |s| ==> s[i] >= 0x80
    ensures ReadVarint(s) == Err(MalformedVarint) <==> |s| >= 6 && forall i :: 0 <= i < 6 ==> s[i] >= 0x80
  {
    ReadFromFails(s, 0, 0);
  }

  /** What the loop returns, from any of its turns. */
  lemma {:induction false} ReadFromValue(s: seq<byte>, value: nat, shift: nat)
    requires InReach(value, shift) && ReadVarintFrom(s, value, shift).Ok?
    ensures var r := ReadVarintFrom(s, value, shift).value;
            0 < r.size <= |s| && r.value == GroupsValue(s[..r.size], value, shift) < U32
    decreases |s|
  {
    var r := ReadVarintFrom(s, value, shift).value;
    var next := NextValue(value, shift, Group(s[0]));
    TurnValue(value, shift, Group(s[0]));
    if s[0] < 0x80 {
      assert s[..1][1..] == [];
      assert GroupsValue([], next, shift + 7) == next;
    } else {
      ReadFromValue(s[1..], next, shift + 7);
      assert s[..r.size][1..] == s[1..][..r.size - 1];
    }
  }

  /** Up to five groups hold the base 128 number, less what does not fit in 32 bits. */
  lemma {:induction false} GroupsValueBase128(p: seq<byte>, value: nat, shift: nat)
    requires InReach(value, shift) && 7 * |p| + shift <= 35
    ensures shift == 35 ==> GroupsValue(p, value, shift) == value
    ensures shift < 35 ==> GroupsValue(p, value, shift) == ToUint32(value + Scale(shift, Base128(p)))
    decreases |p|
  {
    if p == [] {
    } else {
      GroupsValueBase128(p[1..], NextValue(value, shift, Group(p[0])), shift + 7) by {
        TurnValue(value, shift, Group(p[0]));
      }
      if shift == 28 {
        assert p[1..] == [];
        ShiftHigh(Group(p[0]));
        WrappedSum(value, Group(p[0]));
      }
    }
  }

  lemma {:induction false} GroupsValueSnoc(p: seq<byte>, value: nat, shift: nat)
    requires p != []
    ensures var init := p[..|p| - 1];
            GroupsValue(p, value, shift) ==
            NextValue(GroupsValue(init, value, shift), shift + 7 * |init|, Group(p[|p| - 1]))
    decreases |p|
  {
    var init := p[..|p| - 1];
    if init == [] {
    } else {
      GroupsValueSnoc(p[1..], NextValue(value, shift, Group(p[0])), shift + 7);
      assert init[1..] == p[1..][..|p| - 2] && init[0] == p[0];
    }
  }

  /**
   `readVarint` is the base 128 value modulo 2^32 for every varint of up to five bytes.
   A sixth byte is let through, and its bits land on bits 3 to 9 of the value.
   */
  lemma ReadVarintValue(s: seq<byte>)
    requires ReadVarint(s).Ok?
    ensures var r := ReadVarint(s).value;
            && 0 < r.size <= 6 && r.size <= |s| && Terminated(s[..r.size]) && r.value < U32
            && (r.size <= 5 ==> r.value == ToUint32(Base128(s[..r.size])))
            && (r.size == 6 ==> r.value == Or(ToUint32(Base128(s[..5])), 8 * Group(s[5])))
  {
    ReadFromValue(s, 0, 0);
    ReadFromSize(s, 0, 0);
    var p := s[..ReadVarint(s).value.size];
    if |p| <= 5 {
      GroupsValueBase128(p, 0, 0);
    } else {
      GroupsValueSnoc(p, 0, 0);
      GroupsValueBase128(p[..5], 0, 0);
      assert p[..5] == s[..5];
    }
  }

  /** A terminated group of at most six bytes is always read, whatever follows it. */
  lemma {:induction false} ReadsTerminated(p: seq<byte>, rest: seq<byte>, value: nat, shift: nat)
    requires Terminated(p) && shift + 7 * (|p| - 1) <= 35
    ensures ReadVarintFrom(p + rest, value, shift).Ok?
    ensures ReadVarintFrom(p + rest, value, shift).value.size == |p|
    decreases |p|
  {
    if |p| > 1 {
      assert (p + rest)[1..] == p[1..] + rest;
      ReadsTerminated(p[1..], rest, NextValue(value, shift, Group(p[0])), shift + 7);
    }
  }

  /** A varint is accepted exactly when it ends within six bytes. */
  lemma ReadVarintAccepts(s: seq<byte>)
    ensures ReadVarint(s).Ok? <==> exists n :: 0 < n <= 6 && n <= |s| && Terminated(s[..n])
  {
    if ReadVarint(s).Ok? {
      ReadVarintValue(s);
    }
    if n :| 0 < n <= 6 && n <= |s| && Terminated(s[..n]) {
      ReadsTerminated(s[..n], s[n..], 0, 0);
      assert s[..n] + s[n..] == s;
    }
  }

  lemma Base128Split(s: seq<byte>)
    requires |s| == 6
    ensures Base128(s) == Base128(s[..5]) + 0x8_0000_0000 * Group(s[5])
  {
    var t := s[..5];
    assert s[1..][1..][1..][1..][1..] == [s[5]] && [s[5]][1..] == [];
    assert t[1..][1..][1..][1..] == [s[4]] && [s[4]][1..] == [];
    assert s[1..][0] == t[1..][0] && s[1..][1..][0] == t[1..][1..][0];
    assert s[1..][1..][1..][0] == t[1..][1..][1..][0] && s[1..][1..][1..][1..][0] == t[1..][1..][1..][1..][0];
    var s1, t1 := s[1..], t[1..];
    var s2, t2 := s1[1..], t1[1..];
    var s3, t3 := s2[1..], t2[1..];
    var s4, t4 := s3[1..], t3[1..];
    assert Base128(s4) == Group(s4[0]) + 0x80 * Base128([s[5]]);
    assert Base128([s[5]]) == Group(s[5]);
    assert Base128(t4) == Group(s4[0]);
    assert Base128(s3) == Group(s3[0]) + 0x80 * Base128(s4);
    assert Base128(t3) == Group(s3[0]) + 0x80 * Base128(t4);
    assert Base128(s2) == Group(s2[0]) + 0x80 * Base128(s3);
    assert Base128(t2) == Group(s2[0]) + 0x80 * Base128(t3);
    assert Base128(s1) == Group(s1[0]) + 0x80 * Base128(s2);
    assert Base128(t1) == Group(s1[0]) + 0x80 * Base128(t2);
  }

  lemma SixthGroupVanishes(s: seq<byte>)
    requires |s| == 6
    ensures ToUint32(Base128(s)) == ToUint32(Base128(s[..5]))
  {
    Base128Split(s);
    MultipleVanishes(Base128(s[..5]), Group(s[5]));
  }

  lemma MultipleVanishes(x: nat, y: nat)
    ensures ToUint32(x + 0x8_0000_0000 * y) == ToUint32(x)
  {
    Uint32Of(x + 0x8_0000_0000 * y, x / 0x1_0000_0000 + 8 * y, x % 0x1_0000_0000);
  }

  /**
   The value read agrees with the Protocol Buffers value modulo 2^32 exactly when the
   varint has at most five bytes, or its sixth byte adds no bit that is not already there.
   */
  lemma ReadVarintFaithful(s: seq<byte>)
    requires ReadVarint(s).Ok?
    ensures ReadVarint(s).value.size <= |s|
    ensures var r := ReadVarint(s).value;
            r.value == ToUint32(Base128(s[..r.size])) <==>
            (r.size < 6 || BitsWithin(8 * Group(s[5]), ToUint32(Base128(s[..5]))))
  {
    ReadVarintValue(s);
    if ReadVarint(s).value.size == 6 {
      SixthGroupVanishes(s[..6]);
      assert s[..6][..5] == s[..5];
      OrAbsorbs(8 * Group(s[5]), ToUint32(Base128(s[..5])));
    }
  }

  /** Five empty groups and a sixth one `b` denote a multiple of 2^35, that is 0, but are read as 8b. */
  lemma SixByteVarintMisread(s: seq<byte>)
    requires |s| == 6 && s[5] < 0x80 && forall i :: 0 <= i < 5 ==> s[i] == 0x80
    ensures ReadVarint(s) == Ok(Read(8 * Group(s[5]), 6)) && ToUint32(Base128(s)) == 0
  {
    assert Terminated(s);
    assert ReadVarint(s).Ok? && ReadVarint(s).value.size == 6 by {
      ReadsTerminated(s, [], 0, 0);
      assert s + [] == s;
    }
    ReadVarintValue(s);
    SixthGroupVanishes(s);
    ZeroGroups(s[..5]);
    OrZero(8 * Group(s[5]));
  }

  lemma {:induction false} ZeroGroups(s: seq<byte>)
    requires forall i :: 0 <= i < |s| ==> Group(s[i]) == 0
    ensures Base128(s) == 0
  {
    if s == [] {
    } else {
      ZeroGroups(s[1..]);
    }
  }

  // -------------------------------------------------------------- round trip

  /** The canonical form denotes its number, ends where it should and takes at most five bytes. */
  lemma {:induction false} VarintBytesCanonical(n: nat)
    ensures Terminated(VarintBytes(n)) && Base128(VarintBytes(n)) == n
    ensures n < U32 ==> |VarintBytes(n)| <= 5
    ensures n < 0x1000_0000 ==> |VarintBytes(n)| <= 4
    ensures n < 0x20_0000 ==> |VarintBytes(n)| <= 3
    ensures n < 0x4000 ==> |VarintBytes(n)| <= 2
  {
    var s := VarintBytes(n);
    if n < 0x80 {
      assert s[1..] == [];
    } else {
      VarintBytesCanonical(n / 0x80);
      assert s[1..] == VarintBytes(n / 0x80);
    }
  }

  /** Every 32-bit number is read back, with the exact length, whatever follows it. */
  lemma VarintRoundTrip(n: nat, rest: seq<byte>)
    requires n < U32
    ensures ReadVarint(VarintBytes(n) + rest) == Ok(Read(n, |VarintBytes(n)|))
  {
    var p := VarintBytes(n);
    VarintBytesCanonical(n);
    ReadsTerminated(p, rest, 0, 0);
    ReadVarintValue(p + rest);
    assert (p + rest)[..|p|] == p;
  }

  /** Bytes after a varint never change how it is read. */
  lemma ReadVarintExtends(a: seq<byte>, b: seq<byte>)
    requires ReadVarint(a).Ok?
    ensures ReadVarint(a + b) == ReadVarint(a)
  {
    ReadFromExtends(a, b, 0, 0);
  }

  lemma {:induction false} ReadFromExtends(a: seq<byte>, b: seq<byte>, value: nat, shift: nat)
    requires ReadVarintFrom(a, value, shift).Ok?
    ensures ReadVarintFrom(a + b, value, shift) == ReadVarintFrom(a, value, shift)
    decreases |a|
  {
    if a[0] >= 0x80 {
      assert (a + b)[1..] == a[1..] + b;
      ReadFromExtends(a[1..], b, NextValue(value, shift, Group(a[0])), shift + 7);
    }
  }
}
