/**
 JavaScript's 32-bit integer operators over their unsigned representatives.
 A signed intermediate is represented by the unsigned number with the same bits,
 which is what the final `>>> 0` of the codec returns.
 */
module Bits {
  import opened Prelude

  function Pow2(n: nat): (p: nat)
    ensures p > 0
  {
    if n == 0 then 1 else 2 * Pow2(n - 1)
  }

  lemma Pow2Values()
    ensures Pow2(0) == 1 && Pow2(3) == 8 && Pow2(7) == 0x80 && Pow2(14) == 0x4000
    ensures Pow2(21) == 0x20_0000 && Pow2(28) == 0x1000_0000 && Pow2(32) == U32
  {
    assert Pow2(4) == 16;
    assert Pow2(8) == 256;
    assert Pow2(11) == 2048;
    assert Pow2(14) == 0x4000;
    assert Pow2(18) == 0x4_0000;
    assert Pow2(22) == 0x40_0000;
    assert Pow2(25) == 0x200_0000;
    assert Pow2(29) == 0x2000_0000;
  }

  /** `x | y`. */
  function Or(x: nat, y: nat): nat
    decreases x + y
  {
    if x + y == 0 then 0
    else 2 * Or(x / 2, y / 2) + (if x % 2 == 1 || y % 2 == 1 then 1 else 0)
  }

  /** `x << shift`: the count is taken modulo 32 and the result modulo 2^32. */
  function ShiftLeft(x: nat, shift: nat): nat {
    ToUint32(x * Pow2(shift % 32))
  }

  /** Every bit set in `x` is set in `y`. */
  predicate BitsWithin(x: nat, y: nat)
    decreases x + y
  {
    x + y == 0 || ((x % 2 == 1 ==> y % 2 == 1) && BitsWithin(x / 2, y / 2))
  }

  lemma {:induction false} OrZero(y: nat)
    ensures Or(0, y) == y
  {
    if y == 0 {
    } else {
      OrZero(y / 2);
    }
  }

  /** A shift that pushes no bit past position 31. */
  lemma ShiftLow(x: nat, shift: nat, weight: nat)
    requires shift < 32 && Pow2(shift) == weight && x * weight < U32
    ensures ShiftLeft(x, shift) == x * weight
  {
  }

  lemma Uint32Of(n: nat, q: nat, r: nat)
    requires n == 0x1_0000_0000 * q + r && r < U32
    ensures ToUint32(n) == r
  {
  }

  /** A seven-bit group shifted to bit 28 keeps four bits. */
  lemma ShiftHigh(group: nat)
    requires group < 0x80
    ensures ShiftLeft(group, 28) == (group % 16) * 0x1000_0000
  {
    Pow2Values();
    Uint32Of(group * 0x1000_0000, group / 16, (group % 16) * 0x1000_0000);
  }

  lemma WrappedSum(value: nat, group: nat)
    requires value < 0x1000_0000 && group < 0x80
    ensures ToUint32(value + 0x1000_0000 * group) == value + 0x1000_0000 * (group % 16)
  {
    Uint32Of(value + 0x1000_0000 * group, group / 16, value + 0x1000_0000 * (group % 16));
  }

  /** OR of a number below 2^k with a multiple of 2^k is their sum. */
  lemma {:induction false} OrDisjoint(x: nat, y: nat, k: nat)
    requires x < Pow2(k)
    ensures Or(x, y * Pow2(k)) == x + y * Pow2(k)
  {
    if k == 0 {
      OrZero(y);
    } else {
      var z := y * Pow2(k - 1);
      assert y * Pow2(k) == 2 * z;
      OrDisjoint(x / 2, y, k - 1);
    }
  }

  lemma {:induction false} OrCommutes(x: nat, y: nat)
    ensures Or(x, y) == Or(y, x)
    decreases x + y
  {
    if x + y > 0 { OrCommutes(x / 2, y / 2); }
  }

  lemma {:induction false} OrBelow(x: nat, y: nat, k: nat)
    requires x < Pow2(k) && y < Pow2(k)
    ensures Or(x, y) < Pow2(k)
  {
    if k > 0 && x + y > 0 { OrBelow(x / 2, y / 2, k - 1); }
  }

  /** OR leaves a number alone exactly when it brings no new bit. */
  lemma {:induction false} OrAbsorbs(x: nat, y: nat)
    ensures Or(y, x) == y <==> BitsWithin(x, y)
    decreases x + y
  {
    if x + y > 0 { OrAbsorbs(x / 2, y / 2); OrAtLeast(y / 2, x / 2); }
  }

  lemma {:induction false} OrAtLeast(y: nat, x: nat)
    ensures Or(y, x) >= y
    decreases x + y
  {
    if x + y > 0 { OrAtLeast(y / 2, x / 2); }
  }
}
