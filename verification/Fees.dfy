/**
 The three fee formulas, over exact reals: `paymaster-server/src/stellar.rs`,
 `paymaster-server/src/fee_calculator.rs` and `paymaster-core/src/types.rs`.
 */
module Fees {
  import opened Prelude

  function Ceil(x: real): (c: int)
    ensures c as real - 1.0 < x <= c as real
  {
    if x == x.Floor as real then x.Floor else x.Floor + 1
  }

  lemma CeilUnique(x: real, c: int)
    requires c as real - 1.0 < x <= c as real
    ensures Ceil(x) == c
  {
  }

  lemma CeilMonotone(x: real, y: real)
    requires x <= y
    ensures Ceil(x) <= Ceil(y)
  {
  }

  // ------------------------------------------------------------------- server

  /** The fee charged to the tenant's quota. */
  function Charged(operations: nat, baseFee: int, multiplier: real): int {
    Ceil(((operations + 1) * baseFee) as real * multiplier)
  }

  /** The fee written into the envelope. */
  function EnvelopeFee(operations: nat, baseFee: int, multiplier: real): int {
    Charged(operations, baseFee, multiplier) * (operations + 1)
  }

  // --------------------------------------------------------------- calculator

  datatype CongestionLevel = Low | Medium | High

  function FromMultiplier(multiplier: real): CongestionLevel {
    if multiplier < 1.5 then Low else if multiplier < 3.0 then Medium else High
  }

  datatype FeeResult = FeeResult(perOpFee: int, totalFee: int, congestionLevel: CongestionLevel)

  datatype FeeError = BaseFeeNotPositive | MultiplierNotPositive

  class FeeCalculator {
    const baseFee: int
    var multiplier: real

    constructor (baseFee: int, multiplier: real)
      ensures this.baseFee == baseFee && this.multiplier == multiplier
    {
      this.baseFee, this.multiplier := baseFee, multiplier;
    }

    method SetMultiplier(multiplier: real)
      modifies this
      ensures this.multiplier == multiplier
    {
      this.multiplier := multiplier;
    }

    method Calculate(operations: nat) returns (r: Result<FeeResult, FeeError>)
      ensures r.Ok? <==> baseFee > 0 && multiplier > 0.0
      ensures r.Err? ==> r.error == if baseFee <= 0 then BaseFeeNotPositive else MultiplierNotPositive
      ensures r.Ok? ==> Prices(r.value, baseFee, multiplier, operations)
    {
      r := CalculateFee(baseFee, multiplier, operations);
      if r.Ok? { FeeIsLeast(baseFee, multiplier, operations); }
    }
  }

  /** `calculate_fee`. */
  function CalculateFee(baseFee: int, multiplier: real, operations: nat): (r: Result<FeeResult, FeeError>)
    ensures r.Ok? <==> baseFee > 0 && multiplier > 0.0
  {
    if baseFee <= 0 then Err(BaseFeeNotPositive)
    else if multiplier <= 0.0 then Err(MultiplierNotPositive)
    else
      var perOp := Ceil(baseFee as real * multiplier);
      Ok(FeeResult(perOp, perOp * (operations + 1), FromMultiplier(multiplier)))
  }

  predicate Enough(fee: int, x: real) {
    fee as real >= x
  }

  /** `c` is the least whole number at or above `x`. */
  ghost predicate LeastAbove(c: int, x: real) {
    Enough(c, x) && forall d: int :: Enough(d, x) ==> c <= d
  }

  /** The sum of `n` equal fees. */
  function Repeated(fee: int, n: nat): int {
    if n == 0 then 0 else Repeated(fee, n - 1) + fee
  }

  /** Each operation, and the fee bump itself, is priced at the least whole fee that is enough. */
  ghost predicate Prices(r: FeeResult, baseFee: int, multiplier: real, operations: nat) {
    && LeastAbove(r.perOpFee, baseFee as real * multiplier) && r.perOpFee > 0
    && r.totalFee == Repeated(r.perOpFee, operations + 1)
    && (r.congestionLevel == Low <==> multiplier < 1.5)
    && (r.congestionLevel == High <==> multiplier >= 3.0)
  }

  lemma CeilIsLeast(x: real)
    ensures LeastAbove(Ceil(x), x)
  {
  }

  lemma {:induction false} RepeatedIs(fee: int, n: nat)
    ensures Repeated(fee, n) == fee * n
  {
    if n == 0 {
    } else {
      RepeatedIs(fee, n - 1);
      assert fee * (n - 1) + fee == fee * n;
    }
  }

  lemma FeeIsLeast(baseFee: int, multiplier: real, operations: nat)
    requires baseFee > 0 && multiplier > 0.0
    ensures Prices(CalculateFee(baseFee, multiplier, operations).value, baseFee, multiplier, operations)
  {
    var x := baseFee as real * multiplier;
    CeilIsLeast(x);
    ScaleBelow(baseFee as real, 0.0, multiplier);
    RepeatedIs(Ceil(x), operations + 1);
  }

  // --------------------------------------------------------------------- core

  /** `FeeConfig::calculate_fee` of the core crate. */
  function CoreFee(operations: nat, baseFee: nat, multiplier: real): int {
    var base := (operations + 1) * baseFee;
    Ceil(base as real * multiplier)
  }

  // --------------------------------------------------------------- comparison

  lemma Times(n: int, b: int, m: real)
    ensures (n * b) as real * m == n as real * (b as real * m)
  {
    assert (n * b) as real == n as real * b as real;
    assert (n as real * b as real) * m == n as real * (b as real * m);
  }

  /** A whole number `total` that exceeds `x` by `gap`. */
  lemma CeilBelow(x: real, total: int, gap: real, n: nat)
    requires total as real == x + gap && 0.0 <= gap < n as real
    ensures Ceil(x) <= total <= Ceil(x) + n - 1
    ensures Ceil(x) == total <==> gap < 1.0
  {
    if gap < 1.0 { CeilUnique(x, total); }
  }

  lemma Spread(n: nat, x: real, c: int)
    ensures (c * n) as real == n as real * x + n as real * (c as real - x)
  {
    assert (c * n) as real == c as real * n as real;
  }

  /**
   `once` is the fee rounded once, `each` the fee rounded for each of `n` operations, which adds
   `lost` to the exact fee.
   */
  predicate Close(once: int, each: int, n: nat, lost: real) {
    once <= each <= once + n - 1 && (once == each <==> lost < 1.0)
  }

  lemma FractionBelow(k: real, d: real)
    requires k >= 1.0 && 0.0 <= d < 1.0
    ensures 0.0 <= k * d < k
  {
    assert k * (1.0 - d) > 0.0;
    assert k * (1.0 - d) == k - k * d;
  }

  lemma CeilOfMultiple(n: nat, x: real, once: int, each: int, lost: real)
    requires n >= 1 && once == Ceil(n as real * x) && each == Ceil(x) * n && lost == n as real * (Ceil(x) as real - x)
    ensures Close(once, each, n, lost)
  {
    Spread(n, x, Ceil(x));
    LostBelow(n, Ceil(x) as real - x, lost);
    CeilBelow(n as real * x, each, lost, n);
  }

  lemma LostBelow(n: nat, d: real, lost: real)
    requires n >= 1 && 0.0 <= d < 1.0 && lost == n as real * d
    ensures 0.0 <= lost < n as real
  {
    FractionBelow(n as real, d);
  }

  lemma ScaleBelow(k: real, x: real, y: real)
    requires k > 0.0 && 0.0 <= x < y
    ensures 0.0 <= k * x < k * y
  {
    assert k * (y - x) > 0.0;
  }

  lemma ScaleUpTo(k: real, x: real, y: real)
    requires k >= 0.0 && x <= y
    ensures k * x <= k * y
  {
    assert k * (y - x) >= 0.0;
  }

  lemma ServerMatchesCore(operations: nat, baseFee: nat, multiplier: real)
    ensures Charged(operations, baseFee, multiplier) == CoreFee(operations, baseFee, multiplier)
  {
  }

  lemma ChargedIs(operations: nat, baseFee: int, multiplier: real, x: real, once: int)
    requires x == baseFee as real * multiplier && once == Charged(operations, baseFee, multiplier)
    ensures once == Ceil((operations + 1) as real * x)
  {
    Times(operations + 1, baseFee, multiplier);
  }

  lemma TotalIs(operations: nat, baseFee: int, multiplier: real, x: real, each: int)
    requires x == baseFee as real * multiplier && baseFee > 0 && multiplier > 0.0
    requires each == CalculateFee(baseFee, multiplier, operations).value.totalFee
    ensures each == Ceil(x) * (operations + 1)
  {
  }

  /** The same comparison, from the fees as they are computed. */
  lemma CompareFees(operations: nat, x: real, once: int, each: int)
    requires once == Ceil((operations + 1) as real * x) && each == Ceil(x) * (operations + 1)
    ensures Close(once, each, operations + 1, RoundingLost(operations, x))
  {
    CeilOfMultiple(operations + 1, x, once, each, RoundingLost(operations, x));
  }

  /**
   The server charges at most the calculator's total, and less than one stroop per operation below
   it; the two agree exactly when the rounding of each operation adds up to less than a stroop.
   */
  lemma ServerBelowCalculator(operations: nat, baseFee: int, multiplier: real, charged: int, total: int, exact: real)
    requires baseFee > 0 && multiplier > 0.0 && exact == baseFee as real * multiplier
    requires charged == Charged(operations, baseFee, multiplier)
    requires total == CalculateFee(baseFee, multiplier, operations).value.totalFee
    ensures Close(charged, total, operations + 1, RoundingLost(operations, exact))
  {
    assert charged == Ceil((operations + 1) as real * exact) by {
      ChargedIs(operations, baseFee, multiplier, exact, charged);
    }
    assert total == Ceil(exact) * (operations + 1) by { TotalIs(operations, baseFee, multiplier, exact, total); }
    CompareFees(operations, exact, charged, total);
  }

  /** What rounding each operation's exact fee up adds in all. */
  function RoundingLost(operations: nat, exact: real): real {
    (operations + 1) as real * (Ceil(exact) as real - exact)
  }

  lemma ExactFeeMonotone(x: int, m: real, y: int, m': real)
    requires 0 < x <= y && 0.0 < m <= m'
    ensures 0.0 < x as real * m <= y as real * m'
  {
    ScaleBelow(x as real, 0.0, m);
    assert x as real * m > 0.0;
    ScaleUpTo(x as real, m, m');
    ScaleUpTo(m', x as real, y as real);
  }

  /** The exact price of `n` operations. */
  lemma ExactPrice(n: nat, b: int, m: real)
    ensures (n * b) as real * m == n as real * b as real * m
  {
    assert (n * b) as real == n as real * b as real;
  }

  /**
   The charge, and the core crate's fee, is the least whole number of stroops that covers the base fee
   times the multiplier for every operation and the fee bump.
   */
  lemma ChargeIsLeast(n: nat, b: int, m: real)
    ensures LeastAbove(Charged(n, b, m), (n + 1) as real * b as real * m)
    ensures b >= 0 ==> LeastAbove(CoreFee(n, b, m), (n + 1) as real * b as real * m)
  {
    ExactPrice(n + 1, b, m);
    CeilIsLeast(((n + 1) * b) as real * m);
  }

  /** The envelope's fee is the charge as often as there are operations, and once more. */
  lemma EnvelopeRepeats(n: nat, b: int, m: real)
    ensures EnvelopeFee(n, b, m) == Repeated(Charged(n, b, m), n + 1)
  {
    RepeatedIs(Charged(n, b, m), n + 1);
  }

  /** More operations, a higher base fee or a higher multiplier never lower the charge. */
  lemma ChargeMonotone(n: nat, b: int, m: real, n': nat, b': int, m': real)
    requires n <= n' && 0 < b <= b' && 0.0 < m <= m'
    ensures 0 < Charged(n, b, m) <= Charged(n', b', m')
  {
    ProductMonotone(n + 1, b, n' + 1, b');
    ExactFeeMonotone((n + 1) * b, m, (n' + 1) * b', m');
    CeilMonotone(((n + 1) * b) as real * m, ((n' + 1) * b') as real * m');
  }

  lemma EnvelopeMonotone(n: nat, b: int, m: real, n': nat, b': int, m': real)
    requires n <= n' && 0 < b <= b' && 0.0 < m <= m'
    ensures 0 < EnvelopeFee(n, b, m) <= EnvelopeFee(n', b', m')
  {
    ChargeMonotone(n, b, m, n', b', m');
    ProductMonotone(Charged(n, b, m), n + 1, Charged(n', b', m'), n' + 1);
  }

  lemma ProductMonotone(a: int, b: int, c: int, d: int)
    requires 0 < a <= c && 0 < b <= d
    ensures 0 < a * b <= c * d
  {
    assert a * b <= c * b <= c * d;
  }

  lemma ChargePositive(n: nat, b: int, m: real)
    requires b > 0 && m > 0.0
    ensures Charged(n, b, m) > 0
  {
    ChargeMonotone(n, b, m, n, b, m);
  }

  lemma GrowsUnlessOne(c: int, k: int)
    requires c > 0 && k >= 1
    ensures c * k == c <==> k == 1
    ensures c * k >= c
  {
    if k > 1 { assert c * k == c + c * (k - 1) && c * (k - 1) > 0; }
  }

  lemma ScaleCompare(c: int, b: int, k: int)
    requires k >= 1
    ensures c * k >= k * b <==> c >= b
  {
    if c < b { assert k * (b - c) > 0; } else { assert k * (c - b) >= 0; }
  }

  /**
   The charge already covers every operation and the fee bump. The envelope multiplies it by their
   number once more, and so agrees with the charge for a transaction without operations only.
   */
  lemma EnvelopeIsCharge(n: nat, b: int, m: real)
    requires b > 0 && m > 0.0
    ensures EnvelopeFee(n, b, m) >= Charged(n, b, m)
    ensures EnvelopeFee(n, b, m) == Charged(n, b, m) <==> n == 0
  {
    ChargePositive(n, b, m);
    GrowsUnlessOne(Charged(n, b, m), n + 1);
  }

  /** A whole bound is reached by rounding up exactly when the number is above the whole number before it. */
  lemma CeilReaches(x: real, b: int)
    ensures Ceil(x) >= b <==> x > (b - 1) as real
  {
  }

  /**
   The envelope pays the base fee for every operation and the fee bump exactly when the exact charge
   exceeds `b - 1`.
   */
  lemma EnvelopePaysBaseFee(n: nat, b: int, m: real)
    requires b > 0 && m > 0.0
    ensures EnvelopeFee(n, b, m) >= (n + 1) * b <==> ((n + 1) * b) as real * m > (b - 1) as real
  {
    ScaleCompare(Charged(n, b, m), b, n + 1);
    CeilReaches(((n + 1) * b) as real * m, b);
  }

  /** A multiplier below 1, which the configuration does not exclude, can leave it short. */
  lemma EnvelopeTooLow()
    ensures EnvelopeFee(1, 100, 0.25) == 100 < (1 + 1) * 100
  {
    assert ((1 + 1) * 100) as real * 0.25 == 50.0;
    CeilUnique(50.0, 50);
  }

  lemma CeilAtLeast(x: int, m: real)
    requires x >= 0 && m >= 1.0
    ensures Ceil(x as real * m) >= x
  {
    ScaleUpTo(x as real, 1.0, m);
    CeilReaches(x as real * m, x);
  }

  /** A multiplier of at least 1 pays that amount `n + 1` times over. */
  lemma EnvelopeOverpays(n: nat, b: int, m: real)
    requires b > 0 && m >= 1.0
    ensures EnvelopeFee(n, b, m) >= (n + 1) * ((n + 1) * b)
  {
    ProductMonotone(n + 1, b, n + 1, b);
    CeilAtLeast((n + 1) * b, m);
    ScaleCompare(Charged(n, b, m), (n + 1) * b, n + 1);
  }
}
