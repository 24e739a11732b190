/** Rounded division and approximate percentages in 16- and 32-bit unsigned arithmetic. */
module FixedPoint {
  import opened Machine

  lemma QuotientIsSmaller(n: nat, d: nat)
    requires d > 0
    ensures 0 <= n / d <= n
  {
    var q := n / d;
    assert n == d * q + n % d;
    if q > n {
      ScaleMonotone(d, n + 1, q);
      ScaleMonotone(n + 1, 1, d);
    } else if q < 0 {
      ScaleMonotone(d, q, -1);
    }
  }

  /** Shift right with rounding; `half` is half of the power of two divided by. */
  function RoundShift(half: nat, a: uint32): uint32
    requires half > 0
  {
    QuotientIsSmaller((a + half) % TWO32, 2 * half);
    (a + half) % TWO32 / (2 * half)
  }

  /** Unsigned division to the nearest integer; the rounding term may wrap. */
  function Div100(n: uint16): uint16 { (n + 50) % TWO16 / 100 }

  function Div360(n: uint32): uint32 { (n + 180) % TWO32 / 360 }

  function DivClosest(n: uint32, d: uint32): uint32
    requires d > 0
  {
    (n + d / 2) % TWO32 / d
  }

  function Product32(a: uint32, b: uint32): uint32 { (a * b) % TWO32 }

  /** An error scaled by `k` is bounded by the bound scaled by `k`. */
  lemma ScaleBound(k: nat, e: int, bound: nat)
    requires -(bound as int) <= e <= bound
    ensures -(k * bound) <= k * e <= k * bound
  {
  }

  lemma Distribute(k: int, a: int, x: int, b: int, y: int)
    ensures k * (a * x - b * y) == a * (k * x) - b * (k * y)
  {
    assert k * (a * x) == a * (k * x);
    assert k * (b * y) == b * (k * y);
    assert k * (a * x - b * y) == k * (a * x) - k * (b * y);
  }

  lemma ScaleMonotone(k: int, a: int, b: int)
    requires k >= 0 && a <= b
    ensures k * a <= k * b
  {
  }

  /** Division by 360 rounds to the nearest quotient. */
  lemma Div360IsNear(n: uint32)
    requires n + 180 < TWO32
    ensures -180 <= 360 * Div360(n) - n <= 180
  {
    var q := (n + 180) / 360;
    assert n + 180 == 360 * q + (n + 180) % 360;
  }

  /** Dividing by a positive factor. */
  lemma CancelBound(k: int, e: int, bound: int)
    requires k > 0 && -(k * bound) < k * e < k * bound
    ensures -bound < e < bound
  {
    if e >= bound {
      ScaleMonotone(k, bound, e);
    } else if e <= -bound {
      ScaleMonotone(k, e, -bound);
    }
  }

  /** A product that fits is not wrapped. */
  lemma ProductFits(a: uint32, b: uint32)
    requires a * b < TWO32
    ensures Product32(a, b) == a * b
  {
    ScaleMonotone(a, 0, b);
    Unwrapped(a * b);
  }

  lemma Unwrapped(n: int)
    requires 0 <= n < TWO32
    ensures n % TWO32 == n
  {
  }

  // ------------------------------------------------------------------ percentages

  /** The number of steps in 100% of the fixed-point percentage: the smaller the percentage, the finer. */
  function Precision(percent: uint16): nat {
    if percent < 128 then 512 else if percent < 256 then 256 else if percent < 512 then 128
    else if percent < 1024 then 64 else 32
  }

  function FixedPercent(one: nat, percent: uint16): uint16 { Div100((percent * one) % TWO16) }

  function PercentageAt(one: nat, percent: uint16, value: uint32): uint32
    requires one >= 2 && one % 2 == 0
  {
    RoundShift(one / 2, Product32(value, FixedPercent(one, percent)))
  }

  function PercentageApprox(percent: uint16, value: uint32): uint32 {
    PercentageAt(Precision(percent), percent, value)
  }

  /** No 32-bit overflow in the multiplication and its rounding term. */
  predicate Fits(percent: uint16, value: uint32) {
    value * FixedPercent(Precision(percent), percent) + Precision(percent) / 2 < TWO32
  }

  /** Within value / (2 one) + 1/2 of percent * value / 100, with the denominators cleared. */
  predicate NearPercentage(one: nat, percent: nat, value: nat, result: nat) {
    -50 * (value + one) <= 100 * (one * result) - value * (percent * one) <= 50 * (value + one)
  }

  /** The precision chosen is the finest of 32, 64, 128, 256 and 512 that leaves the percentage within 16 bits. */
  lemma PrecisionIsFinest(percent: uint16)
    requires percent <= 2046
    ensures Precision(percent) in {32, 64, 128, 256, 512}
    ensures percent * Precision(percent) < TWO16
    ensures Precision(percent) < 512 ==> percent * (2 * Precision(percent)) >= TWO16
  {
  }

  lemma Div100IsNear(n: uint16)
    requires n + 50 < TWO16
    ensures n - 50 <= 100 * Div100(n) <= n + 50
  {
  }

  lemma FixedPercentIsNear(percent: uint16)
    requires percent <= 2046
    ensures var one := Precision(percent);
      -50 <= 100 * FixedPercent(one, percent) - percent * one <= 50
  {
    var scaled := percent * Precision(percent);
    assert 0 <= scaled <= 65472;
    Div100IsNear(scaled);
  }

  lemma ShiftIsNear(one: int, product: nat)
    requires one >= 2 && one % 2 == 0 && product + one / 2 < TWO32
    ensures -one <= 2 * (one * RoundShift(one / 2, product) - product) <= one
  {
    var sum := product + one / 2;
    assert sum == one * (sum / one) + sum % one;
  }

  lemma NearFromParts(one: int, percent: nat, value: nat, fixed: nat, result: nat)
    requires one >= 2 && -50 <= 100 * fixed - percent * one <= 50
    requires -one <= 2 * (one * result - value * fixed) <= one
    ensures NearPercentage(one, percent, value, result)
  {
    var scaled := percent * one;
    ScaleBound(value, 100 * fixed - scaled, 50);
    Distribute(value, 100, fixed, 1, scaled);
  }

  lemma PercentageIsRounded(one: int, fixed: uint16, value: uint32)
    requires one >= 2 && one % 2 == 0 && value * fixed + one / 2 < TWO32
    ensures -one <= 2 * (one * RoundShift(one / 2, Product32(value, fixed)) - value * fixed) <= one
  {
    ProductFits(value, fixed);
    ShiftIsNear(one, value * fixed);
  }

  lemma PercentageBound(percent: uint16, value: uint32)
    requires percent <= 2046 && Fits(percent, value)
    ensures NearPercentage(Precision(percent), percent, value, PercentageApprox(percent, value))
  {
    var one := Precision(percent);
    var fixed := FixedPercent(one, percent);
    FixedPercentIsNear(percent);
    PercentageIsRounded(one, fixed, value);
    NearFromParts(one, percent, value, fixed, RoundShift(one / 2, Product32(value, fixed)));
  }

  lemma LargeFixedPercent(percent: uint16)
    requires percent > 2046
    ensures 100 * FixedPercent(32, percent) <= percent * 32 - 65450 && FixedPercent(32, percent) <= 655
  {
    var scaled := (percent * 32) % TWO16;
    if percent == 2047 {
      assert scaled == 65504;
    } else {
      assert scaled <= percent * 32 - TWO16;
    }
  }

  lemma TooLittle(percent: int, value: int, fixed: int, result: nat)
    requires value >= 1 && percent >= 0 && 100 * fixed <= percent * 32 - 65450 && 32 * result <= value * fixed + 16
    ensures 100 * (32 * result) < value * (percent * 32) - 50 * (value + 32)
  {
    ScaleMonotone(value, 100 * fixed, percent * 32 - 65450);
    Distribute(value, 100, fixed, 0, 0);
    Distribute(value, 1, percent * 32, 65450, 1);
  }

  /** From 2047 on, where the 16-bit terms wrap, every value but zero is missed; up to 2046, none is. */
  lemma PercentageBoundAtIff(percent: uint16, value: uint32)
    requires value >= 1 && Fits(percent, value)
    ensures NearPercentage(Precision(percent), percent, value, PercentageApprox(percent, value)) <==> percent <= 2046
  {
    if percent <= 2046 {
      PercentageBound(percent, value);
    } else {
      LargeFixedPercent(percent);
      PercentageIsRounded(32, FixedPercent(32, percent), value);
      TooLittle(percent, value, FixedPercent(32, percent), PercentageApprox(percent, value));
    }
  }

  lemma OneFits(percent: uint16)
    requires percent > 2046
    ensures Fits(percent, 1)
  {
    LargeFixedPercent(percent);
  }

  /** The bound holds for every value that fits exactly for percentages up to 2046. */
  lemma PercentageBoundIff(percent: uint16)
    ensures (forall value: uint32 | Fits(percent, value) ::
               NearPercentage(Precision(percent), percent, value, PercentageApprox(percent, value)))
            <==> percent <= 2046
  {
    if percent <= 2046 {
      forall value: uint32 | Fits(percent, value)
        ensures NearPercentage(Precision(percent), percent, value, PercentageApprox(percent, value))
      {
        PercentageBound(percent, value);
      }
    } else {
      OneFits(percent);
      PercentageBoundAtIff(percent, 1);
    }
  }

  /** At 100% the result is the value itself, exactly while the value is below 2^23. */
  lemma HundredPercentIsExactIff(value: uint32)
    ensures PercentageApprox(100, value) == value <==> value < 0x80_0000
  {
    assert FixedPercent(512, 100) == 512;
  }

  /** Combining a correction skips the arithmetic at 100%. */
  function CombineCorrections(sum: uint32, correction: uint16): uint32 {
    if correction == 100 then sum else PercentageApprox(correction, sum)
  }

  /** The shortcut gives what the full calculation would give, exactly for sums below 2^23 or other corrections. */
  lemma ShortcutIsFullCalculationIff(sum: uint32, correction: uint16)
    ensures CombineCorrections(sum, correction) == PercentageApprox(correction, sum) <==>
            correction != 100 || sum < 0x80_0000
  {
    HundredPercentIsExactIff(sum);
  }
}
