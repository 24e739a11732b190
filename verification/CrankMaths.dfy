/** Conversion between crank angle and time at the current revolution time. */
module CrankMaths {
  import opened Machine
  import opened FixedPoint

  const MICROS_PER_MIN: uint32 := 60_000_000
  const MAX_RPM: uint16 := 18_000
  const MICROS_PER_DEG_1_RPM: uint32 := (MICROS_PER_MIN + 180) / 360
  const MIN_RPM: uint16 := (MICROS_PER_DEG_1_RPM + (0xFFFF / 16 + 1)) / (0xFFFF / 16)
  const MIN_REVOLUTION_TIME: uint32 := MICROS_PER_MIN / MAX_RPM
  const MAX_REVOLUTION_TIME: uint32 := MICROS_PER_MIN / MIN_RPM

  /** Microseconds per degree in 1/256ths. */
  function MicrosPerDegree(revolution: uint32): uint32 { Div360((revolution * 256) % TWO32) }

  /** Degrees per microsecond in 1/32768ths. */
  function DegreesPerMicro(revolution: uint32): uint16
    requires revolution > 0
  {
    DivClosest(360 * 32768, revolution) % TWO16
  }

  function AngleToTime(microsPerDegree: uint32, angle: uint16): uint32 {
    RoundShift(128, Product32(angle, microsPerDegree))
  }

  function TimeToAngle(degreesPerMicro: uint16, time: uint32): uint16 {
    RoundShift(16384, Product32(time, degreesPerMicro)) % TWO16
  }

  /** The revolution times between the highest and the lowest supported RPM. */
  predicate InRange(revolution: int) { 3333 <= revolution <= 1_463_414 }

  lemma LimitTimes()
    ensures MIN_REVOLUTION_TIME == 3333 && MAX_REVOLUTION_TIME == 1_463_414
  {
    assert MICROS_PER_DEG_1_RPM == 166_667 && MIN_RPM == 41;
  }

  lemma RangeLimits(revolution: int)
    ensures InRange(revolution) <==> MIN_REVOLUTION_TIME <= revolution <= MAX_REVOLUTION_TIME
  {
    LimitTimes();
  }

  lemma FastestDegrees()
    ensures DegreesPerMicro(3333) == 3539
  {
  }

  lemma SlowestDegrees()
    ensures DegreesPerMicro(1_463_414) == 8
  {
  }

  /** The degrees per microsecond at the two ends of the range of speeds. */
  lemma DegreesAtTheLimits(fastest: uint32, slowest: uint32)
    requires fastest == MIN_REVOLUTION_TIME && slowest == MAX_REVOLUTION_TIME
    ensures DegreesPerMicro(fastest) == 3539 && DegreesPerMicro(slowest) == 8
  {
    LimitTimes();
    FastestDegrees();
    SlowestDegrees();
  }

  class AngleConverter {
    var microsPerDegree: uint32
    var degreesPerMicro: uint16

    constructor (revolution: uint32)
      requires revolution > 0
      ensures microsPerDegree == MicrosPerDegree(revolution) && degreesPerMicro == DegreesPerMicro(revolution)
    {
      microsPerDegree := MicrosPerDegree(revolution);
      degreesPerMicro := DegreesPerMicro(revolution);
    }

    method SetRevolutionTime(revolution: uint32)
      requires revolution > 0
      modifies this
      ensures microsPerDegree == MicrosPerDegree(revolution) && degreesPerMicro == DegreesPerMicro(revolution)
    {
      microsPerDegree := Div360((revolution * 256) % TWO32);
      degreesPerMicro := DivClosest(360 * 32768, revolution) % TWO16;
    }

    /** The time the crank takes to turn through `angle`, to within angle/512 + 1/2 microseconds. */
    method Time(angle: uint16, ghost revolution: uint32) returns (time: uint32)
      requires InRange(revolution) && angle <= 720
      requires microsPerDegree == MicrosPerDegree(revolution)
      ensures TimeNear(revolution, angle, time)
    {
      time := RoundShift(128, Product32(angle, microsPerDegree));
      AngleToTimeBound(revolution, angle);
    }

    /** The angle the crank turns through in `time`, to within time/65536 + 1/2 degrees. */
    method Angle(time: uint32, ghost revolution: uint32) returns (angle: uint16)
      requires InRange(revolution) && time <= 2 * revolution
      requires degreesPerMicro == DegreesPerMicro(revolution)
      ensures AngleNear(revolution, time, angle)
    {
      angle := RoundShift(16384, Product32(time, degreesPerMicro)) % TWO16;
      TimeToAngleBound(revolution, time);
    }
  }

  // ------------------------------------------------------------------ the two factors

  lemma MicrosPerDegreeIsNear(revolution: uint32)
    requires InRange(revolution)
    ensures -180 <= 360 * MicrosPerDegree(revolution) - 256 * revolution <= 180
    ensures MicrosPerDegree(revolution) <= 1_040_651
  {
    var scaled := revolution * 256 + 180;
    assert MicrosPerDegree(revolution) == scaled / 360;
    assert scaled == 360 * (scaled / 360) + scaled % 360;
  }

  lemma QuotientIsNear(n: int, d: int)
    requires d > 0
    ensures -d <= 2 * (d * ((n + d / 2) / d) - n) <= d
  {
    var sum := n + d / 2;
    assert sum == d * (sum / d) + sum % d;
  }

  /** A bound on the degrees per microsecond, from the product with the revolution time. */
  lemma FactorBound(revolution: int, degrees: int)
    requires revolution >= 3333 && revolution * degrees <= 360 * 32768 + revolution
    ensures degrees <= 3541
  {
    if degrees >= 3542 {
      ScaleMonotone(revolution, 3542, degrees);
    }
  }

  lemma DegreesPerMicroIsNear(revolution: int)
    requires InRange(revolution)
    ensures -revolution <= 2 * (revolution * DegreesPerMicro(revolution) - 360 * 32768) <= revolution
  {
    var n := 360 * 32768;
    var q := (n + revolution / 2) / revolution;
    QuotientIsNear(n, revolution);
    FactorBound(revolution, q);
    QuotientNotNegative(n + revolution / 2, revolution);
    assert DegreesPerMicro(revolution) == q;
  }

  lemma QuotientNotNegative(n: int, d: int)
    requires n >= 0 && d > 0
    ensures n / d >= 0
  {
  }

  // ------------------------------------------------------------------ angle to time

  /** |time - angle * revolution / 360| <= angle / 512 + 1/2, with the denominators cleared. */
  predicate TimeNear(revolution: int, angle: int, time: int) {
    -(180 * angle + 46080) <= 92160 * time - 256 * (angle * revolution) <= 180 * angle + 46080
  }

  lemma TimeFromParts(revolution: int, angle: nat, micros: int, time: int)
    requires -180 <= 360 * micros - 256 * revolution <= 180
    requires -256 <= 2 * (256 * time - angle * micros) <= 256
    ensures TimeNear(revolution, angle, time)
  {
    ScaleBound(angle, 360 * micros - 256 * revolution, 180);
    Distribute(angle, 360, micros, 256, revolution);
  }

  lemma ProductBound(a: nat, b: nat, aMax: nat, bMax: nat)
    requires a <= aMax && b <= bMax
    ensures a * b <= aMax * bMax
  {
    assert a * b <= aMax * b;
  }

  /** No 32-bit overflow, and the time is near the true one. */
  lemma AngleToTimeBound(revolution: uint32, angle: uint16)
    requires InRange(revolution) && angle <= 720
    ensures angle * MicrosPerDegree(revolution) + 128 < TWO32
    ensures TimeNear(revolution, angle, AngleToTime(MicrosPerDegree(revolution), angle))
  {
    var m := MicrosPerDegree(revolution);
    MicrosPerDegreeIsNear(revolution);
    ProductBound(angle, m, 720, 1_040_651);
    ShiftedProduct(256, angle, m);
    TimeFromParts(revolution, angle, m, AngleToTime(m, angle));
  }

  /** A product that fits, shifted with rounding. */
  lemma ShiftedProduct(one: int, a: uint32, b: uint32)
    requires one >= 2 && one % 2 == 0 && a * b + one / 2 < TWO32
    ensures -one <= 2 * (one * RoundShift(one / 2, Product32(a, b)) - a * b) <= one
  {
    ProductFits(a, b);
    ShiftIsNear(one, a * b);
  }

  // ------------------------------------------------------------------ time to angle

  /** |angle - 360 * time / revolution| <= time / 65536 + 1/2, with the denominators cleared. */
  predicate AngleNear(revolution: int, time: int, angle: int) {
    var error := 65536 * (revolution * angle) - 720 * 32768 * time;
    -(time * revolution + 32768 * revolution) <= error <= time * revolution + 32768 * revolution
  }

  lemma ReorderFactors(time: int, revolution: int, degrees: int)
    ensures time * (revolution * degrees) == revolution * (time * degrees)
  {
  }

  lemma AngleFromParts(revolution: nat, time: nat, degrees: int, angle: int)
    requires -(revolution as int) <= 2 * (revolution * degrees - 360 * 32768) <= revolution
    requires -32768 <= 2 * (32768 * angle - time * degrees) <= 32768
    ensures AngleNear(revolution, time, angle)
  {
    ScaleBound(time, 2 * (revolution * degrees) - 720 * 32768, revolution);
    ScaleBound(revolution, 32768 * angle - time * degrees, 16384);
    Distribute(time, 2, revolution * degrees, 720 * 32768, 1);
    Distribute(revolution, 32768, angle, 1, time * degrees);
    ReorderFactors(time, revolution, degrees);
  }

  /** Up to two revolutions fit into 32 bits. */
  lemma TwoRevolutionsFit(revolution: int, time: nat, degrees: nat)
    requires InRange(revolution) && time <= 2 * revolution
    requires 2 * (revolution * degrees - 360 * 32768) <= revolution
    ensures time * degrees <= 1440 * 32768 + revolution
  {
    assert time * degrees <= (2 * revolution) * degrees;
    assert (2 * revolution) * degrees == 2 * (revolution * degrees);
  }

  /** The angle of two revolutions fits into 16 bits. */
  lemma AngleFits(product: uint32)
    requires product + 16384 < 0x7FFF_FFFF
    ensures 0 <= RoundShift(16384, product) < TWO16
  {
  }

  lemma TimeToAngleShifts(time: uint32, degrees: uint16, product: uint32)
    requires product == time * degrees && product + 16384 < 0x7FFF_FFFF
    ensures -32768 <= 2 * (32768 * TimeToAngle(degrees, time) - product) <= 32768
  {
    ShiftIsNear(32768, product);
    TimeToAngleIsUncut(time, degrees, product);
  }

  lemma TimeToAngleIsUncut(time: uint32, degrees: uint16, product: uint32)
    requires product == time * degrees && product + 16384 < 0x7FFF_FFFF
    ensures TimeToAngle(degrees, time) == RoundShift(16384, product)
  {
    ProductFits(time, degrees);
    AngleFits(product);
  }

  lemma TimeToAngleNear(revolution: int, time: uint32, degrees: uint16)
    requires InRange(revolution) && time <= 2 * revolution
    requires -revolution <= 2 * (revolution * degrees - 360 * 32768) <= revolution
    ensures time * degrees + 16384 < 0x7FFF_FFFF
    ensures AngleNear(revolution, time, TimeToAngle(degrees, time))
  {
    TwoRevolutionsFit(revolution, time, degrees);
    TimeToAngleShifts(time, degrees, time * degrees);
    AngleFromParts(revolution, time, degrees, TimeToAngle(degrees, time));
  }

  /** For up to two revolutions: no overflow, and the angle is near the true one. */
  lemma TimeToAngleBound(revolution: uint32, time: uint32)
    requires InRange(revolution) && time <= 2 * revolution
    ensures time * DegreesPerMicro(revolution) + 16384 < TWO32
    ensures AngleNear(revolution, time, TimeToAngle(DegreesPerMicro(revolution), time))
  {
    DegreesPerMicroIsNear(revolution);
    TimeToAngleNear(revolution, time, DegreesPerMicro(revolution));
  }

  // ------------------------------------------------------------------ round trip

  /** A time as long as `time` needs a slow crank. */
  lemma RevolutionIsLong(revolution: int, angle: nat, time: nat)
    requires InRange(revolution) && angle <= 720 && TimeNear(revolution, angle, time)
    ensures time <= 2 * revolution + 2
  {
    ProductBound(angle, revolution, 720, revolution);
  }

  /** A concave quadratic on an interval, through its value at the ends. */
  lemma Quadratic(s: int)
    requires 3768 <= s <= 16384
    ensures s * (32766 - s) >= 109_264_464
  {
    ScaleMonotone(s - 3768, 0, 16384 - s);
    Distribute(s - 3768, 1, 16384, 1, s);
    Distribute(s, 1, s, 1, 3768);
    Distribute(s, 1, 32766, 1, s);
  }

  lemma SlackIsEnough(slack: int, revolution: int)
    requires revolution >= 3333 && 3768 <= slack <= 32768
    requires 32768 - slack <= 2 * revolution + 2
    ensures slack * revolution > 44_974_080
  {
    if slack >= 16384 {
      ProductBound(16384, 3333, slack, revolution);
    } else {
      Quadratic(slack);
      ScaleMonotone(slack, 32766 - slack, 2 * revolution);
    }
  }

  /** The accumulated error stays below half a degree. */
  lemma ErrorBelowHalf(revolution: int, angle: nat, time: nat)
    requires InRange(revolution) && angle <= 720 && TimeNear(revolution, angle, time) && time <= 29000
    ensures time * revolution + 256 * (180 * angle + 46080) < 32768 * revolution
  {
    RevolutionIsLong(revolution, angle, time);
    SlackIsEnough(32768 - time, revolution);
    Distribute(revolution, 1, 32768, 1, time);
  }

  lemma RoundsBack(revolution: int, angle: nat, time: nat, degrees: int)
    requires revolution > 0
    requires -revolution <= 2 * (revolution * degrees - 360 * 32768) <= revolution
    requires TimeNear(revolution, angle, time)
    requires time * revolution + 256 * (180 * angle + 46080) < 32768 * revolution
    ensures -16384 < time * degrees - 32768 * angle < 16384
  {
    ScaleBound(time, 2 * (revolution * degrees) - 720 * 32768, revolution);
    Distribute(time, 2, revolution * degrees, 720 * 32768, 1);
    ReorderFactors(time, revolution, degrees);
    Distribute(revolution, 1, time * degrees, 32768, angle);
    CancelBound(revolution, time * degrees - 32768 * angle, 16384);
  }

  lemma TimeToAngleIs(degrees: uint16, time: uint32, angle: uint16)
    requires -16384 < time * degrees - 32768 * angle < 16384 && angle <= 720
    ensures TimeToAngle(degrees, time) == angle
  {
    var product := time * degrees;
    ProductFits(time, degrees);
    assert (product + 16384) / 32768 == angle;
  }

  /**
    Converting an angle to a time and back gives the same angle, for all speeds and all angles whose
    time is at most 29000 microseconds.
  */
  lemma RoundTrip(revolution: uint32, angle: uint16)
    requires InRange(revolution) && angle <= 720
    requires AngleToTime(MicrosPerDegree(revolution), angle) <= 29000
    ensures TimeToAngle(DegreesPerMicro(revolution), AngleToTime(MicrosPerDegree(revolution), angle)) == angle
  {
    var time := AngleToTime(MicrosPerDegree(revolution), angle);
    var degrees := DegreesPerMicro(revolution);
    AngleToTimeBound(revolution, angle);
    DegreesPerMicroIsNear(revolution);
    ErrorBelowHalf(revolution, angle, time);
    RoundsBack(revolution, angle, time, degrees);
    TimeToAngleIs(degrees, time, angle);
  }

  /** Some bound on the time is needed: 716 degrees come back as 717 from 30531 microseconds. */
  lemma LongTimesDoNotRoundTrip()
    ensures AngleToTime(MicrosPerDegree(15350), 716) == 30531
    ensures TimeToAngle(DegreesPerMicro(15350), 30531) == 717
  {
    assert MicrosPerDegree(15350) == 10916;
    assert DegreesPerMicro(15350) == 769;
  }

  // ------------------------------------------------------------------ injector angles

  /** The remainder is the one number of the range that is whole turns away. */
  lemma RemainderIs(angle: int, max: int, turns: int, r: int)
    requires 0 <= r < max && angle == r + turns * max
    ensures r == angle % max
  {
    var q := angle / max;
    assert angle == max * q + angle % max;
    if turns > q {
      ScaleMonotone(max, q + 1, turns);
    } else if turns < q {
      ScaleMonotone(max, turns + 1, q);
    }
  }

  /** An angle of the injection cycle: whole cycles are taken off until it is below `max`. */
  method InjectorLimits(angle: uint16, max: uint16) returns (r: uint16)
    requires max > 0
    ensures r == angle % max
  {
    r := angle;
    ghost var turns := 0;
    while r >= max
      invariant angle == r + turns * max
    {
      r := r - max;
      turns := turns + 1;
    }
    RemainderIs(angle, max, turns, r);
  }

  /** A negative angle first has whole cycles added; `max` fits a signed 16-bit number. */
  method SignedInjectorLimits(angle: int, max: uint16) returns (r: uint16)
    requires -0x8000 <= angle < 0x8000 && 0 < max < 0x8000
    ensures r == angle % max
  {
    var a := angle;
    ghost var turns := 0;
    while a < 0
      invariant a < 0x8000 && angle == a + turns * max
      decreases -a
    {
      a := a + max;
      turns := turns - 1;
    }
    r := InjectorLimits(a, max);
    assert a == max * (a / max) + r;
    RemainderIs(angle, max, turns + a / max, r);
  }
}
