/** Splitting one pulse width between primary and secondary injectors of different size. */
module StagedInjection {
  import opened Machine
  import opened FixedPoint

  datatype PulseWidths = PulseWidths(primary: uint16, secondary: uint16)

  /** The flow of the two injector sets. */
  datatype Sizes = Sizes(primary: uint16, secondary: uint16)
  {
    predicate Valid() { primary > 0 && secondary > 0 && primary + secondary < TWO16 }

    function Sum(): int { primary + secondary }
  }

  datatype StagingMode = Table | Auto

  /** Staging as configured; it needs injector channels for all the cylinders, or a throttle body. */
  datatype Staging = Staging(enabled: bool, enoughChannels: bool, mode: StagingMode)
  {
    predicate Applies() { enabled && enoughChannels }
  }

  function Saturate(n: uint32): uint16 { if n < 0xFFFF then n else 0xFFFF }

  /** The opening time is added on again, in 32 bits, and the result is cut to 16. */
  function WithOpening(pulse: uint32, openTime: uint16): uint16 { Saturate((pulse + openTime) % TWO32) }

  lemma UncutOpening(pulse: uint32, openTime: uint16)
    requires pulse + openTime < TWO32
    ensures WithOpening(pulse, openTime) == Saturate(pulse + openTime)
  {
  }

  lemma Division(n: nat, d: nat)
    requires d > 0
    ensures (n / d) * d <= n < (n / d) * d + d
  {
    assert n == d * (n / d) + n % d;
  }

  /** The pulse that delivers `total` from injectors of the given size. */
  function Share(total: uint32, size: uint16): uint32
    requires size > 0
  {
    QuotientIsSmaller(total, size);
    total / size
  }

  /** The fuel asked for: pulse width without the opening time, times the total flow. */
  function TotalStagePw(pw: uint16, openTime: uint16, sizes: Sizes): uint32
    requires sizes.Valid()
  {
    Product32((pw - openTime) % TWO16, sizes.Sum())
  }

  function TableShare(percent: uint16, full: uint32, openTime: uint16): uint16 {
    WithOpening(PercentageApprox(percent, full), openTime)
  }

  function PrimaryPercent(split: uint8): uint8 { (100 - split) % TWO8 }

  lemma PrimaryPercentIsRest(split: uint8)
    requires split <= 100
    ensures PrimaryPercent(split) == 100 - split
  {
  }

  /** Both shares of a split, from what each set would need to deliver everything. */
  function SplitPulses(split: uint8, primary: uint32, secondary: uint32, openTime: uint16): PulseWidths {
    PulseWidths(TableShare(PrimaryPercent(split), primary, openTime), TableShare(split, secondary, openTime))
  }

  function StageTable(pw: uint16, openTime: uint16, sizes: Sizes, split: uint8): PulseWidths
    requires sizes.Valid()
  {
    var total := TotalStagePw(pw, openTime, sizes);
    if split == 0 then PulseWidths(WithOpening(Share(total, sizes.primary), openTime), 0)
    else SplitPulses(split, Share(total, sizes.primary), Share(total, sizes.secondary), openTime)
  }

  /** Automatic mode, from what the primaries would need to deliver everything. */
  function AutoPulses(primary: uint32, limit: uint16, openTime: uint16, sizes: Sizes): PulseWidths
    requires sizes.Valid()
  {
    if primary > limit then
      var extra := (primary - limit + openTime) % TWO32;
      PulseWidths(limit, WithOpening(Share(Product32(extra, sizes.primary), sizes.secondary), openTime))
    else PulseWidths(WithOpening(primary, openTime), 0)
  }

  function StageAuto(pw: uint16, limit: uint16, openTime: uint16, sizes: Sizes): PulseWidths
    requires sizes.Valid()
  {
    AutoPulses(Share(TotalStagePw(pw, openTime, sizes), sizes.primary), limit, openTime, sizes)
  }

  function SecondaryPw(
      staging: Staging, pw: uint16, limit: uint16, openTime: uint16, sizes: Sizes, split: uint8): PulseWidths
    requires sizes.Valid()
  {
    if !staging.Applies() || pw == 0 then PulseWidths(pw, 0)
    else match staging.mode
      case Table => StageTable(pw, openTime, sizes, split)
      case Auto => StageAuto(pw, limit, openTime, sizes)
  }

  /** The pulse for both sets together: fuel, opening time and enrichment, cut to 16 bits. */
  function PrimaryPw(fuel: uint32, enrichment: uint32, openTime: uint16): uint16 {
    Saturate((fuel + openTime + enrichment) % TWO32)
  }

  /** Without staging configured, the pulse is limited once the engine runs. */
  function LimitedPw(pw: uint16, limit: uint16, cranking: bool, staging: Staging): uint16 {
    if !cranking && !staging.enabled && limit < pw then limit else pw
  }

  /** The fuel that all corrections leave, and the state of the engine that bears on the pulses. */
  datatype Demand = Demand(corrections: uint16, fuel: uint32, enrichment: uint32, cranking: bool)

  /** The pulse widths; none at all when fuel is cut off. */
  function ComputePulseWidths(
      demand: Demand, staging: Staging, limit: uint16, openTime: uint16, sizes: Sizes, split: uint8): PulseWidths
    requires sizes.Valid()
  {
    if demand.corrections == 0 then PulseWidths(0, 0)
    else
      var pw := PrimaryPw(demand.fuel, demand.enrichment, openTime);
      SecondaryPw(staging, LimitedPw(pw, limit, demand.cranking, staging), limit, openTime, sizes, split)
  }

  // ------------------------------------------------------------------ what is asked for and what is delivered

  /** The fuel a set delivers in a pulse: nothing flows in the opening time, and no pulse delivers nothing. */
  function Delivered(pw: int, openTime: int, size: int): int {
    if pw == 0 then 0 else (pw - openTime) * size
  }

  function Requested(pw: uint16, openTime: uint16, sizes: Sizes): int {
    (pw - openTime) * sizes.Sum()
  }

  function Shortfall(pw: uint16, openTime: uint16, sizes: Sizes, r: PulseWidths): int {
    Requested(pw, openTime, sizes)
    - Delivered(r.primary, openTime, sizes.primary) - Delivered(r.secondary, openTime, sizes.secondary)
  }

  /** What is asked for includes the opening time, and the total fits into 32 bits. */
  predicate InputsFit(pw: uint16, openTime: uint16, sizes: Sizes) {
    sizes.Valid() && openTime <= pw && Requested(pw, openTime, sizes) < TWO32
  }

  lemma TotalIsRequested(pw: uint16, openTime: uint16, sizes: Sizes)
    requires InputsFit(pw, openTime, sizes)
    ensures TotalStagePw(pw, openTime, sizes) == Requested(pw, openTime, sizes)
  {
    assert (pw - openTime) % TWO16 == pw - openTime;
    ProductFits(pw - openTime, sizes.Sum());
  }

  // ------------------------------------------------------------------ automatic mode

  /** What the primaries would need, and what is passed on when that is over their limit. */
  function Wanted(pw: uint16, openTime: uint16, sizes: Sizes): uint32
    requires sizes.Valid()
  {
    Share(TotalStagePw(pw, openTime, sizes), sizes.primary)
  }

  function Extra(primary: uint32, limit: uint16, openTime: uint16): int { primary - limit + openTime }

  /** The secondary pulse before it is cut to 16 bits. */
  function UncutSecondary(primary: uint32, limit: uint16, openTime: uint16, sizes: Sizes): int
    requires sizes.Valid()
  {
    Extra(primary, limit, openTime) * sizes.primary / sizes.secondary + openTime
  }

  /** The extra duty, times the primary size, fits into 32 bits. */
  predicate ExtraFits(primary: uint32, limit: uint16, openTime: uint16, sizes: Sizes)
    requires sizes.Valid()
  {
    && 0 <= Extra(primary, limit, openTime) < TWO32
    && Extra(primary, limit, openTime) * sizes.primary < TWO32
    && UncutSecondary(primary, limit, openTime, sizes) < TWO32
  }

  /** Passing the extra duty on to the secondaries loses less than one unit of pulse on each set. */
  lemma AutoBalance(total: nat, primary: nat, limit: nat, openTime: nat, p: nat, s: nat, flow: int)
    requires p > 0 && s > 0 && openTime <= limit < primary && primary == total / p
    requires flow == (primary - limit + openTime) * p / s
    ensures 0 <= total - (limit - openTime) * p - flow * s < p + s
  {
    var extra := primary - limit + openTime;
    Division(total, p);
    ScaleMonotone(p, 0, extra);
    Division(extra * p, s);
    assert primary * p == extra * p + (limit - openTime) * p;
  }

  lemma ExtraIsPassedOn(extra: uint32, primary: uint16, secondary: uint16)
    requires secondary > 0 && extra * primary < TWO32
    ensures Share(Product32(extra, primary), secondary) == extra * primary / secondary
  {
    ProductFits(extra, primary);
  }

  lemma AutoSecondary(primary: uint32, limit: uint16, openTime: uint16, sizes: Sizes)
    requires sizes.Valid() && primary > limit && ExtraFits(primary, limit, openTime, sizes)
    ensures var uncut := UncutSecondary(primary, limit, openTime, sizes);
      uncut >= openTime && AutoPulses(primary, limit, openTime, sizes) == PulseWidths(limit, Saturate(uncut))
  {
    var extra := Extra(primary, limit, openTime);
    Unwrapped(extra);
    ExtraIsPassedOn(extra, sizes.primary, sizes.secondary);
    UncutOpening(Share(Product32(extra, sizes.primary), sizes.secondary), openTime);
  }

  /** Above the limit, nothing is lost but rounding, and what a saturated secondary pulse cannot hold. */
  lemma AutoConservesFlow(pw: uint16, limit: uint16, openTime: uint16, sizes: Sizes)
    requires InputsFit(pw, openTime, sizes) && Wanted(pw, openTime, sizes) > limit >= openTime
    requires ExtraFits(Wanted(pw, openTime, sizes), limit, openTime, sizes)
    ensures var r := StageAuto(pw, limit, openTime, sizes);
      var uncut := UncutSecondary(Wanted(pw, openTime, sizes), limit, openTime, sizes);
      && r.primary == limit && r.secondary == (if uncut < 0xFFFF then uncut else 0xFFFF)
      && 0 <= Shortfall(pw, openTime, sizes, r) - (uncut - r.secondary) * sizes.secondary < sizes.Sum()
  {
    var primary := Wanted(pw, openTime, sizes);
    var flow := Extra(primary, limit, openTime) * sizes.primary / sizes.secondary;
    TotalIsRequested(pw, openTime, sizes);
    AutoSecondary(primary, limit, openTime, sizes);
    AutoBalance(TotalStagePw(pw, openTime, sizes), primary, limit, openTime, sizes.primary, sizes.secondary, flow);
    AutoShortfall(pw, limit, openTime, sizes, TotalStagePw(pw, openTime, sizes), flow, Saturate(flow + openTime));
  }

  /** So nothing is lost but rounding when the secondary pulse is not saturated. */
  lemma AutoConservesAllFlow(pw: uint16, limit: uint16, openTime: uint16, sizes: Sizes)
    requires InputsFit(pw, openTime, sizes) && Wanted(pw, openTime, sizes) > limit >= openTime
    requires ExtraFits(Wanted(pw, openTime, sizes), limit, openTime, sizes)
    requires UncutSecondary(Wanted(pw, openTime, sizes), limit, openTime, sizes) <= 0xFFFF
    ensures 0 <= Shortfall(pw, openTime, sizes, StageAuto(pw, limit, openTime, sizes)) < sizes.Sum()
  {
    AutoConservesFlow(pw, limit, openTime, sizes);
    var uncut := UncutSecondary(Wanted(pw, openTime, sizes), limit, openTime, sizes);
    var cut := uncut - StageAuto(pw, limit, openTime, sizes).secondary;
    NothingTimes(cut, sizes.secondary);
  }

  lemma NothingTimes(n: int, size: int)
    requires n == 0
    ensures n * size == 0
  {
  }

  lemma AutoShortfall(
      pw: uint16, limit: uint16, openTime: uint16, sizes: Sizes, total: int, flow: int, secondary: uint16)
    requires total == Requested(pw, openTime, sizes) && openTime <= limit && openTime <= secondary
    ensures Shortfall(pw, openTime, sizes, PulseWidths(limit, secondary))
         - (flow + openTime - secondary) * sizes.secondary
         == total - (limit - openTime) * sizes.primary - flow * sizes.secondary
  {
  }

  lemma AutoPrimary(primary: uint32, limit: uint16, openTime: uint16, sizes: Sizes)
    requires sizes.Valid() && primary <= limit && primary + openTime <= 0xFFFF
    ensures AutoPulses(primary, limit, openTime, sizes) == PulseWidths(primary + openTime, 0)
  {
    UncutOpening(primary, openTime);
  }

  /** At or below the limit, the primaries carry everything, to within one unit of pulse. */
  lemma BelowLimitConservesFlow(pw: uint16, limit: uint16, openTime: uint16, sizes: Sizes)
    requires InputsFit(pw, openTime, sizes) && Wanted(pw, openTime, sizes) <= limit
    requires Wanted(pw, openTime, sizes) + openTime <= 0xFFFF
    ensures var r := StageAuto(pw, limit, openTime, sizes);
      r.secondary == 0 && 0 <= Shortfall(pw, openTime, sizes, r) < sizes.primary
  {
    AutoPrimary(Wanted(pw, openTime, sizes), limit, openTime, sizes);
    PrimaryCarriesAll(pw, openTime, sizes, Wanted(pw, openTime, sizes));
  }

  lemma PrimaryCarriesAll(pw: uint16, openTime: uint16, sizes: Sizes, primary: uint32)
    requires InputsFit(pw, openTime, sizes) && primary == Wanted(pw, openTime, sizes) && primary + openTime <= 0xFFFF
    ensures 0 <= Shortfall(pw, openTime, sizes, PulseWidths(primary + openTime, 0)) < sizes.primary
  {
    TotalIsRequested(pw, openTime, sizes);
    Division(TotalStagePw(pw, openTime, sizes), sizes.primary);
    PrimaryShortfall(pw, openTime, sizes, primary);
  }

  lemma PrimaryShortfall(pw: uint16, openTime: uint16, sizes: Sizes, primary: nat)
    requires primary + openTime <= 0xFFFF
    ensures Shortfall(pw, openTime, sizes, PulseWidths(primary + openTime, 0)) ==
            Requested(pw, openTime, sizes) - primary * sizes.primary
  {
  }

  // ------------------------------------------------------------------ table mode

  /** Nothing overflows and neither pulse is cut off at 16 bits. */
  predicate ShareFits(percent: uint16, value: uint32, openTime: uint16) {
    Fits(percent, value) && PercentageApprox(percent, value) + openTime <= 0xFFFF
  }

  predicate SplitFits(split: uint8, primary: uint32, secondary: uint32, openTime: uint16) {
    ShareFits(PrimaryPercent(split), primary, openTime) && ShareFits(split, secondary, openTime)
  }

  predicate TableFits(pw: uint16, openTime: uint16, sizes: Sizes, split: uint8) {
    && InputsFit(pw, openTime, sizes)
    && if split == 0 then Wanted(pw, openTime, sizes) + openTime <= 0xFFFF
       else
         var total := TotalStagePw(pw, openTime, sizes);
         SplitFits(split, Share(total, sizes.primary), Share(total, sizes.secondary), openTime)
  }

  /** Short by at most total / 512 + 1.5 (primary + secondary), and over by no more than total / 512 + half of that. */
  predicate FlowIsConserved(pw: uint16, openTime: uint16, sizes: Sizes, r: PulseWidths) {
    var total := Requested(pw, openTime, sizes);
    var missing := 1024 * Shortfall(pw, openTime, sizes, r);
    -(2 * total + 512 * sizes.Sum()) <= missing <= 2 * total + 1536 * sizes.Sum()
  }

  lemma ErrorScaled(percent: int, q: int, size: int, pulse: int)
    ensures size * (51200 * pulse - 512 * (percent * q)) == 51200 * (pulse * size) - 512 * (percent * (q * size))
    ensures size * (50 * q + 25600) == 50 * (q * size) + 25600 * size
  {
    Distribute(size, 51200, pulse, 512, percent * q);
    assert size * (percent * q) == percent * (q * size);
    Distribute(size, 50, q, -25600, 1);
  }

  lemma ScaledShareIsNear(percent: int, total: int, size: int, pulse: int, q: int)
    requires size > 0 && 0 <= percent && 0 <= q && q * size <= total < q * size + size
    requires -(50 * q + 25600) <= 51200 * pulse - 512 * (percent * q) <= 50 * q + 25600
    ensures -(50 * total + 25600 * size + 512 * (percent * size)) <= 51200 * (pulse * size) - 512 * (percent * total)
    ensures 51200 * (pulse * size) - 512 * (percent * total) <= 50 * total + 25600 * size
  {
    var carried := q * size;
    ScaleBound(size, 51200 * pulse - 512 * (percent * q), 50 * q + 25600);
    ErrorScaled(percent, q, size, pulse);
    ScaleMonotone(percent, carried, total);
    ScaleMonotone(percent, total - size, carried);
    Distribute(percent, 1, total, 1, size);
  }

  /** The fuel of one injector set is its percentage of the total, to within the rounding of the three divisions. */
  lemma ShareIsNear(percent: int, total: nat, size: int, pulse: nat)
    requires size > 0 && 0 <= percent && NearPercentage(512, percent, total / size, pulse)
    ensures -(50 * total + 25600 * size + 512 * (percent * size)) <= 51200 * (pulse * size) - 512 * (percent * total)
    ensures 51200 * (pulse * size) - 512 * (percent * total) <= 50 * total + 25600 * size
  {
    Division(total, size);
    ScaledShareIsNear(percent, total, size, pulse, total / size);
  }

  lemma Weights(total: int, p: nat, s: nat, split: int)
    requires 0 <= split <= 100
    ensures (100 - split) * total + split * total == 100 * total
    ensures (100 - split) * p <= 100 * p && split * s <= 100 * s
  {
    Distribute(total, 100, 1, split, 1);
    ScaleMonotone(p, 100 - split, 100);
    ScaleMonotone(s, split, 100);
  }

  /** Two shares that make up 100% make up the total. */
  lemma SharesAddUp(total: int, p: int, s: int, split: int, a: nat, b: nat)
    requires p > 0 && s > 0 && total >= 0 && 0 < split <= 100
    requires NearPercentage(512, 100 - split, total / p, a) && NearPercentage(512, split, total / s, b)
    ensures -(2 * total + 512 * (p + s)) <= 1024 * (total - a * p - b * s) <= 2 * total + 1536 * (p + s)
  {
    ShareIsNear(100 - split, total, p, a);
    ShareIsNear(split, total, s, b);
    Weights(total, p, s, split);
    var rest := 100 - split;
    SumOfErrors(total, p, s, a * p, b * s, rest * total, split * total, rest * p, split * s);
  }

  lemma SumOfErrors(
      total: int, p: int, s: int, ap: int, bs: int, restTotal: int, splitTotal: int, restP: int, splitS: int)
    requires restTotal + splitTotal == 100 * total && restP <= 100 * p && splitS <= 100 * s
    requires -(50 * total + 25600 * p + 512 * restP) <= 51200 * ap - 512 * restTotal <= 50 * total + 25600 * p
    requires -(50 * total + 25600 * s + 512 * splitS) <= 51200 * bs - 512 * splitTotal <= 50 * total + 25600 * s
    ensures -(2 * total + 512 * (p + s)) <= 1024 * (total - ap - bs) <= 2 * total + 1536 * (p + s)
  {
  }

  lemma TableShareIsNear(percent: uint16, full: uint32, openTime: uint16) returns (share: nat)
    requires percent <= 2046 && ShareFits(percent, full, openTime)
    ensures TableShare(percent, full, openTime) == share + openTime
    ensures NearPercentage(Precision(percent), percent, full, share)
  {
    PercentageBound(percent, full);
    share := PercentageApprox(percent, full);
    UncutOpening(share, openTime);
  }

  /** Both shares near their percentage of the total conserve it. */
  lemma NearSharesConserveFlow(
      pw: uint16, openTime: uint16, sizes: Sizes, split: uint8, r: PulseWidths, total: nat, a: nat, b: nat)
    requires sizes.Valid() && total == Requested(pw, openTime, sizes) && 0 < split <= 100
    requires r.primary == a + openTime && r.secondary == b + openTime
    requires NearPercentage(512, 100 - split, total / sizes.primary, a)
    requires NearPercentage(512, split, total / sizes.secondary, b)
    ensures FlowIsConserved(pw, openTime, sizes, r)
  {
    SharesAddUp(total, sizes.primary, sizes.secondary, split, a, b);
    assert Shortfall(pw, openTime, sizes, r) == total - a * sizes.primary - b * sizes.secondary;
  }

  lemma SplitPulsesAreNear(split: uint8, primary: uint32, secondary: uint32, openTime: uint16) returns (a: nat, b: nat)
    requires 0 < split <= 100 && SplitFits(split, primary, secondary, openTime)
    ensures a + openTime <= 0xFFFF && b + openTime <= 0xFFFF
    ensures SplitPulses(split, primary, secondary, openTime) == PulseWidths(a + openTime, b + openTime)
    ensures NearPercentage(512, 100 - split, primary, a) && NearPercentage(512, split, secondary, b)
  {
    PrimaryPercentIsRest(split);
    a := TableShareIsNear(PrimaryPercent(split), primary, openTime);
    b := TableShareIsNear(split, secondary, openTime);
  }

  lemma SplitConservesFlow(pw: uint16, openTime: uint16, sizes: Sizes, split: uint8, total: uint32)
    requires sizes.Valid() && total == Requested(pw, openTime, sizes) && 0 < split <= 100
    requires SplitFits(split, Share(total, sizes.primary), Share(total, sizes.secondary), openTime)
    ensures FlowIsConserved(pw, openTime, sizes,
                            SplitPulses(split, Share(total, sizes.primary), Share(total, sizes.secondary), openTime))
  {
    var p, s := Share(total, sizes.primary), Share(total, sizes.secondary);
    var a, b := SplitPulsesAreNear(split, p, s, openTime);
    NearSharesConserveFlow(pw, openTime, sizes, split, PulseWidths(a + openTime, b + openTime), total, a, b);
  }

  lemma TableConservesFlow(pw: uint16, openTime: uint16, sizes: Sizes, split: uint8)
    requires TableFits(pw, openTime, sizes, split) && split <= 100
    ensures FlowIsConserved(pw, openTime, sizes, StageTable(pw, openTime, sizes, split))
  {
    TotalIsRequested(pw, openTime, sizes);
    if split == 0 {
      PrimaryCarriesAll(pw, openTime, sizes, Wanted(pw, openTime, sizes));
      UncutOpening(Wanted(pw, openTime, sizes), openTime);
    } else {
      SplitConservesFlow(pw, openTime, sizes, split, TotalStagePw(pw, openTime, sizes));
    }
  }

  lemma LargeShare(percent: uint8)
    requires percent > 100
    ensures ShareFits(percent, 4000, 0) && 40 * percent - 9 <= TableShare(percent, 4000, 0)
  {
    var one := Precision(percent);
    assert one == 512 || one == 256;
    assert FixedPercent(one, percent) <= 655;
    PercentageBound(percent, 4000);
    var share := PercentageApprox(percent, 4000);
    assert -50 * (4000 + one) <= 100 * (one * share) - 4000 * (percent * one) <= 50 * (4000 + one);
    assert 40 * percent - 9 <= share <= 40 * percent + 9;
    UncutOpening(share, 0);
  }

  /** Above 100 the primary percentage wraps at a byte, and the shares make up 356%. */
  lemma LargeSplitExample(split: uint8)
    requires split > 100
    ensures TableFits(2000, 0, Sizes(1, 1), split)
    ensures !FlowIsConserved(2000, 0, Sizes(1, 1), StageTable(2000, 0, Sizes(1, 1), split))
  {
    assert TotalStagePw(2000, 0, Sizes(1, 1)) == 4000;
    assert Share(4000, 1) == 4000;
    assert (100 - split) % TWO8 == 356 - split;
    LargeShare(356 - split);
    LargeShare(split);
  }

  lemma WorstScaled(size: int, pulse: int, pq: int, q: int)
    requires size > 0 && 25600 * pulse >= 256 * pq - 50 * q - 12800
    ensures 25600 * (pulse * size) >= 256 * (pq * size) - 50 * (q * size) - 12800 * size
  {
    ScaleMonotone(size, 256 * pq - 50 * q - 12800, 25600 * pulse);
    Distribute(size, 256, pq, 50, q);
    Distribute(size, 25600, pulse, 0, 0);
    Distribute(size, 1, 256 * pq - 50 * q, 12800, 1);
  }

  lemma CarriedPercent(percent: int, total: int, size: int, q: int)
    requires size > 0 && 0 <= percent <= 255 && total < q * size + size
    ensures (percent * q) * size >= percent * total - 255 * size
  {
    assert (percent * q) * size == percent * (q * size);
    ScaleMonotone(percent, total - size, q * size);
    Distribute(percent, 1, total, 1, size);
    ScaleMonotone(size, percent, 255);
  }

  /** The fuel of one injector set is no less than its percentage, but for the rounding. */
  lemma ShareIsNoLess(percent: int, total: nat, size: int, pulse: nat, q: nat)
    requires size > 0 && 0 <= percent <= 255 && q * size <= total < q * size + size
    requires NearPercentage(Precision(percent), percent, q, pulse)
    ensures 25600 * (pulse * size) >= 256 * (percent * total) - 50 * total - 78080 * size
  {
    ShareAtWorst(percent, q, pulse);
    WorstScaled(size, pulse, percent * q, q);
    CarriedPercent(percent, total, size, q);
  }

  lemma ShareAtWorst(percent: int, q: nat, pulse: nat)
    requires 0 <= percent <= 255 && NearPercentage(Precision(percent), percent, q, pulse)
    ensures 25600 * pulse >= 256 * (percent * q) - 50 * q - 12800
  {
    var one := Precision(percent);
    assert one == 512 || one == 256;
    assert q * (percent * one) == one * (percent * q);
  }

  lemma SharesTriple(total: int, p: int, s: int, split: int, ap: int, bs: int)
    requires total >= 6 * (p + s) && p > 0 && s > 0
    requires 25600 * ap >= 256 * ((356 - split) * total) - 50 * total - 78080 * p
    requires 25600 * bs >= 256 * (split * total) - 50 * total - 78080 * s
    ensures ap + bs > 3 * total
  {
    Distribute(total, 356, 1, split, 1);
  }

  lemma SplitTriples(
      pw: uint16, openTime: uint16, sizes: Sizes, split: uint8, r: PulseWidths, total: nat, a: nat, b: nat)
    requires sizes.Valid() && total == Requested(pw, openTime, sizes) >= 6 * sizes.Sum() && 100 < split
    requires r.primary == a + openTime && r.secondary == b + openTime
    requires NearPercentage(Precision(356 - split), 356 - split, total / sizes.primary, a)
    requires NearPercentage(Precision(split), split, total / sizes.secondary, b)
    ensures Shortfall(pw, openTime, sizes, r) < -2 * Requested(pw, openTime, sizes)
  {
    Division(total, sizes.primary);
    Division(total, sizes.secondary);
    ShareIsNoLess(356 - split, total, sizes.primary, a, total / sizes.primary);
    ShareIsNoLess(split, total, sizes.secondary, b, total / sizes.secondary);
    SharesTriple(total, sizes.primary, sizes.secondary, split, a * sizes.primary, b * sizes.secondary);
    assert Shortfall(pw, openTime, sizes, r) == total - a * sizes.primary - b * sizes.secondary;
  }

  lemma SixUnits(pw: uint16, openTime: uint16, sizes: Sizes)
    requires sizes.Valid() && pw >= openTime + 6
    ensures Requested(pw, openTime, sizes) >= 6 * sizes.Sum()
  {
    ScaleMonotone(sizes.Sum(), 6, pw - openTime);
  }

  lemma PrimaryPercentWraps(split: uint8)
    requires split > 100
    ensures PrimaryPercent(split) == 356 - split
  {
  }

  lemma SplitOverfuels(pw: uint16, openTime: uint16, sizes: Sizes, split: uint8, total: uint32)
    requires sizes.Valid() && total == Requested(pw, openTime, sizes) >= 6 * sizes.Sum() && 100 < split
    requires SplitFits(split, Share(total, sizes.primary), Share(total, sizes.secondary), openTime)
    ensures Shortfall(pw, openTime, sizes,
                      SplitPulses(split, Share(total, sizes.primary), Share(total, sizes.secondary), openTime))
            < -2 * Requested(pw, openTime, sizes)
  {
    PrimaryPercentWraps(split);
    var a := TableShareIsNear(356 - split, Share(total, sizes.primary), openTime);
    var b := TableShareIsNear(split, Share(total, sizes.secondary), openTime);
    SplitTriples(pw, openTime, sizes, split, PulseWidths(a + openTime, b + openTime), total, a, b);
  }

  /** With a split above 100, any pulse of six microseconds or more delivers over three times what is asked for. */
  lemma LargeSplitOverfuels(pw: uint16, openTime: uint16, sizes: Sizes, split: uint8)
    requires TableFits(pw, openTime, sizes, split) && split > 100 && pw >= openTime + 6
    ensures Shortfall(pw, openTime, sizes, StageTable(pw, openTime, sizes, split)) < -2 * Requested(pw, openTime, sizes)
  {
    TotalIsRequested(pw, openTime, sizes);
    SixUnits(pw, openTime, sizes);
    SplitOverfuels(pw, openTime, sizes, split, TotalStagePw(pw, openTime, sizes));
  }

  /** For each such input, the flow is conserved if and only if the split is at most 100. */
  lemma TableConservesFlowAtIff(pw: uint16, openTime: uint16, sizes: Sizes, split: uint8)
    requires TableFits(pw, openTime, sizes, split) && pw >= openTime + 6
    ensures FlowIsConserved(pw, openTime, sizes, StageTable(pw, openTime, sizes, split)) <==> split <= 100
  {
    if split <= 100 {
      TableConservesFlow(pw, openTime, sizes, split);
    } else {
      SixUnits(pw, openTime, sizes);
      LargeSplitOverfuels(pw, openTime, sizes, split);
    }
  }

  /** The flow is conserved for all inputs that fit exactly for splits up to 100. */
  lemma TableConservesFlowIff(split: uint8)
    ensures (forall pw: uint16, openTime: uint16, sizes: Sizes | TableFits(pw, openTime, sizes, split) ::
               FlowIsConserved(pw, openTime, sizes, StageTable(pw, openTime, sizes, split)))
            <==> split <= 100
  {
    if split <= 100 {
      forall pw: uint16, openTime: uint16, sizes: Sizes | TableFits(pw, openTime, sizes, split)
        ensures FlowIsConserved(pw, openTime, sizes, StageTable(pw, openTime, sizes, split))
      {
        TableConservesFlow(pw, openTime, sizes, split);
      }
    } else {
      LargeSplitExample(split);
    }
  }

  // ------------------------------------------------------------------ the whole calculation

  /** The pulse that is split always covers the opening time, so taking it off again never wraps. */
  lemma PulseCoversOpening(fuel: uint32, enrichment: uint32, openTime: uint16, sizes: Sizes)
    requires sizes.Valid() && fuel + openTime + enrichment < TWO32
    ensures var pw := PrimaryPw(fuel, enrichment, openTime);
      pw >= openTime && (Requested(pw, openTime, sizes) < TWO32 ==> InputsFit(pw, openTime, sizes))
      && (fuel + openTime + enrichment <= 0xFFFF ==>
            Requested(pw, openTime, sizes) == (fuel + enrichment) * sizes.Sum())
  {
  }

  /** Nothing overflows and no pulse is cut off, in the mode that is configured. */
  predicate StagingFits(mode: StagingMode, pw: uint16, limit: uint16, openTime: uint16, sizes: Sizes, split: uint8) {
    && InputsFit(pw, openTime, sizes)
    && match mode
       case Table => TableFits(pw, openTime, sizes, split)
       case Auto =>
         var primary := Wanted(pw, openTime, sizes);
         if primary <= limit then primary + openTime <= 0xFFFF
         else
           && openTime <= limit && ExtraFits(primary, limit, openTime, sizes)
           && UncutSecondary(primary, limit, openTime, sizes) <= 0xFFFF
  }

  lemma SmallShortfall(pw: uint16, openTime: uint16, sizes: Sizes, r: PulseWidths)
    requires openTime <= pw && 0 <= Shortfall(pw, openTime, sizes, r) < sizes.Sum()
    ensures FlowIsConserved(pw, openTime, sizes, r)
  {
    ScaleMonotone(sizes.Sum(), 0, pw - openTime);
  }

  lemma SplittingConservesFlow(
      staging: Staging, pw: uint16, limit: uint16, openTime: uint16, sizes: Sizes, split: uint8)
    requires staging.Applies() && StagingFits(staging.mode, pw, limit, openTime, sizes, split) && split <= 100
    ensures var r := SecondaryPw(staging, pw, limit, openTime, sizes, split);
      && FlowIsConserved(pw, openTime, sizes, r)
      && (staging.mode.Auto? ==> 0 <= Shortfall(pw, openTime, sizes, r) < sizes.Sum())
  {
    var r := SecondaryPw(staging, pw, limit, openTime, sizes, split);
    if pw == 0 {
      NothingAsked(openTime, sizes);
      SmallShortfall(pw, openTime, sizes, r);
    } else if staging.mode.Table? {
      TableConservesFlow(pw, openTime, sizes, split);
    } else {
      if Wanted(pw, openTime, sizes) <= limit {
        BelowLimitConservesFlow(pw, limit, openTime, sizes);
      } else {
        AutoConservesAllFlow(pw, limit, openTime, sizes);
      }
      SmallShortfall(pw, openTime, sizes, r);
    }
  }

  lemma NothingAsked(openTime: uint16, sizes: Sizes)
    requires openTime == 0
    ensures Shortfall(0, openTime, sizes, PulseWidths(0, 0)) == 0
  {
  }

  /** From the fuel to the two pulses, in both modes: what was asked for is delivered, to within the rounding. */
  lemma ComputedFlowIsConserved(
      demand: Demand, staging: Staging, limit: uint16, openTime: uint16, sizes: Sizes, split: uint8, pw: uint16)
    requires sizes.Valid() && demand.corrections > 0 && staging.Applies() && split <= 100
    requires demand.fuel + openTime + demand.enrichment <= 0xFFFF
    requires pw == PrimaryPw(demand.fuel, demand.enrichment, openTime)
    requires StagingFits(staging.mode, pw, limit, openTime, sizes, split)
    ensures Requested(pw, openTime, sizes) == (demand.fuel + demand.enrichment) * sizes.Sum()
    ensures var r := ComputePulseWidths(demand, staging, limit, openTime, sizes, split);
      && FlowIsConserved(pw, openTime, sizes, r)
      && (staging.mode.Auto? ==> 0 <= Shortfall(pw, openTime, sizes, r) < sizes.Sum())
  {
    PulseCoversOpening(demand.fuel, demand.enrichment, openTime, sizes);
    SplittingConservesFlow(staging, pw, limit, openTime, sizes, split);
  }

  /**
    When the pulse is not split, it keeps to the limit exactly when it would anyway, or staging is off
    and the engine runs.
  */
  lemma UnsplitPulseIsLimitedIff(
      demand: Demand, staging: Staging, limit: uint16, openTime: uint16, sizes: Sizes, split: uint8)
    requires sizes.Valid() && demand.corrections > 0 && !staging.Applies()
    ensures var r := ComputePulseWidths(demand, staging, limit, openTime, sizes, split);
      && r.secondary == 0
      && (r.primary <= limit <==>
          PrimaryPw(demand.fuel, demand.enrichment, openTime) <= limit || (!staging.enabled && !demand.cranking))
  {
  }

  /**
    The pulse of an engine without staging: fuel, opening time and enrichment, as far as 16 bits and,
    once the engine runs, the limit allow. With too few channels for staging the limit does not apply.
  */
  lemma UnsplitPulse(
      demand: Demand, staging: Staging, limit: uint16, openTime: uint16, sizes: Sizes, split: uint8, sum: nat)
    requires sizes.Valid() && !(staging.enabled && staging.enoughChannels)
    requires sum == demand.fuel + openTime + demand.enrichment < TWO32
    ensures var r := ComputePulseWidths(demand, staging, limit, openTime, sizes, split);
      var whole := if sum < 0xFFFF then sum else 0xFFFF;
      && r.secondary == 0
      && r.primary == if demand.corrections == 0 then 0
                      else if staging.enabled || demand.cranking || whole <= limit then whole else limit
  {
  }
}
