/** Recovery from knock depends on the time that has passed, not on when it was polled. */
module KnockRecoveryRuns {
  import opened Machine
  import opened FixedPoint
  import opened KnockRecovery

  lemma StepsMonotone(cfg: Config, early: nat, late: nat)
    requires cfg.Valid() && early <= late
    ensures Steps(cfg, early) <= Steps(cfg, late)
  {
    if early >= cfg.Hold() {
      DivisionMonotone(early - cfg.Hold(), late - cfg.Hold(), cfg.StepPeriod());
    }
  }

  lemma DivisionMonotone(a: nat, b: nat, d: nat)
    requires a <= b && d > 0
    ensures 0 <= a / d <= b / d
  {
    var p, q := a / d, b / d;
    assert a == d * p + a % d && b == d * q + b % d;
    if q < p {
      ScaleMonotone(d, q + 1, p);
    } else if p < 0 {
      ScaleMonotone(d, p, -1);
    }
  }

  /** What the retard should be: less by one recovery step for every step due, and never below zero. */
  function IdealAfter(cfg: Config, initial: uint8, steps: nat): int {
    var left := initial - steps * cfg.recoveryStep;
    if left < 0 then 0 else left
  }

  function Ideal(cfg: Config, initial: uint8, elapsed: nat): int
    requires cfg.Valid()
  {
    IdealAfter(cfg, initial, Steps(cfg, elapsed))
  }

  // ------------------------------------------------------------------ one poll

  /** Recovering since true time `t0`, with `k` steps given back. */
  ghost predicate Recovering(cfg: Config, s: State, t0: int, initial: uint8, k: nat) {
    && s.active && !s.pulseDetected && s.startTime == Stamp(t0) && s.lastRecoveryStep == k
    && s.count >= cfg.threshold && initial <= cfg.maxRetard
    && s.retard == initial - k * cfg.recoveryStep
  }

  /** Recovery is complete: no retard, and no knock counted since. */
  predicate Complete(s: State) { !s.active && !s.pulseDetected && s.retard == 0 && s.count == 0 }

  /** The steps due fit into a byte, and so does the retard they give back. */
  predicate PollFits(cfg: Config, k: nat, elapsed: nat)
    requires cfg.Valid()
  {
    elapsed < TWO32 && Steps(cfg, elapsed) <= 255 && (Steps(cfg, elapsed) - k) * cfg.recoveryStep <= 255
  }

  /** A poll after the hold time is one round of recovery. */
  lemma PollGivesBack(cfg: Config, s: State, t0: int, elapsed: nat)
    requires cfg.Valid() && s.active && !s.pulseDetected && s.startTime == Stamp(t0) && s.count >= cfg.threshold
    requires cfg.Hold() <= elapsed < TWO32
    ensures Poll(cfg, s, Stamp(t0 + elapsed)) == Finished(cfg, GiveBack(cfg, s, ByteSteps(cfg, elapsed)))
  {
    StampDifference(t0 + elapsed, t0);
  }

  /** A round that is not truncated gives back the steps since the last one. */
  lemma RoundRecovers(cfg: Config, s: State, t0: int, initial: uint8, k: nat, steps: uint8)
    requires Recovering(cfg, s, t0, initial, k) && k <= steps && (steps - k) * cfg.recoveryStep <= 255
    ensures var r := Finished(cfg, GiveBack(cfg, s, steps));
      && r.retard == IdealAfter(cfg, initial, steps)
      && (Recovering(cfg, r, t0, initial, steps) || (Complete(r) && IdealAfter(cfg, initial, steps) == 0))
  {
    ScaleMonotone(cfg.recoveryStep, 0, steps - k);
    TakeSteps(k, steps, cfg.recoveryStep);
    assert Adjustment(cfg, steps, k) == (steps - k) * cfg.recoveryStep;
  }

  lemma PollWhileHeld(cfg: Config, s: State, t0: int, initial: uint8, elapsed: nat)
    requires cfg.Valid() && Recovering(cfg, s, t0, initial, 0) && elapsed < cfg.Hold()
    ensures Poll(cfg, s, Stamp(t0 + elapsed)) == s
  {
    StampDifference(t0 + elapsed, t0);
  }

  lemma TakeSteps(k: int, steps: int, step: int)
    ensures (steps - k) * step == steps * step - k * step
  {
  }

  /** A poll that fits gives back exactly what is due. */
  lemma PollRecovers(cfg: Config, s: State, t0: int, initial: uint8, k: nat, elapsed: nat)
    requires cfg.Valid() && Recovering(cfg, s, t0, initial, k)
    requires k <= Steps(cfg, elapsed) && PollFits(cfg, k, elapsed)
    ensures var r := Poll(cfg, s, Stamp(t0 + elapsed));
      && r.retard == Ideal(cfg, initial, elapsed)
      && (Recovering(cfg, r, t0, initial, Steps(cfg, elapsed)) || (Complete(r) && Ideal(cfg, initial, elapsed) == 0))
  {
    if elapsed < cfg.Hold() {
      PollWhileHeld(cfg, s, t0, initial, elapsed);
    } else {
      PollGivesBack(cfg, s, t0, elapsed);
      var steps := Steps(cfg, elapsed);
      ByteFits(steps);
      RoundRecovers(cfg, s, t0, initial, k, steps);
    }
  }

  lemma ByteFits(n: nat)
    requires n <= 255
    ensures n % TWO8 == n
  {
  }

  /** Exactly when one poll is right: nothing is truncated, there is nothing to give back, or zero is reached anyway. */
  lemma PollIsRightIff(cfg: Config, s: State, t0: int, initial: uint8, k: nat, elapsed: nat)
    requires cfg.Valid() && Recovering(cfg, s, t0, initial, k)
    requires cfg.Hold() <= elapsed < TWO32 && k <= Steps(cfg, elapsed)
    ensures Poll(cfg, s, Stamp(t0 + elapsed)).retard == Ideal(cfg, initial, elapsed) <==>
            || PollFits(cfg, k, elapsed)
            || cfg.recoveryStep == 0
            || s.retard <= Adjustment(cfg, ByteSteps(cfg, elapsed), k)
  {
    var steps := Steps(cfg, elapsed);
    PollGivesBack(cfg, s, t0, elapsed);
    RoundIsRightIff(cfg, s, t0, initial, k, steps);
  }

  function Left(retard: int, back: int): int { if retard < back then 0 else retard - back }

  lemma RoundRetard(cfg: Config, s: State, steps: uint8)
    requires s.retard <= cfg.maxRetard
    ensures Finished(cfg, GiveBack(cfg, s, steps)).retard == Left(s.retard, Adjustment(cfg, steps, s.lastRecoveryStep))
  {
  }

  lemma RoundIsRightIff(cfg: Config, s: State, t0: int, initial: uint8, k: nat, steps: nat)
    requires Recovering(cfg, s, t0, initial, k) && k <= steps
    ensures Finished(cfg, GiveBack(cfg, s, steps % TWO8)).retard == IdealAfter(cfg, initial, steps) <==>
            || (steps <= 255 && (steps - k) * cfg.recoveryStep <= 255)
            || cfg.recoveryStep == 0
            || s.retard <= Adjustment(cfg, steps % TWO8, k)
  {
    var due := (steps - k) * cfg.recoveryStep;
    ScaleMonotone(cfg.recoveryStep, 0, k);
    RoundRetard(cfg, s, steps % TWO8);
    TakeSteps(k, steps, cfg.recoveryStep);
    assert IdealAfter(cfg, initial, steps) == Left(s.retard, due);
    AdjustmentIsRightIff(cfg, s.retard, k, steps, due);
  }

  lemma AdjustmentIsRightIff(cfg: Config, retard: uint8, k: nat, steps: nat, due: int)
    requires k <= steps && k <= 255 && due == (steps - k) * cfg.recoveryStep
    ensures Left(retard, Adjustment(cfg, steps % TWO8, k)) == Left(retard, due) <==>
            (steps <= 255 && due <= 255) || cfg.recoveryStep == 0 || retard <= Adjustment(cfg, steps % TWO8, k)
  {
    ByteStepsAreFewer(steps, k, cfg.recoveryStep);
    var back := Adjustment(cfg, steps % TWO8, k);
    assert 0 <= back <= due;
    if cfg.recoveryStep == 0 {
      assert due == 0;
    } else if steps > 255 && due <= 255 {
      assert back == 0 && due > 0;
    } else if steps <= 255 && due <= 255 {
      assert back == due;
    }
  }

  /** The steps seen through a byte give back no more than the true ones. */
  lemma ByteStepsAreFewer(steps: nat, k: nat, step: uint8)
    requires k <= steps && k <= 255
    ensures var seen := steps % TWO8;
      && (seen > k ==> 0 <= (seen - k) * step % TWO8 <= (seen - k) * step <= (steps - k) * step)
      && (0 < step && (steps - k) * step <= 255 && steps > 255 ==> seen < k && (steps - k) * step > 0)
      && (steps <= 255 ==> seen == steps)
      && 0 <= (steps - k) * step
  {
    var seen := steps % TWO8;
    ScaleMonotone(step, 0, steps - k);
    if seen > k {
      ScaleMonotone(step, seen - k, steps - k);
      ByteIsSmaller(seen - k, step);
    }
    if 0 < step && steps > 255 {
      ManyStepsWrap(steps, k, step);
    }
  }

  lemma ByteIsSmaller(n: nat, step: uint8)
    ensures 0 <= n * step % TWO8 <= n * step
  {
    ScaleMonotone(step, 0, n);
    var product := n * step;
    assert product == TWO8 * (product / TWO8) + product % TWO8;
  }

  lemma ManyStepsWrap(steps: nat, k: nat, step: int)
    requires k <= 255 < steps && 0 < step
    ensures (steps - k) * step <= 255 ==> steps % TWO8 < k && (steps - k) * step > 0
  {
    var more := steps - k;
    ScaleMonotone(more, 1, step);
    if more <= 255 {
      assert steps % TWO8 == steps - TWO8;
    }
  }

  // ------------------------------------------------------------------ whole schedules

  /** Polls at the given times after activation, with no knock in between. */
  function Polled(cfg: Config, s: State, t0: int, times: seq<nat>): State
    requires cfg.Valid()
    decreases |times|
  {
    if times == [] then s else Polled(cfg, Poll(cfg, s, Stamp(t0 + times[0])), t0, times[1..])
  }

  predicate Ordered(from: nat, times: seq<nat>)
    decreases |times|
  {
    times == [] || (from <= times[0] && Ordered(times[0], times[1..]))
  }

  /** Every poll up to the one that completes the recovery fits into the firmware's bytes. */
  predicate ScheduleFits(cfg: Config, initial: uint8, k: nat, times: seq<nat>)
    requires cfg.Valid()
    decreases |times|
  {
    times == [] ||
    (PollFits(cfg, k, times[0]) &&
     (Ideal(cfg, initial, times[0]) > 0 ==> ScheduleFits(cfg, initial, Steps(cfg, times[0]), times[1..])))
  }

  lemma IdealDecreases(cfg: Config, initial: uint8, early: nat, late: nat)
    requires cfg.Valid() && early <= late
    ensures 0 <= Ideal(cfg, initial, late) <= Ideal(cfg, initial, early)
  {
    StepsMonotone(cfg, early, late);
    ScaleMonotone(cfg.recoveryStep, Steps(cfg, early), Steps(cfg, late));
  }

  lemma {:induction false} LastIsLatest(from: nat, times: seq<nat>)
    requires Ordered(from, times) && times != []
    ensures from <= times[|times| - 1]
    decreases |times|
  {
    if |times| > 1 {
      LastIsLatest(times[0], times[1..]);
    }
  }

  /** No retard, and none to come without a new knock. */
  predicate Settled(s: State) { !s.pulseDetected && s.retard == 0 && (s.active || s.count == 0) }

  lemma {:induction false} SettledForEver(cfg: Config, s: State, t0: int, times: seq<nat>)
    requires cfg.Valid() && cfg.threshold > 0 && Settled(s)
    ensures Settled(Polled(cfg, s, t0, times))
    decreases |times|
  {
    if times != [] {
      SettledForEver(cfg, Poll(cfg, s, Stamp(t0 + times[0])), t0, times[1..]);
    }
  }

  /** After any schedule of polls, the retard is what the time since activation says it should be. */
  lemma {:induction false} RetardDependsOnTimeOnly(
      cfg: Config, s: State, t0: int, initial: uint8, before: nat, times: seq<nat>)
    requires cfg.Valid() && cfg.threshold > 0 && Recovering(cfg, s, t0, initial, Steps(cfg, before))
    requires times != [] && Ordered(before, times) && ScheduleFits(cfg, initial, Steps(cfg, before), times)
    ensures Polled(cfg, s, t0, times).retard == Ideal(cfg, initial, times[|times| - 1])
    decreases |times|
  {
    var now, rest := times[0], times[1..];
    var r := Poll(cfg, s, Stamp(t0 + now));
    StepsMonotone(cfg, before, now);
    PollRecovers(cfg, s, t0, initial, Steps(cfg, before), now);
    if rest == [] {
      assert Polled(cfg, r, t0, rest) == r;
    } else if Ideal(cfg, initial, now) > 0 {
      RetardDependsOnTimeOnly(cfg, r, t0, initial, now, rest);
    } else {
      SettledForEver(cfg, r, t0, rest);
      LastIsLatest(now, rest);
      IdealDecreases(cfg, initial, now, rest[|rest| - 1]);
    }
  }

  lemma SchedulesAgree(cfg: Config, s: State, t0: int, initial: uint8, often: seq<nat>, seldom: seq<nat>)
    requires cfg.Valid() && cfg.threshold > 0 && Recovering(cfg, s, t0, initial, 0) && often != [] && seldom != []
    requires Ordered(0, often) && ScheduleFits(cfg, initial, 0, often)
    requires Ordered(0, seldom) && ScheduleFits(cfg, initial, 0, seldom)
    requires often[|often| - 1] == seldom[|seldom| - 1]
    ensures Polled(cfg, s, t0, often).retard == Polled(cfg, s, t0, seldom).retard
  {
    assert Steps(cfg, 0) == 0;
    RetardDependsOnTimeOnly(cfg, s, t0, initial, 0, often);
    RetardDependsOnTimeOnly(cfg, s, t0, initial, 0, seldom);
  }

  /** While all the steps together fit into a byte, so do those of every poll, whatever the schedule. */
  lemma {:induction false} EveryScheduleFits(cfg: Config, initial: uint8, before: nat, times: seq<nat>)
    requires cfg.Valid() && times != [] && Ordered(before, times)
    requires PollFits(cfg, 0, times[|times| - 1])
    ensures ScheduleFits(cfg, initial, Steps(cfg, before), times)
    decreases |times|
  {
    LastIsLatest(before, times);
    var now, last := times[0], times[|times| - 1];
    if |times| > 1 {
      LastIsLatest(now, times[1..]);
      EveryScheduleFits(cfg, initial, now, times[1..]);
    }
    StepsMonotone(cfg, before, now);
    StepsMonotone(cfg, now, last);
    EarlierFits(cfg, Steps(cfg, before), Steps(cfg, now), Steps(cfg, last));
  }

  lemma EarlierFits(cfg: Config, k: nat, steps: nat, last: nat)
    requires k <= steps <= last && (last - 0) * cfg.recoveryStep <= 255
    ensures (steps - k) * cfg.recoveryStep <= 255
  {
    ScaleMonotone(cfg.recoveryStep, steps - k, last - 0);
  }

  /** So the retard after any schedule at all is that of the elapsed time, within that limit. */
  lemma AnyScheduleGivesIdeal(cfg: Config, s: State, t0: int, initial: uint8, times: seq<nat>)
    requires cfg.Valid() && cfg.threshold > 0 && Recovering(cfg, s, t0, initial, 0)
    requires times != [] && Ordered(0, times) && PollFits(cfg, 0, times[|times| - 1])
    ensures Polled(cfg, s, t0, times).retard == Ideal(cfg, initial, times[|times| - 1])
  {
    assert Steps(cfg, 0) == 0 by { FirstStep(cfg); }
    EveryScheduleFits(cfg, initial, 0, times);
    RetardDependsOnTimeOnly(cfg, s, t0, initial, 0, times);
  }

  lemma FirstStep(cfg: Config)
    requires cfg.Valid()
    ensures Steps(cfg, 0) == 0
  {
  }

  /** Thirteen steps of 20 in one poll: their product wraps at a byte, and almost nothing is given back. */
  lemma SparsePollingLags(cfg: Config, s: State)
    requires cfg.threshold == 1 && cfg.duration == 0 && cfg.maxRetard == 255
    requires cfg.recoveryStepTime == 1 && cfg.recoveryStep == 20
    requires Recovering(cfg, s, 0, 200, 0)
    ensures Poll(cfg, Poll(cfg, s, 600_000), 1_300_000).retard == 0
    ensures Poll(cfg, s, 1_300_000).retard == 196
  {
    assert Steps(cfg, 600_000) == 6 && Steps(cfg, 1_300_000) == 13;
    PollRecovers(cfg, s, 0, 200, 0, 600_000);
    PollRecovers(cfg, Poll(cfg, s, 600_000), 0, 200, 6, 1_300_000);
    PollGivesBack(cfg, s, 0, 1_300_000);
    RoundRetard(cfg, s, 13);
  }

  // ------------------------------------------------------------------ activation and new knocks

  /** The poll that finds the threshold reached starts a recovery. */
  lemma ActivationStartsRecovery(cfg: Config, s: State, t0: int)
    requires cfg.Valid() && !s.active
    ensures var r := Poll(cfg, s, Stamp(t0));
      if s.count >= cfg.threshold
      then Recovering(cfg, r, t0, Min(CountedRetard(cfg, s.count), cfg.maxRetard), 0)
      else !r.active && r.retard == 0 && r.count == s.count && !r.pulseDetected
  {
  }

  /** A further knock restarts the recovery with more retard, exactly when there is a hold time to wait. */
  lemma FurtherKnockCountsIff(cfg: Config, s: State, t0: int, now: int)
    requires cfg.Valid() && s.active && s.pulseDetected && s.startTime == Stamp(t0) && t0 <= now < t0 + TWO32
    requires now - t0 >= cfg.stepTime * 1000 && s.count >= cfg.threshold && s.retard <= cfg.maxRetard
    ensures var r := Poll(cfg, s, Stamp(now));
      var more := Min(CountedRetard(cfg, Next8(s.count)), cfg.maxRetard);
      && (r.retard == more <==> cfg.duration > 0 || s.retard == more)
      && (cfg.duration > 0 && s.count < 255 ==> Recovering(cfg, r, now, more, 0))
  {
    StampDifference(now, t0);
    StampDifference(now, now);
    var t := AdditionalRetard(cfg, s, Stamp(now));
    if cfg.duration == 0 {
      assert ByteSteps(cfg, 0) == 0;
      RoundRetard(cfg, t, 0);
    }
  }

  /** The retard for `further` knocks beyond the threshold: a first step, and then smaller ones, in a byte. */
  function RetardFor(cfg: Config, further: nat): uint8 {
    var sum := (cfg.firstStep + further * cfg.stepSize) % TWO8;
    if sum < cfg.maxRetard then sum else cfg.maxRetard
  }

  lemma CountedIs(cfg: Config, count: uint8, further: nat)
    requires count == cfg.threshold + further
    ensures Min(CountedRetard(cfg, count), cfg.maxRetard) == RetardFor(cfg, further)
  {
    assert (count - cfg.threshold) * cfg.stepSize == further * cfg.stepSize;
  }

  function Lesser(a: int, b: int): int { if a < b then a else b }

  lemma RetardWithoutWrap(cfg: Config, further: nat)
    requires cfg.firstStep + further * cfg.stepSize <= 255
    ensures RetardFor(cfg, further) == Lesser(cfg.firstStep + further * cfg.stepSize, cfg.maxRetard)
  {
    ScaleMonotone(cfg.stepSize, 0, further);
    ByteFits(cfg.firstStep + further * cfg.stepSize);
  }

  lemma ActivationPoll(cfg: Config, s: State, now: uint32, retard: uint8)
    requires cfg.Valid() && !s.active && s.count >= cfg.threshold
    requires retard == Min(CountedRetard(cfg, s.count), cfg.maxRetard)
    ensures Poll(cfg, s, now) == State(now, 0, retard, s.count, true, false)
  {
  }

  /** The poll that activates: the first step, one further step for each knock beyond the threshold, up to the limit. */
  lemma ActivationRetards(cfg: Config, s: State, now: uint32, further: nat)
    requires cfg.Valid() && !s.active && s.count == cfg.threshold + further
    ensures Poll(cfg, s, now) == State(now, 0, RetardFor(cfg, further), s.count, true, false)
  {
    CountedIs(cfg, s.count, further);
    ActivationPoll(cfg, s, now, RetardFor(cfg, further));
  }

  lemma NoTimeHasPassed(now: uint32)
    ensures Elapsed(now, now) == 0
  {
  }

  lemma FurtherKnockPoll(cfg: Config, s: State, now: uint32, retard: uint8)
    requires cfg.Valid() && s.active && s.pulseDetected && cfg.threshold <= s.count < 255
    requires Elapsed(now, s.startTime) >= cfg.stepTime * 1000 && cfg.duration > 0
    requires retard == Min(CountedRetard(cfg, s.count + 1), cfg.maxRetard)
    ensures Poll(cfg, s, now) == State(now, 0, retard, s.count + 1, true, false)
  {
    var t := s.(count := s.count + 1, startTime := now, lastRecoveryStep := 0);
    KnockAdds(cfg, s, now);
    HeldFromNow(cfg, t, now, CountedRetard(cfg, s.count + 1));
  }

  lemma KnockAdds(cfg: Config, s: State, now: uint32)
    requires s.pulseDetected && s.count < 255 && Elapsed(now, s.startTime) >= cfg.stepTime * 1000
    ensures AdditionalRetard(cfg, s, now) == s.(count := s.count + 1, startTime := now, lastRecoveryStep := 0)
    ensures AdditionalValue(cfg, s, now, s.retard) == CountedRetard(cfg, s.count + 1)
  {
  }

  lemma HeldFromNow(cfg: Config, t: State, now: uint32, retard: uint8)
    requires cfg.Valid() && cfg.duration > 0 && t.startTime == now
    ensures Recovered(cfg, t, now, retard) == (t, retard)
  {
    NoTimeHasPassed(now);
    assert cfg.Hold() > 0;
  }

  /** A further knock after the step time, with a hold time: the retard for one knock more, and a new start. */
  lemma FurtherKnockRetards(cfg: Config, s: State, now: uint32, further: nat)
    requires cfg.Valid() && s.active && s.pulseDetected && s.count == cfg.threshold + further && s.count < 255
    requires Elapsed(now, s.startTime) >= cfg.stepTime * 1000 && cfg.duration > 0
    ensures Poll(cfg, s, now) == State(now, 0, RetardFor(cfg, further + 1), s.count + 1, true, false)
  {
    CountedIs(cfg, s.count + 1, further + 1);
    FurtherKnockPoll(cfg, s, now, RetardFor(cfg, further + 1));
  }

  /** A further knock before the step time does what a poll without a knock does. */
  lemma EarlyKnockIsIgnored(cfg: Config, s: State, now: uint32)
    requires cfg.Valid() && s.active && Elapsed(now, s.startTime) < cfg.stepTime * 1000
    ensures Poll(cfg, s, now) == Poll(cfg, s.(pulseDetected := false), now)
    ensures var r := Poll(cfg, s, now);
      && (r.count == s.count || (r.count == 0 && r.retard == 0 && !r.active))
      && (r.startTime == s.startTime || (r.startTime == 0 && r.retard == 0 && !r.active))
  {
  }

  datatype Event = Knock | PollAt(now: uint32)

  function Next(cfg: Config, s: State, e: Event): State
    requires cfg.Valid()
  {
    match e
    case Knock => KnockPulse(s)
    case PollAt(now) => Poll(cfg, s, now)
  }

  function Final(cfg: Config, s: State, events: seq<Event>): State
    requires cfg.Valid()
    decreases |events|
  {
    if events == [] then s else Final(cfg, Next(cfg, s, events[0]), events[1..])
  }

  function Knocks(events: seq<Event>): nat {
    if events == [] then 0 else (if events[0].Knock? then 1 else 0) + Knocks(events[1..])
  }

  /** After a complete recovery the retard stays zero until the knocks counted since reach the threshold. */
  lemma {:induction false} ZeroUntilThreshold(cfg: Config, s: State, events: seq<Event>)
    requires cfg.Valid() && !s.active && s.retard == 0 && s.count + Knocks(events) <= 255
    requires s.count + Knocks(events) < cfg.threshold
    ensures var r := Final(cfg, s, events);
      !r.active && r.retard == 0 && r.count == s.count + Knocks(events)
    decreases |events|
  {
    if events != [] {
      var t := Next(cfg, s, events[0]);
      assert !t.active && t.retard == 0;
      ZeroUntilThreshold(cfg, t, events[1..]);
    }
  }

  /** After a complete recovery, knocks and then a poll bring the retard back exactly when they reach the threshold. */
  lemma ReactivatedIff(cfg: Config, s: State, knocks: nat, now: uint32)
    requires cfg.Valid() && Complete(s) && knocks <= 255
    ensures Poll(cfg, AfterKnocks(s, knocks), now).active <==> knocks >= cfg.threshold
  {
    KnocksAreCounted(s, knocks);
  }

  function AfterKnocks(s: State, knocks: nat): State {
    if knocks == 0 then s else KnockPulse(AfterKnocks(s, knocks - 1))
  }

  lemma {:induction false} KnocksAreCounted(s: State, knocks: nat)
    requires !s.active && s.count + knocks <= 255
    ensures var r := AfterKnocks(s, knocks);
      r.count == s.count + knocks && !r.active && r.retard == s.retard
  {
    if knocks > 0 {
      KnocksAreCounted(s, knocks - 1);
    }
  }

  // ------------------------------------------------------------------ in the units of the tune

  /** The `k`th step time after the hold time; both are given in tenths of a second. */
  predicate InStep(cfg: Config, k: nat, elapsed: nat) {
    && cfg.duration * 100_000 + k * (cfg.recoveryStepTime * 100_000) <= elapsed
    && elapsed < cfg.duration * 100_000 + (k + 1) * (cfg.recoveryStepTime * 100_000)
  }

  /** One step is due for each whole step time. */
  lemma StepsAreDue(cfg: Config, k: nat, elapsed: nat)
    requires cfg.Valid() && InStep(cfg, k, elapsed)
    ensures Steps(cfg, elapsed) == k && elapsed >= cfg.Hold()
  {
    var into, period := elapsed - cfg.duration * 100_000, cfg.recoveryStepTime * 100_000;
    ScaleMonotone(period, 0, k);
    QuotientIs(into, period, k);
  }

  lemma QuotientIs(n: nat, d: nat, k: nat)
    requires d > 0 && k * d <= n < (k + 1) * d
    ensures n / d == k
  {
    var q, rest := n / d, n % d;
    assert n == d * q + rest;
    if q < k {
      ScaleMonotone(d, q + 1, k);
    } else if q > k {
      ScaleMonotone(d, k + 1, q);
    }
  }

  /** While the retard is held, a poll changes nothing. */
  lemma RetardIsHeld(cfg: Config, s: State, t0: int, initial: uint8, elapsed: nat)
    requires cfg.Valid() && Recovering(cfg, s, t0, initial, 0) && elapsed < cfg.duration * 100_000
    ensures Poll(cfg, s, Stamp(t0 + elapsed)) == s
  {
    PollWhileHeld(cfg, s, t0, initial, elapsed);
  }

  lemma PollInStep(cfg: Config, s: State, t0: int, k: nat, elapsed: nat)
    requires cfg.Valid() && s.active && !s.pulseDetected && s.startTime == Stamp(t0) && s.count >= cfg.threshold
    requires k <= 255 && elapsed < TWO32 && InStep(cfg, k, elapsed)
    ensures Poll(cfg, s, Stamp(t0 + elapsed)) == Finished(cfg, GiveBack(cfg, s, k))
  {
    StepsAreDue(cfg, k, elapsed);
    PollGivesBack(cfg, s, t0, elapsed);
    ByteFits(k);
  }

  lemma RecoveringHolds(cfg: Config, s: State, t0: int, initial: uint8, done: nat, k: nat, back: nat)
    requires Recovering(cfg, s, t0, initial, done) && done <= k && back == (k - done) * cfg.recoveryStep
    ensures s.active && !s.pulseDetected && s.startTime == Stamp(t0) && s.count >= cfg.threshold
    ensures s.lastRecoveryStep == done && s.retard <= cfg.maxRetard
    ensures s.retard - back == initial - k * cfg.recoveryStep
  {
    TakeSteps(done, k, cfg.recoveryStep);
    ScaleMonotone(cfg.recoveryStep, 0, done);
  }

  /** The retard a poll leaves in the `k`th step time after the hold time, however many polls there were before. */
  lemma RetardIsGivenBack(cfg: Config, s: State, t0: int, initial: uint8, done: nat, k: nat, elapsed: nat, back: nat)
    requires cfg.Valid() && Recovering(cfg, s, t0, initial, done) && done <= k <= 255
    requires back == (k - done) * cfg.recoveryStep <= 255 && elapsed < TWO32 && InStep(cfg, k, elapsed)
    ensures Poll(cfg, s, Stamp(t0 + elapsed)) ==
      if s.retard > back then s.(retard := s.retard - back, lastRecoveryStep := k)
      else State(0, k, 0, 0, false, false)
    ensures s.retard - back == initial - k * cfg.recoveryStep
  {
    RecoveringHolds(cfg, s, t0, initial, done, k, back);
    PollInStep(cfg, s, t0, k, elapsed);
    RoundGives(cfg, s, done, k, back);
  }

  lemma RoundGives(cfg: Config, s: State, done: nat, k: nat, back: nat)
    requires done <= k <= 255 && back == (k - done) * cfg.recoveryStep <= 255
    requires s.lastRecoveryStep == done && s.retard <= cfg.maxRetard && !s.pulseDetected && s.active
    ensures Finished(cfg, GiveBack(cfg, s, k)) ==
      if s.retard > back then s.(retard := s.retard - back, lastRecoveryStep := k)
      else State(0, k, 0, 0, false, false)
  {
    assert Adjustment(cfg, k, done) == back;
  }

  /** A knock is noticed at the next poll after the step time, and only counted then. */
  lemma KnockIsNoticed(cfg: Config, s: State, now: uint32, further: nat)
    requires cfg.Valid() && s.active && s.count == cfg.threshold + further && s.count < 255
    requires Elapsed(now, s.startTime) >= cfg.stepTime * 1000 && cfg.duration > 0
    ensures var r := Poll(cfg, KnockPulse(s), now);
      r.retard == RetardFor(cfg, further + 1) && r.count == s.count + 1
  {
    FurtherKnockRetards(cfg, KnockPulse(s), now, further);
  }
}
