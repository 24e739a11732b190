/**
  What the cut guarantees over whole runs of a four-stroke, non-sequential engine that cuts both
  fuel and ignition: where and when ignition may come back, and what the masks always satisfy. The
  firmware's revolution counter begins again at every stall and resync; the true count does not.
*/
module EngineProtectionRuns {
  import opened Machine
  import opened EngineProtection

  /** The firmware's revolution counter, and how many revolutions the engine has truly made. */
  datatype Clock = Clock(counter: nat, turns: nat)

  /** One evaluation: what the engine shows, and its true revolutions. */
  datatype Moment = Moment(reading: Reading, turns: nat)
  {
    function Now(): Clock { Clock(reading.revolutions, turns) }
  }

  /** For each channel with fuel, the true revolution at which its fuel last came on. */
  type History = map<nat, nat>

  function Record(h: History, before: CutState, after: CutState, turns: nat): History
    requires h.Keys == before.fuel
  {
    map c | c in after.fuel :: if c in before.fuel then h[c] else turns
  }

  /** The channel has had fuel for at least two true revolutions. */
  predicate FuelledForTwo(h: History, c: nat, turns: nat) {
    c in h && h[c] + 2 <= turns
  }

  /** Masks within the configured outputs, and ignition missing from a fuelled channel is pending. */
  ghost predicate MasksFit(cfg: Config, s: CutState) {
    && s.ignition <= FirstChannels(cfg.ignitionOutputs)
    && s.fuel <= FirstChannels(cfg.injectorChannels)
    && (cfg.ignitionOutputs <= cfg.injectorChannels ==> s.ignition <= s.fuel)
    && (forall c | c in s.fuel && c !in s.ignition && c < cfg.ignitionOutputs :: c in s.pending)
  }

  /** Since fuel came on where ignition waits, the engine has turned as far as the counter is past the last draw. */
  ghost predicate Invariant(cfg: Config, m: Machinery, h: History, now: Clock) {
    && MasksFit(cfg, m.cut)
    && h.Keys == m.cut.fuel
    && m.lastRev + 4 < TWO32
    && (forall c | c in m.cut.fuel && c !in m.cut.ignition && c < cfg.ignitionOutputs ::
          h[c] + now.counter <= now.turns + m.lastRev)
  }

  /** The engine turns on. The counter may go back at any time, but never gains on the engine. */
  predicate Later(now: Clock, t: Moment) {
    && now.turns <= t.turns && t.reading.revolutions + now.turns <= now.counter + t.turns
    && t.reading.revolutions + 4 < TWO32
  }

  lemma RollMembers(s: CutState, percent: nat, draws: seq<nat>, c: nat)
    requires s.fuel <= ALL_CHANNELS && s.ignition <= ALL_CHANNELS
    ensures var s' := Roll(s, Both, true, percent, draws);
      if c < Min(|draws|, 8) then
        if draws[c] < percent then c !in s'.ignition && c !in s'.fuel && (c in s'.pending <==> c in s.pending)
        else c in s'.fuel && (c in s'.ignition <==> c in s.ignition || c in s.fuel)
             && (c in s'.pending <==> c in s.pending || c !in s.fuel)
      else
        && (c in s'.ignition <==> c in s.ignition) && (c in s'.fuel <==> c in s.fuel)
        && (c in s'.pending <==> c in s.pending)
  {
  }

  /** A rolling step, seen one channel at a time. */
  lemma RollingChannel(cfg: Config, m: Machinery, h: History, now: Clock, t: Moment, c: nat)
    requires cfg.SupportsPending() && Invariant(cfg, m, h, now) && Later(now, t)
    ensures var r := t.reading;
      var m' := RollingStep(cfg, m, r);
      var s, s' := m.cut, MaskUnused(m'.cut, cfg);
      && m'.lastRev + 4 < TWO32
      && (c in s'.ignition ==> c < cfg.ignitionOutputs && c in ALL_CHANNELS)
      && (c in s'.fuel ==> c < cfg.injectorChannels && c in ALL_CHANNELS)
      && (c in s'.ignition && c < cfg.injectorChannels ==> c in s'.fuel || (c in s.ignition && c !in s.fuel))
      && (c in s'.fuel && c !in s'.ignition && c < cfg.ignitionOutputs ==> c in s'.pending)
      && (c in s'.fuel && c !in s'.ignition && c < cfg.ignitionOutputs && c in s.fuel ==>
            h[c] + r.revolutions <= t.turns + m'.lastRev)
      && (c in s'.fuel && c !in s.fuel ==> m'.lastRev == r.revolutions)
      && (c in s'.ignition && c !in s.ignition ==> FuelledForTwo(h, c, t.turns))
  {
    var r := t.reading;
    var lastRev := FirstRev(m.lastRev, r.revolutions);
    if Redraws(cfg, lastRev, r.revolutions) {
      RollMembers(m.cut, r.cutPercent, r.draws, c);
    }
  }

  lemma FixedCutsFit(cfg: Config, h: History, m: Machinery, r: Reading)
    requires cfg.protect.Both? && Decide(cfg, r) != CutRolling
    ensures var m' := CutStep(cfg, m, r);
      && MasksFit(cfg, m'.cut) && m'.lastRev == m.lastRev
      && (forall c | c in m'.cut.fuel && c < cfg.ignitionOutputs :: c in m'.cut.ignition)
  {
  }

  lemma RollingCutFits(cfg: Config, m: Machinery, h: History, now: Clock, t: Moment)
    requires cfg.SupportsPending() && Invariant(cfg, m, h, now) && Later(now, t)
    requires Decide(cfg, t.reading).CutRolling?
    ensures var m' := CutStep(cfg, m, t.reading);
      Invariant(cfg, m', Record(h, m.cut, m'.cut, t.turns), t.Now())
  {
    var m' := CutStep(cfg, m, t.reading);
    forall c: nat
      ensures c in m'.cut.ignition ==> c in FirstChannels(cfg.ignitionOutputs)
      ensures c in m'.cut.fuel ==> c in FirstChannels(cfg.injectorChannels)
      ensures cfg.ignitionOutputs <= cfg.injectorChannels && c in m'.cut.ignition ==> c in m'.cut.fuel
      ensures c in m'.cut.fuel && c !in m'.cut.ignition && c < cfg.ignitionOutputs ==> c in m'.cut.pending
      ensures c in m'.cut.fuel && c !in m'.cut.ignition && c < cfg.ignitionOutputs ==>
                Record(h, m.cut, m'.cut, t.turns)[c] + t.reading.revolutions <= t.turns + m'.lastRev
    {
      RollingChannel(cfg, m, h, now, t, c);
    }
    RollingChannel(cfg, m, h, now, t, 0);
  }

  /** Every evaluation keeps the invariant, whichever way the cut is decided. */
  lemma StepKeepsInvariant(cfg: Config, m: Machinery, h: History, now: Clock, t: Moment)
    requires cfg.SupportsPending() && Invariant(cfg, m, h, now) && Later(now, t)
    ensures var m' := CutStep(cfg, m, t.reading);
      Invariant(cfg, m', Record(h, m.cut, m'.cut, t.turns), t.Now())
  {
    if Decide(cfg, t.reading).CutRolling? {
      RollingCutFits(cfg, m, h, now, t);
    } else {
      FixedCutsFit(cfg, h, m, t.reading);
    }
  }

  /** The ignition of channel `c` comes back on in this step. */
  predicate Returns(cfg: Config, m: Machinery, r: Reading, c: nat) {
    c !in m.cut.ignition && c in CutStep(cfg, m, r).cut.ignition
  }

  /**
    Ignition comes back on a channel without two revolutions of fuel exactly when the cut is dropped
    altogether and such a channel was off; a rolling step never does it.
  */
  lemma EarlyReturnIff(cfg: Config, m: Machinery, h: History, now: Clock, t: Moment, c: nat)
    requires cfg.SupportsPending() && Invariant(cfg, m, h, now) && Later(now, t)
    ensures Returns(cfg, m, t.reading, c) && !FuelledForTwo(h, c, t.turns) <==>
      && Decide(cfg, t.reading).CutNothing? && c in FirstChannels(cfg.ignitionOutputs)
      && c !in m.cut.ignition && !FuelledForTwo(h, c, t.turns)
  {
    if Decide(cfg, t.reading).CutRolling? {
      RollingChannel(cfg, m, h, now, t, c);
    }
  }

  // ------------------------------------------------------------------ whole runs

  function RunCut(cfg: Config, m: Machinery, ts: seq<Moment>): Machinery
    decreases |ts|
  {
    if ts == [] then m else RunCut(cfg, CutStep(cfg, m, ts[0].reading), ts[1..])
  }

  predicate Ordered(now: Clock, ts: seq<Moment>)
    decreases |ts|
  {
    ts == [] || (Later(now, ts[0]) && Ordered(ts[0].Now(), ts[1..]))
  }

  /**
    Throughout a run, ignition only returns with two true revolutions of fuel or because the cut is
    dropped.
  */
  ghost predicate ReturnsAreSafe(cfg: Config, m: Machinery, h: History, ts: seq<Moment>)
    requires h.Keys == m.cut.fuel
    decreases |ts|
  {
    ts == [] ||
    var m' := CutStep(cfg, m, ts[0].reading);
    && (forall c | Returns(cfg, m, ts[0].reading, c) ::
          FuelledForTwo(h, c, ts[0].turns) || Decide(cfg, ts[0].reading).CutNothing?)
    && ReturnsAreSafe(cfg, m', Record(h, m.cut, m'.cut, ts[0].turns), ts[1..])
  }

  /** However often the counter goes back. */
  lemma {:induction false} IgnitionWaitsForFuel(cfg: Config, m: Machinery, h: History, now: Clock, ts: seq<Moment>)
    requires cfg.SupportsPending() && Invariant(cfg, m, h, now) && Ordered(now, ts)
    ensures ReturnsAreSafe(cfg, m, h, ts)
    decreases |ts|
  {
    if ts != [] {
      var t, m' := ts[0], CutStep(cfg, m, ts[0].reading);
      forall c | Returns(cfg, m, t.reading, c)
        ensures FuelledForTwo(h, c, t.turns) || Decide(cfg, t.reading).CutNothing?
      {
        EarlyReturnIff(cfg, m, h, now, t, c);
      }
      StepKeepsInvariant(cfg, m, h, now, t);
      IgnitionWaitsForFuel(cfg, m', Record(h, m.cut, m'.cut, t.turns), t.Now(), ts[1..]);
    }
  }

  /** Over every run mixing no cut, full cut and rolling cut, the masks fit, however often the counter goes back. */
  lemma {:induction false} MasksFitThroughout(cfg: Config, m: Machinery, h: History, now: Clock, ts: seq<Moment>)
    requires cfg.SupportsPending() && Invariant(cfg, m, h, now) && Ordered(now, ts)
    ensures MasksFit(cfg, RunCut(cfg, m, ts).cut)
    decreases |ts|
  {
    if ts != [] {
      var t, m' := ts[0], CutStep(cfg, m, ts[0].reading);
      StepKeepsInvariant(cfg, m, h, now, t);
      MasksFitThroughout(cfg, m', Record(h, m.cut, m'.cut, t.turns), t.Now(), ts[1..]);
    }
  }

  /** The invariant holds after the first evaluation of an engine that has just started. */
  lemma InvariantFromStart(cfg: Config, t: Moment)
    requires cfg.SupportsPending() && !t.reading.synced
    ensures var m := CutStep(cfg, Machinery(CUT_NONE, 0), t.reading);
      Invariant(cfg, m, map[], t.Now())
  {
  }

  /** After a step without a cut, ignition implies fuel if and only if every ignition output has an injector channel. */
  lemma IgnitionImpliesFuelIff(cfg: Config, m: Machinery, r: Reading)
    requires Decide(cfg, r).CutNothing?
    ensures CutStep(cfg, m, r).cut.ignition <= CutStep(cfg, m, r).cut.fuel <==>
            Min(cfg.ignitionOutputs, 8) <= Min(cfg.injectorChannels, 8)
  {
    var c := Min(cfg.injectorChannels, 8);
    assert forall x | x in FirstChannels(cfg.ignitionOutputs) :: x < Min(cfg.ignitionOutputs, 8);
    if c < Min(cfg.ignitionOutputs, 8) {
      assert c in FirstChannels(cfg.ignitionOutputs) && c !in FirstChannels(cfg.injectorChannels);
      assert c in CutStep(cfg, m, r).cut.ignition && c !in CutStep(cfg, m, r).cut.fuel;
    } else {
      assert CutStep(cfg, m, r).cut.ignition == FirstChannels(cfg.ignitionOutputs);
      assert CutStep(cfg, m, r).cut.fuel == FirstChannels(cfg.injectorChannels);
    }
  }

  /** Two revolutions after a draw, and before the next, pending ignition is back on every fuelled channel. */
  lemma PendingIsServed(cfg: Config, m: Machinery, h: History, now: Clock, r: Reading)
    requires cfg.SupportsPending() && Invariant(cfg, m, h, now)
    requires Decide(cfg, r).CutRolling? && m.lastRev != 0
    requires m.lastRev + 2 <= r.revolutions < m.lastRev + 4
    ensures var s' := CutStep(cfg, m, r).cut;
      && s'.fuel == m.cut.fuel
      && (forall c | c in m.cut.fuel && c < cfg.ignitionOutputs :: c in s'.ignition)
  {
    if m.cut.pending == {} {
      assert forall c | c in m.cut.fuel && c < cfg.ignitionOutputs :: c in m.cut.ignition;
    }
  }

  /** This reading makes the rolling cut draw anew. */
  predicate RollsAnew(cfg: Config, m: Machinery, r: Reading) {
    Decide(cfg, r).CutRolling? && Redraws(cfg, FirstRev(m.lastRev, r.revolutions), r.revolutions)
  }

  lemma DrawnOnHasFuel(cfg: Config, m: Machinery, h: History, now: Clock, r: Reading, c: nat)
    requires cfg.SupportsPending() && Invariant(cfg, m, h, now) && RollsAnew(cfg, m, r)
    requires c < Min(|r.draws|, 8) && r.draws[c] >= r.cutPercent && r.revolutions + 4 < TWO32
    ensures var m' := CutStep(cfg, m, r);
      m'.lastRev == r.revolutions && (c in m'.cut.fuel <==> c < cfg.injectorChannels)
  {
    RollMembers(m.cut, r.cutPercent, r.draws, c);
  }

  lemma OutputWithoutInjectorStepsOff(cfg: Config, m: Machinery, h: History, now: Clock, t: Moment, c: nat)
    requires cfg.SupportsPending() && Invariant(cfg, m, h, now) && Later(now, t)
    requires Decide(cfg, t.reading).CutRolling? && c >= cfg.injectorChannels && c !in m.cut.ignition
    ensures c !in CutStep(cfg, m, t.reading).cut.ignition
  {
    RollingChannel(cfg, m, h, now, t, c);
  }

  predicate AllRolling(cfg: Config, ts: seq<Moment>) { forall t | t in ts :: Decide(cfg, t.reading).CutRolling? }

  /** An ignition output without an injector channel, once cut, stays off for as long as the cut is rolling. */
  lemma {:induction false} OutputWithoutInjectorStaysOff(
      cfg: Config, m: Machinery, h: History, now: Clock, ts: seq<Moment>, c: nat)
    requires cfg.SupportsPending() && Invariant(cfg, m, h, now) && Ordered(now, ts) && AllRolling(cfg, ts)
    requires c >= cfg.injectorChannels && c !in m.cut.ignition
    ensures c !in RunCut(cfg, m, ts).cut.ignition
    decreases |ts|
  {
    if ts != [] {
      var t, m' := ts[0], CutStep(cfg, m, ts[0].reading);
      OutputWithoutInjectorStepsOff(cfg, m, h, now, t, c);
      StepKeepsInvariant(cfg, m, h, now, t);
      OutputWithoutInjectorStaysOff(cfg, m', Record(h, m.cut, m'.cut, t.turns), t.Now(), ts[1..], c);
    }
  }

  /**
    An ignition output that is off when a draw leaves it on is back two revolutions later, and before
    the next draw, if and only if it has an injector channel.
  */
  lemma DrawnOutputReturnsIff(cfg: Config, m: Machinery, h: History, now: Clock, t1: Moment, t2: Moment, c: nat)
    requires cfg.SupportsPending() && Invariant(cfg, m, h, now) && Later(now, t1) && Later(t1.Now(), t2)
    requires m.lastRev != 0 && RollsAnew(cfg, m, t1.reading) && Decide(cfg, t2.reading).CutRolling?
    requires t1.reading.revolutions + 2 <= t2.reading.revolutions < t1.reading.revolutions + 4
    requires c < cfg.ignitionOutputs && c < Min(|t1.reading.draws|, 8) && t1.reading.draws[c] >= t1.reading.cutPercent
    requires c !in m.cut.ignition
    ensures c in CutStep(cfg, CutStep(cfg, m, t1.reading), t2.reading).cut.ignition <==> c < cfg.injectorChannels
  {
    var m' := CutStep(cfg, m, t1.reading);
    var h' := Record(h, m.cut, m'.cut, t1.turns);
    StepKeepsInvariant(cfg, m, h, now, t1);
    DrawnOnHasFuel(cfg, m, h, now, t1.reading, c);
    if c < cfg.injectorChannels {
      PendingIsServed(cfg, m', h', t1.Now(), t2.reading);
    } else {
      OutputWithoutInjectorStepsOff(cfg, m, h, now, t1, c);
      OutputWithoutInjectorStepsOff(cfg, m', h', t1.Now(), t2, c);
    }
  }

  /**
    After a restart the revolution counter begins again at zero, and the revolution of the last draw
    does not. Until the counter has caught up, no channel changes but by masking: the cut is frozen.
  */
  lemma RollingCutIsFrozen(cfg: Config, m: Machinery, r: Reading)
    requires Decide(cfg, r).CutRolling? && r.revolutions < m.lastRev && m.lastRev + 4 < TWO32
    ensures CutStep(cfg, m, r) == m.(cut := MaskUnused(m.cut, cfg))
  {
  }

  /** The counter has not caught up throughout. */
  predicate AllBehind(m: Machinery, ts: seq<Moment>) { forall t | t in ts :: t.reading.revolutions < m.lastRev }

  /** Over a whole run of rolling steps after a restart, with any draws, the masks are those at its start. */
  lemma {:induction false} FrozenThroughout(cfg: Config, m: Machinery, ts: seq<Moment>)
    requires AllRolling(cfg, ts) && AllBehind(m, ts) && m.lastRev + 4 < TWO32 && ts != []
    ensures RunCut(cfg, m, ts) == m.(cut := MaskUnused(m.cut, cfg))
    decreases |ts|
  {
    var m' := m.(cut := MaskUnused(m.cut, cfg));
    RollingCutIsFrozen(cfg, m, ts[0].reading);
    if |ts| > 1 {
      FrozenThroughout(cfg, m', ts[1..]);
      MaskTwice(m.cut, cfg);
    }
  }

  lemma MaskTwice(s: CutState, cfg: Config)
    ensures MaskUnused(MaskUnused(s, cfg), cfg) == MaskUnused(s, cfg)
  {
  }

  // ------------------------------------------------------------------ the limit itself

  /** The limits in force at this reading, in RPM. */
  function Limits(cfg: Config, r: Reading): set<int> {
    {100 * match cfg.revLimitMode case Fixed => cfg.hardRevLimit case Coolant => r.coolantLimit case NoLimit => 255}
    + (if r.protecting then {100 * cfg.protectRevLimit} else {})
    + (if r.launching then {100 * cfg.launchRevLimit} else {})
    + (if r.flatShifting then {r.clutchRpm} else {})
  }

  /** The engine is cut at the lowest of the limits in force. */
  lemma MaxRpmIsLowestLimit(cfg: Config, r: Reading)
    ensures MaxRpm(cfg, r) in Limits(cfg, r) && forall l | l in Limits(cfg, r) :: MaxRpm(cfg, r) <= l
  {
  }

  /** At or above the limit, nothing that the tune protects by cutting is left on; all else is left as configured. */
  lemma LimitIsHard(cfg: Config, m: Machinery, r: Reading)
    requires Running(cfg, r) && !cfg.protect.Off? && !BelowLimits(cfg, r)
    ensures var m' := CutStep(cfg, m, r);
      && m'.cut.fuel == (if cfg.protect.Ignition? then FirstChannels(cfg.injectorChannels) else {})
      && m'.cut.ignition == (if cfg.protect.Fuel? then FirstChannels(cfg.ignitionOutputs) else {})
      && m'.cut.pending == {} && m'.cut.status.Full? && m'.lastRev == m.lastRev
  {
    MaxRpmIsLowestLimit(cfg, r);
    assert Decide(cfg, r).CutFully?;
  }

  /** The engine is in sync and has made its first revolutions. */
  predicate Running(cfg: Config, r: Reading) { r.synced && cfg.initialCycles <= r.revolutions }

  predicate BelowLimits(cfg: Config, r: Reading) { forall l | l in Limits(cfg, r) :: r.rpm < l }

  /** No limit is closer than the window of the rolling cut. */
  predicate BelowWindow(cfg: Config, r: Reading) {
    forall l | l in Limits(cfg, r) :: r.rpm + cfg.rollingWindow <= l
  }

  /** Until the engine runs, everything is off. */
  lemma StartingEngineIsCut(cfg: Config, m: Machinery, r: Reading)
    requires !Running(cfg, r)
    ensures CutStep(cfg, m, r) == Machinery(CutState({}, {}, {}, Full), m.lastRev)
  {
    assert FullCut(Both) == CutState({}, {}, {}, Full);
    assert {} * FirstChannels(cfg.ignitionOutputs) == {} == {} * FirstChannels(cfg.injectorChannels);
  }

  /** Nothing is cut without a protection, or below the limits, unless a rolling cut has its window there. */
  lemma NothingIsCutBelow(cfg: Config, m: Machinery, r: Reading)
    requires Running(cfg, r)
    requires cfg.protect.Off? || (BelowLimits(cfg, r) && (!cfg.rollingCut || BelowWindow(cfg, r)))
    ensures CutStep(cfg, m, r) ==
      Machinery(CutState({}, FirstChannels(cfg.ignitionOutputs), FirstChannels(cfg.injectorChannels), None), m.lastRev)
  {
    MaxRpmIsLowestLimit(cfg, r);
    assert Decide(cfg, r).CutNothing?;
    AllChannels(cfg.ignitionOutputs);
    AllChannels(cfg.injectorChannels);
  }

  lemma AllChannels(n: nat)
    ensures ALL_CHANNELS * FirstChannels(n) == FirstChannels(n)
  {
  }

  // ------------------------------------------------------------------ inside the window

  /** Below the limits, but by less than the window. */
  predicate InWindow(cfg: Config, r: Reading) {
    Running(cfg, r) && !cfg.protect.Off? && cfg.rollingCut && BelowLimits(cfg, r) && !BelowWindow(cfg, r)
  }

  lemma WindowRolls(cfg: Config, r: Reading)
    ensures InWindow(cfg, r) <==> Decide(cfg, r).CutRolling?
  {
    MaxRpmIsLowestLimit(cfg, r);
  }

  /** The revolution of the last draw; at the first time, this one. */
  function LastDraw(m: Machinery, r: Reading): nat { if m.lastRev == 0 then r.revolutions else m.lastRev }

  /** How many revolutions a draw lasts: an engine cycle, or two where cylinders share an output. */
  function DrawLasts(cfg: Config): nat {
    (if cfg.fourStroke then 2 else 1) * (if cfg.sequentialSpark && cfg.sequentialFuel then 1 else 2)
  }

  predicate DrawIsDue(cfg: Config, m: Machinery, r: Reading) {
    r.revolutions >= LastDraw(m, r) + DrawLasts(cfg)
  }

  /** Ignition waits for its fuel only in four-stroke engines with shared outputs that cut both. */
  predicate IgnitionWaits(cfg: Config) {
    cfg.fourStroke && !(cfg.sequentialSpark && cfg.sequentialFuel) && cfg.protect.Both?
  }

  predicate PendingIsDue(m: Machinery, r: Reading) {
    m.cut.pending != {} && r.revolutions >= LastDraw(m, r) + 2
  }

  /** In the window, the masks last drawn stay in force until ignition that waits is due, or a draw. */
  lemma WindowBetweenDraws(cfg: Config, m: Machinery, r: Reading)
    requires InWindow(cfg, r) && LastDraw(m, r) + 4 < TWO32 && !DrawIsDue(cfg, m, r)
    ensures var m' := CutStep(cfg, m, r);
      && m'.lastRev == LastDraw(m, r)
      && m'.cut.fuel == m.cut.fuel * FirstChannels(cfg.injectorChannels)
      && m'.cut.ignition ==
         (if PendingIsDue(m, r) then m.cut.fuel else m.cut.ignition) * FirstChannels(cfg.ignitionOutputs)
      && m'.cut.pending == (if PendingIsDue(m, r) then {} else m.cut.pending)
      && m'.cut.status == (if PendingIsDue(m, r) then Rolling else m.cut.status)
  {
    WindowRolls(cfg, r);
  }

  /**
    A draw, one channel at a time, whatever is protected: a channel below the percentage loses what the
    tune cuts, any other has fuel and, unless it has to wait, ignition.
  */
  lemma WindowDraws(cfg: Config, m: Machinery, r: Reading, c: nat)
    requires InWindow(cfg, r) && LastDraw(m, r) + 4 < TWO32 && r.revolutions + 2 < TWO32 && DrawIsDue(cfg, m, r)
    requires c < |r.draws| && c < 8
    ensures var m' := CutStep(cfg, m, r);
      var off := r.draws[c] < r.cutPercent;
      && m'.lastRev == r.revolutions && m'.cut.status.Rolling?
      && (c in m'.cut.fuel <==>
            c < cfg.injectorChannels && (!off || (cfg.protect.Ignition? && c in m.cut.fuel)))
      && (c in m'.cut.ignition <==>
            && c < cfg.ignitionOutputs
            && if off then cfg.protect.Fuel? && c in m.cut.ignition
               else !IgnitionWaits(cfg) || c in m.cut.fuel || c in m.cut.ignition)
      && (c in m'.cut.pending <==> c in m.cut.pending || (IgnitionWaits(cfg) && !off && c !in m.cut.fuel))
  {
    WindowRolls(cfg, r);
    DrawnOnce(cfg, m, r, c);
  }

  lemma DrawnOnce(cfg: Config, m: Machinery, r: Reading, c: nat)
    requires !cfg.protect.Off? && c < |r.draws| && c < 8
    ensures var s' := Roll(m.cut, cfg.protect, cfg.SupportsPending(), r.cutPercent, r.draws);
      var off := r.draws[c] < r.cutPercent;
      && s'.status.Rolling?
      && (c in s'.fuel <==> !off || (cfg.protect.Ignition? && c in m.cut.fuel))
      && (c in s'.ignition <==>
            if off then cfg.protect.Fuel? && c in m.cut.ignition
            else !IgnitionWaits(cfg) || c in m.cut.fuel || c in m.cut.ignition)
      && (c in s'.pending <==> c in m.cut.pending || (IgnitionWaits(cfg) && !off && c !in m.cut.fuel))
  {
    assert c in DrawnOff(r.draws, r.cutPercent) <==> r.draws[c] < r.cutPercent;
    assert c in DrawnOn(r.draws, r.cutPercent) <==> r.draws[c] >= r.cutPercent;
  }

  lemma MaskedOutside(cfg: Config, m: Machinery, r: Reading, c: nat)
    ensures var s' := CutStep(cfg, m, r).cut;
      c in s'.fuel || c in s'.ignition ==> c < 8 && c < cfg.Channels()
  {
  }

  /** When every draw is below the percentage, what the tune protects by cutting is off. */
  lemma WindowCutsAll(cfg: Config, m: Machinery, r: Reading)
    requires InWindow(cfg, r) && LastDraw(m, r) + 4 < TWO32 && r.revolutions + 2 < TWO32 && DrawIsDue(cfg, m, r)
    requires |r.draws| == cfg.Channels() && (forall d | d in r.draws :: d < r.cutPercent)
    ensures var s' := CutStep(cfg, m, r).cut;
      (!cfg.protect.Ignition? ==> s'.fuel == {}) && (!cfg.protect.Fuel? ==> s'.ignition == {})
  {
    var s' := CutStep(cfg, m, r).cut;
    WindowRolls(cfg, r);
    forall c | c in s'.fuel || c in s'.ignition
      ensures c in s'.fuel ==> cfg.protect.Ignition?
      ensures c in s'.ignition ==> cfg.protect.Fuel?
    {
      MaskedOutside(cfg, m, r, c);
      assert r.draws[c] in r.draws;
      WindowDraws(cfg, m, r, c);
    }
  }
}
