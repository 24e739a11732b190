/**
  Self-stabilisation: a decoder fresh from set-up, or from the reset after a stall, fed by a wheel
  turning at constant speed that it first sees at any tooth, ends up on the wheel and stays there.
*/
module MissingToothStart {
  import opened Machine
  import opened FixedPoint
  import opened MissingTooth
  import opened MissingToothTracking

  /** The tooth now passing, the true time, and the true interval since the tooth before. */
  datatype Position = Position(tooth: int, time: nat, interval: nat)

  /**
    An engine being started: what the decoder held before, whether it is a restart after a stall while
    a log was being taken, the first tooth seen, when, and the readings at each later pulse.
  */
  datatype Start = Start(
    cfg: Config,
    prior: State,
    logging: bool,
    period: nat,
    gap: nat,
    first: int,
    time: nat,
    rpm: nat -> uint16,
    camHigh: nat -> bool)
  {
    /** The wheel turns at constant speed, in the range the decoder was built for. */
    ghost predicate Valid() {
      && cfg.Valid() && cfg.NeedsNoCam()
      && 1 <= first <= cfg.ActualTeeth()
      && 0 < period && SetupFilterTime(cfg.teeth) <= period
      && gap == (cfg.missing + 1) * period && InRange(cfg, gap + period)
      && (!logging ==> SetupFilterTime(cfg.teeth) <= Stamp(time))
    }

    /** What most of the proofs need of it. */
    ghost predicate Steady() {
      && cfg.Valid() && cfg.NeedsNoCam()
      && 1 <= first <= cfg.ActualTeeth()
      && 0 < 2 * period <= gap && 3 * (gap + period) < TWO32
    }

    /**
      The teeth already counted when the first one is seen. The count wraps at 16 bits, and close to
      the top it is back at zero by the third tooth.
    */
    function Stale(): int {
      if !logging then 0 else if prior.count < TWO16 - 3 then prior.count else prior.count - TWO16
    }

    /** The pulse of the first tooth 1 that can be recognised: two earlier ones are needed. */
    function GapAt(): int {
      if first < cfg.ActualTeeth() then cfg.ActualTeeth() - first + 1 else cfg.ActualTeeth() + 1
    }

    /** The pulse at which the count, if nothing stops it, first exceeds the teeth of the wheel. */
    function OverflowAt(): int {
      if cfg.ActualTeeth() - Stale() < 2 then 2 else cfg.ActualTeeth() - Stale()
    }

    /** The count overflows on the way to the first tooth 1 that can be recognised. */
    predicate FalselySyncs() {
      if first == cfg.ActualTeeth() then Stale() >= 0 else first + 2 <= cfg.ActualTeeth() && Stale() >= first
    }

    /** It does so at a tooth other than tooth 2, so that tooth 1 comes too early for the count. */
    predicate LosesSync() {
      FalselySyncs() && !(first == cfg.ActualTeeth() && Stale() + 2 >= cfg.ActualTeeth())
    }

    /** The number of pulses, after the first, that it takes to lock on. */
    function LockedFrom(): int {
      if LosesSync() then GapAt() + cfg.ActualTeeth() else GapAt()
    }

    /** The loss counter once locked. */
    function LossesInTheEnd(): uint8 { if LosesSync() then Next8(prior.syncLoss) else prior.syncLoss }

    function At(n: nat): (pos: Position)
      requires Valid()
      ensures 1 <= pos.tooth <= cfg.ActualTeeth()
    {
      if n == 0 then Position(first, time, 0)
      else
        var before := At(n - 1);
        var tooth := NextTooth(cfg, before.tooth);
        var interval := if tooth == 1 then gap else period;
        Position(tooth, before.time + interval, interval)
    }

    function PulseAt(n: nat): Pulse
      requires Valid()
    {
      Pulse(Stamp(At(n).time), rpm(n), camHigh(n))
    }

    function StateAt(n: nat): State
      requires Valid()
    {
      PrimaryStep(cfg, if n == 0 then StalledState(cfg, logging, prior) else StateAt(n - 1), PulseAt(n))
    }

    /** No pulse so far was stamped zero, and the engine has been turning slowly until the lock. */
    ghost predicate Quiet(n: nat)
      requires Valid()
    {
      && (forall i: nat | i <= n :: Stamp(At(i).time) != 0)
      && (forall i: nat | i <= n && i <= LockedFrom() :: rpm(i) < 2000)
    }
  }

  lemma TargetValue(missing: uint8, gap: uint32)
    requires 3 * gap < TWO32 && gap * missing < TWO32
    ensures TargetGap(missing, gap) == if missing == 1 then 3 * gap / 2 else gap * missing
  {
    Unwrapped(3 * gap);
    ScaleMonotone(gap, 0, missing);
    Unwrapped(gap * missing);
  }

  lemma Products(m: nat, p: nat)
    requires m >= 1
    ensures (m + 1) * p == m * p + p && p <= m * p && p * m == m * p
    ensures m * p <= ((m + 1) * p) * m
    ensures ((m + 1) * p + p) * m == ((m + 1) * p) * m + p * m
  {
    assert (m + 1) * p == m * p + p;
    assert ((m + 1) * p) * m == (m * p) * m + p * m;
    assert (m * p) * m >= 0;
  }

  /** How the target gap compares with the intervals of a wheel at constant speed. */
  lemma TargetsAtConstantSpeed(st: Start)
    requires st.Valid()
    ensures var m, p, g := st.cfg.missing, st.period, st.gap;
      && st.Steady() && InRange(st.cfg, p) && InRange(st.cfg, g)
      && p <= TargetGap(m, p) < g && p <= TargetGap(m, g) && p <= TargetGap(m, g + p)
  {
    var m, p, g := st.cfg.missing, st.period, st.gap;
    Products(m, p);
    TargetValue(m, p);
    TargetValue(m, g);
    TargetValue(m, g + p);
  }

  lemma ValidIsSteady(st: Start)
    requires st.Valid()
    ensures st.Steady()
  {
    TargetsAtConstantSpeed(st);
  }

  /** After a regular interval or more, another regular interval is never above the target. */
  lemma RegularIsExplained(st: Start, before: nat)
    requires st.Valid() && (before == st.period || before == st.gap || before == st.gap + st.period)
    ensures !(st.period > TargetGap(st.cfg.missing, before))
  {
    TargetsAtConstantSpeed(st);
  }

  /** After a regular interval, the gap always is. */
  lemma GapIsNotExplained(st: Start)
    requires st.Valid()
    ensures st.gap > TargetGap(st.cfg.missing, st.period)
  {
    TargetsAtConstantSpeed(st);
  }

  /** A regular tooth, as the decoder sees it. */
  lemma RegularDecides(st: Start, s: State, p: Pulse, time: int, before: nat)
    requires st.Valid() && StampsUsable(s) && s.filterTime <= st.period
    requires before == st.period || before == st.gap || before == st.gap + st.period
    requires s.last == Stamp(time) && s.lastMinusOne == Stamp(time - before) && p.now == Stamp(time + st.period)
    ensures Elapsed(p.now, s.last) == st.period
    ensures PrimaryStep(st.cfg, s, p) == Decide(st.cfg, Counted(s), p, false)
  {
    ValidIsSteady(st);
    RegularIsExplained(st, before);
    StepDecidesFor(st.cfg, s, p, time, before, st.period, false);
  }

  /** A tooth after a gap that follows a regular interval, as the decoder sees it. */
  lemma GapDecides(st: Start, s: State, p: Pulse, time: int)
    requires st.Valid() && StampsUsable(s) && s.filterTime <= st.period
    requires s.last == Stamp(time) && s.lastMinusOne == Stamp(time - st.period) && p.now == Stamp(time + st.gap)
    ensures PrimaryStep(st.cfg, s, p) == Decide(st.cfg, Counted(s), p, true)
  {
    ValidIsSteady(st);
    GapIsNotExplained(st);
    StepDecidesFor(st.cfg, s, p, time, st.period, st.gap, true);
  }

  /** Before the first tooth 1 that can be recognised, the tooth now passing. */
  ghost predicate BeforeGap(st: Start, n: nat, tooth: int) {
    && n < st.GapAt()
    && tooth == if st.first < st.cfg.ActualTeeth() then st.first + n else n
  }

  /** Sync not yet found: every tooth seen so far has been counted, on top of the stale count. */
  ghost predicate Searching(st: Start, s: State, n: nat, pos: Position) {
    && n >= 1 && s.sync.None? && BeforeGap(st, n, pos.tooth)
    && s.count == (st.Stale() + n + 1) % TWO16 && (n >= 2 ==> n < st.OverflowAt())
    && 0 < pos.interval <= pos.time
    && pos.interval == (if pos.tooth == 1 then st.gap else st.period)
    && s.last == Stamp(pos.time) && s.lastMinusOne == Stamp(pos.time - pos.interval)
    && s.filterTime <= st.period && s.syncLoss == st.prior.syncLoss
  }

  /** The tooth count has overflowed, a false sync, and goes on from one. */
  ghost predicate FalseSync(st: Start, s: State, n: nat, pos: Position) {
    && st.LosesSync() && st.OverflowAt() <= n && BeforeGap(st, n, pos.tooth)
    && s.sync.Full? && s.count == n - st.OverflowAt() + 1 && s.filterTime <= st.period
    && st.period <= pos.time
    && s.last == Stamp(pos.time) && s.lastMinusOne == Stamp(pos.time - st.period)
    && s.syncLoss == st.prior.syncLoss
  }

  /** The false sync has been noticed at tooth 1, which leaves the stamps as they were. */
  ghost predicate Lost(st: Start, s: State, n: nat, pos: Position) {
    && st.LosesSync() && n == st.GapAt() && pos.tooth == 1
    && s.sync.None? && 0 < s.count < st.cfg.ActualTeeth() && s.filterTime <= st.period
    && st.gap + st.period <= pos.time
    && s.last == Stamp(pos.time - st.gap) && s.lastMinusOne == Stamp(pos.time - st.gap - st.period)
    && s.syncLoss == st.LossesInTheEnd()
  }

  /** Tooth 2 has been taken for tooth 1, so the count runs one behind until the gap. */
  ghost predicate Behind(st: Start, s: State, n: nat, pos: Position) {
    && st.FalselySyncs() && 2 <= pos.tooth
    && (if st.LosesSync() then pos.tooth == n - st.GapAt() + 1 else BeforeGap(st, n, pos.tooth))
    && s.sync.Full? && s.count == pos.tooth - 1 && s.filterTime <= st.period
    && s.last == Stamp(pos.time)
    && (var interval := if pos.tooth == 2 && st.LosesSync() then st.gap + st.period else st.period;
        interval <= pos.time && s.lastMinusOne == Stamp(pos.time - interval))
    && s.syncLoss == st.LossesInTheEnd()
  }

  /** The decoder holds the truth. */
  ghost predicate Locked(st: Start, s: State, pos: Position) {
    && pos.interval == (if pos.tooth == 1 then st.gap else st.period)
    && s.syncLoss == st.LossesInTheEnd()
    && exists w: Wheel :: MatchesAt(st.cfg, s, w, pos)
  }

  ghost predicate MatchesAt(cfg: Config, s: State, w: Wheel, pos: Position) {
    w.tooth == pos.tooth && w.time == pos.time && w.interval == pos.interval && Matches(cfg, s, w)
  }

  ghost predicate Phase(st: Start, s: State, n: nat, pos: Position) {
    if n >= st.LockedFrom() then Locked(st, s, pos)
    else Searching(st, s, n, pos) || FalseSync(st, s, n, pos) || Lost(st, s, n, pos) || Behind(st, s, n, pos)
  }

  /** The next position of the wheel and the pulse it gives. */
  ghost predicate Follows(st: Start, pos: Position, pos': Position, p: Pulse) {
    && pos'.tooth == NextTooth(st.cfg, pos.tooth)
    && pos'.interval == (if pos'.tooth == 1 then st.gap else st.period)
    && pos'.time == pos.time + pos'.interval
    && p.now == Stamp(pos'.time)
  }

  /** Becoming exact: the handler takes the tooth-one branch at the true tooth 1. */
  lemma LockOn(st: Start, s: State, s': State, p: Pulse, pos: Position, pos': Position)
    requires st.Valid() && Follows(st, pos, pos', p) && pos'.tooth == 1
    requires s.last == Stamp(pos.time) && p.now != 0 && s.last != 0
    requires s.syncLoss == st.LossesInTheEnd()
    requires s' == ToothOne(st.cfg, Counted(s), p)
    ensures Locked(st, s', pos')
  {
    var w := Wheel(1, pos'.time, pos'.interval, pos'.time, 0, 0, s'.startRevolutions, s'.revolutionOne);
    ValidIsSteady(st);
    assert MatchesAt(st.cfg, s', w, pos');
  }

  lemma LastToothTestsGap(cfg: Config, s: State, p: Pulse)
    requires cfg.Valid() && (s.count + 1 == cfg.ActualTeeth() || s.sync.None?)
    ensures Decide(cfg, Counted(s), p, true) == ToothOne(cfg, Counted(s), p)
  {
  }

  lemma StampIsUsed(st: Start, s: State, p: Pulse, pos: Position)
    requires st.Valid() && StampsUsable(s) && s.filterTime <= st.period && p.now == Stamp(pos.time + st.gap)
    requires s.last == Stamp(pos.time) && s.lastMinusOne == Stamp(pos.time - st.period)
    ensures PrimaryStep(st.cfg, s, p) == Decide(st.cfg, Counted(s), p, true) && s.last != 0
  {
    GapDecides(st, s, p, pos.time);
  }

  /** The gap, seen after a regular interval by a decoder that cannot mistake it for lost sync. */
  lemma GapLocks(st: Start, s: State, p: Pulse, pos: Position, pos': Position)
    requires st.Valid() && Follows(st, pos, pos', p) && pos'.tooth == 1
    requires StampsUsable(s) && s.filterTime <= st.period && p.now != 0
    requires s.last == Stamp(pos.time) && s.lastMinusOne == Stamp(pos.time - st.period)
    requires s.count + 1 == st.cfg.ActualTeeth() || s.sync.None?
    requires s.syncLoss == st.LossesInTheEnd()
    ensures Locked(st, PrimaryStep(st.cfg, s, p), pos')
  {
    LastToothTestsGap(st.cfg, s, p);
    StampIsUsed(st, s, p, pos);
    LockOn(st, s, PrimaryStep(st.cfg, s, p), p, pos, pos');
  }

  /** The next count, which no longer wraps. */
  lemma SearchingCounts(st: Start, s: State, n: nat, pos: Position)
    requires st.cfg.Valid() && Searching(st, s, n, pos)
    ensures Counted(s).count == st.Stale() + n + 2
  {
  }

  lemma OverflowIsFalse(st: Start, n: nat, tooth: int)
    requires st.cfg.Valid() && 1 <= st.first <= st.cfg.ActualTeeth()
    requires n >= 2 && BeforeGap(st, n, tooth) && st.OverflowAt() == n
    ensures st.FalselySyncs() && (st.LosesSync() <==> tooth != 2) && tooth >= 2
  {
  }

  lemma SearchingOnwards(st: Start, s: State, p: Pulse, n: nat, pos: Position, pos': Position)
    requires st.Valid() && Follows(st, pos, pos', p)
    requires Searching(st, s, n, pos) && pos.tooth < st.cfg.ActualTeeth() && StampsUsable(s)
    ensures var s' := PrimaryStep(st.cfg, s, p);
      Searching(st, s', n + 1, pos') || FalseSync(st, s', n + 1, pos') || Behind(st, s', n + 1, pos')
  {
    ValidIsSteady(st);
    RegularDecides(st, s, p, pos.time, pos.interval);
    SearchingCounts(st, s, n, pos);
    if st.Stale() + n + 2 <= st.cfg.ActualTeeth() {
      SearchingContinues(st, s, p, n, pos, pos');
    } else {
      OverflowIsFalse(st, n + 1, pos'.tooth);
      SearchingOverflows(st, s, p, n, pos, pos');
    }
  }

  lemma SearchingContinues(st: Start, s: State, p: Pulse, n: nat, pos: Position, pos': Position)
    requires st.Steady() && Follows(st, pos, pos', p)
    requires Searching(st, s, n, pos) && pos.tooth < st.cfg.ActualTeeth()
    requires Counted(s).count == st.Stale() + n + 2 <= st.cfg.ActualTeeth()
    requires Elapsed(p.now, s.last) == st.period
    ensures Searching(st, Decide(st.cfg, Counted(s), p, false), n + 1, pos')
  {
    FilterIsModest(st.cfg.filter, st.period);
    DecidesRegular(st.cfg, Counted(s), p);
    assert pos'.time - pos'.interval == pos.time;
  }

  lemma SearchingOverflows(st: Start, s: State, p: Pulse, n: nat, pos: Position, pos': Position)
    requires st.Steady() && Follows(st, pos, pos', p)
    requires Searching(st, s, n, pos) && pos.tooth < st.cfg.ActualTeeth() && st.OverflowAt() == n + 1
    requires Counted(s).count > st.cfg.ActualTeeth()
    requires st.FalselySyncs() && (st.LosesSync() <==> pos'.tooth != 2) && pos'.tooth >= 2
    ensures var s' := Decide(st.cfg, Counted(s), p, false);
      FalseSync(st, s', n + 1, pos') || Behind(st, s', n + 1, pos')
  {
    OverflowIsToothOne(st.cfg, Counted(s), p);
    assert pos'.time - pos'.interval == pos.time;
  }

  lemma OverflowIsToothOne(cfg: Config, c: State, p: Pulse)
    requires cfg.Valid() && c.sync.None? && c.count > cfg.ActualTeeth()
    ensures Decide(cfg, c, p, false) == ToothOne(cfg, c, p)
  {
  }

  /** A search that is not over at the last tooth has not overflowed, and will not. */
  lemma SearchedToTheGap(st: Start, s: State, n: nat, pos: Position)
    requires st.cfg.Valid() && 1 <= st.first <= st.cfg.ActualTeeth()
    requires Searching(st, s, n, pos) && pos.tooth == st.cfg.ActualTeeth()
    ensures s.sync.None? && s.syncLoss == st.LossesInTheEnd()
    ensures s.lastMinusOne == Stamp(pos.time - st.period)
  {
  }

  lemma SearchingLocks(st: Start, s: State, p: Pulse, n: nat, pos: Position, pos': Position)
    requires st.Valid() && Follows(st, pos, pos', p)
    requires Searching(st, s, n, pos) && pos.tooth == st.cfg.ActualTeeth() && StampsUsable(s) && p.now != 0
    ensures Locked(st, PrimaryStep(st.cfg, s, p), pos')
  {
    SearchedToTheGap(st, s, n, pos);
    GapLocks(st, s, p, pos, pos');
  }

  lemma FalseSyncOnwards(st: Start, s: State, p: Pulse, n: nat, pos: Position, pos': Position)
    requires st.Valid() && Follows(st, pos, pos', p)
    requires FalseSync(st, s, n, pos) && pos.tooth < st.cfg.ActualTeeth() && StampsUsable(s)
    ensures FalseSync(st, PrimaryStep(st.cfg, s, p), n + 1, pos')
  {
    ValidIsSteady(st);
    RegularDecides(st, s, p, pos.time, st.period);
    FalseSyncContinues(st, s, p, n, pos, pos');
  }

  lemma FalseSyncContinues(st: Start, s: State, p: Pulse, n: nat, pos: Position, pos': Position)
    requires st.Steady() && Follows(st, pos, pos', p)
    requires FalseSync(st, s, n, pos) && pos.tooth < st.cfg.ActualTeeth() && Elapsed(p.now, s.last) == st.period
    ensures FalseSync(st, Decide(st.cfg, Counted(s), p, false), n + 1, pos')
  {
    FilterIsModest(st.cfg.filter, st.period);
    DecidesRegular(st.cfg, Counted(s), p);
    assert pos'.time - st.period == pos.time;
  }

  lemma FalseSyncDecides(st: Start, s: State, p: Pulse, n: nat, pos: Position, pos': Position)
    requires st.Steady() && Follows(st, pos, pos', p)
    requires FalseSync(st, s, n, pos) && pos.tooth == st.cfg.ActualTeeth() && p.rpm < 2000
    ensures Lost(st, Decide(st.cfg, Counted(s), p, true), n + 1, pos')
  {
    assert pos'.time - st.gap == pos.time;
    assert s.count + 1 < st.cfg.ActualTeeth();
  }

  lemma FalseSyncIsLost(st: Start, s: State, p: Pulse, n: nat, pos: Position, pos': Position)
    requires st.Valid() && Follows(st, pos, pos', p)
    requires FalseSync(st, s, n, pos) && pos.tooth == st.cfg.ActualTeeth() && StampsUsable(s) && p.rpm < 2000
    ensures Lost(st, PrimaryStep(st.cfg, s, p), n + 1, pos')
  {
    ValidIsSteady(st);
    GapDecides(st, s, p, pos.time);
    FalseSyncDecides(st, s, p, n, pos, pos');
  }

  /** The interval across the gap and one more tooth is above the target for the regular one before. */
  lemma LongGapDecides(st: Start, s: State, p: Pulse, time: int)
    requires st.Valid() && StampsUsable(s) && s.filterTime <= st.period
    requires s.last == Stamp(time) && s.lastMinusOne == Stamp(time - st.period)
    requires p.now == Stamp(time + st.gap + st.period)
    ensures PrimaryStep(st.cfg, s, p) == Decide(st.cfg, Counted(s), p, true)
  {
    ValidIsSteady(st);
    GapIsNotExplained(st);
    StepDecidesFor(st.cfg, s, p, time, st.period, st.gap + st.period, true);
  }

  lemma LostDecides(st: Start, s: State, p: Pulse, n: nat, pos: Position, pos': Position)
    requires st.Steady() && Follows(st, pos, pos', p)
    requires Lost(st, s, n, pos)
    ensures Behind(st, ToothOne(st.cfg, Counted(s), p), n + 1, pos')
  {
    assert pos'.time - (st.gap + st.period) == pos.time - st.gap;
  }

  lemma LostThenBehind(st: Start, s: State, p: Pulse, n: nat, pos: Position, pos': Position)
    requires st.Valid() && Follows(st, pos, pos', p)
    requires Lost(st, s, n, pos) && StampsUsable(s)
    ensures Behind(st, PrimaryStep(st.cfg, s, p), n + 1, pos')
  {
    ValidIsSteady(st);
    LongGapDecides(st, s, p, pos.time - st.gap);
    LastToothTestsGap(st.cfg, s, p);
    LostDecides(st, s, p, n, pos, pos');
  }

  lemma BehindOnwards(st: Start, s: State, p: Pulse, n: nat, pos: Position, pos': Position)
    requires st.Valid() && Follows(st, pos, pos', p)
    requires Behind(st, s, n, pos) && pos.tooth < st.cfg.ActualTeeth() && StampsUsable(s)
    ensures Behind(st, PrimaryStep(st.cfg, s, p), n + 1, pos')
  {
    ValidIsSteady(st);
    RegularDecides(st, s, p, pos.time, if pos.tooth == 2 && st.LosesSync() then st.gap + st.period else st.period);
    BehindContinues(st, s, p, n, pos, pos');
  }

  lemma BehindContinues(st: Start, s: State, p: Pulse, n: nat, pos: Position, pos': Position)
    requires st.Steady() && Follows(st, pos, pos', p)
    requires Behind(st, s, n, pos) && pos.tooth < st.cfg.ActualTeeth() && Elapsed(p.now, s.last) == st.period
    ensures Behind(st, Decide(st.cfg, Counted(s), p, false), n + 1, pos')
  {
    FilterIsModest(st.cfg.filter, st.period);
    DecidesRegular(st.cfg, Counted(s), p);
    assert pos'.time - st.period == pos.time;
  }

  lemma BehindLocks(st: Start, s: State, p: Pulse, n: nat, pos: Position, pos': Position)
    requires st.Valid() && Follows(st, pos, pos', p)
    requires Behind(st, s, n, pos) && pos.tooth == st.cfg.ActualTeeth() && StampsUsable(s) && p.now != 0
    ensures Locked(st, PrimaryStep(st.cfg, s, p), pos')
  {
    ValidIsSteady(st);
    GapLocks(st, s, p, pos, pos');
  }

  lemma ConstantSpeedIsWellFormed(st: Start, w: Wheel, t: Tooth, pos': Position)
    requires st.Valid() && 1 <= w.tooth <= st.cfg.ActualTeeth()
    requires w.interval == (if w.tooth == 1 then st.gap else st.period)
    requires t.interval == (if NextTooth(st.cfg, w.tooth) == 1 then st.gap else st.period)
    requires Stamp(w.time + t.interval) != 0
    ensures WellFormed(st.cfg, w, t)
  {
    TargetsAtConstantSpeed(st);
    Products(st.cfg.missing, st.period);
  }

  lemma LockedStays(st: Start, s: State, p: Pulse, pos: Position, pos': Position)
    requires st.Valid() && Follows(st, pos, pos', p)
    requires Locked(st, s, pos) && p.now != 0
    ensures Locked(st, PrimaryStep(st.cfg, s, p), pos')
  {
    var w: Wheel :| MatchesAt(st.cfg, s, w, pos);
    var t := Tooth(pos'.interval, p.rpm, p.camHigh);
    ConstantSpeedIsWellFormed(st, w, t, pos');
    TurnKeepsMatch(st.cfg, s, w, t);
    assert PulseOf(w, t) == p;
    assert MatchesAt(st.cfg, PrimaryStep(st.cfg, s, p), Turn(st.cfg, w, t), pos');
  }

  lemma PhaseStep(st: Start, s: State, p: Pulse, n: nat, pos: Position, pos': Position)
    requires st.Valid() && n >= 1 && Follows(st, pos, pos', p)
    requires Phase(st, s, n, pos) && StampsUsable(s) && p.now != 0
    requires n + 1 <= st.LockedFrom() ==> p.rpm < 2000
    ensures Phase(st, PrimaryStep(st.cfg, s, p), n + 1, pos')
  {
    var last := pos.tooth == st.cfg.ActualTeeth();
    if n >= st.LockedFrom() {
      LockedStays(st, s, p, pos, pos');
    } else if Searching(st, s, n, pos) {
      if last { SearchingLocks(st, s, p, n, pos, pos'); } else { SearchingOnwards(st, s, p, n, pos, pos'); }
    } else if FalseSync(st, s, n, pos) {
      if last { FalseSyncIsLost(st, s, p, n, pos, pos'); } else { FalseSyncOnwards(st, s, p, n, pos, pos'); }
    } else if Lost(st, s, n, pos) {
      LostThenBehind(st, s, p, n, pos, pos');
    } else {
      if last { BehindLocks(st, s, p, n, pos, pos'); } else { BehindOnwards(st, s, p, n, pos, pos'); }
    }
  }

  lemma FirstTooth(st: Start)
    requires st.Valid() && Stamp(st.time) != 0
    ensures var s := st.StateAt(0);
      && s.sync.None? && s.count == (st.Stale() + 1) % TWO16 && s.last == Stamp(st.time) && s.lastMinusOne == 0
      && s.filterTime <= st.period && s.syncLoss == st.prior.syncLoss
  {
    var s := StalledState(st.cfg, st.logging, st.prior);
    assert st.PulseAt(0).now == Stamp(st.time);
    assert PrimaryStep(st.cfg, s, st.PulseAt(0)) == st.StateAt(0);
  }

  lemma SecondTooth(st: Start, s: State, p: Pulse, pos: Position, pos': Position)
    requires st.Steady() && Follows(st, pos, pos', p) && pos.tooth == st.first
    requires s.sync.None? && s.count == (st.Stale() + 1) % TWO16 && s.last == Stamp(pos.time) && s.lastMinusOne == 0
    requires s.filterTime <= st.period && s.syncLoss == st.prior.syncLoss
    ensures Searching(st, PrimaryStep(st.cfg, s, p), 1, pos')
  {
    StampDifference(pos'.time, pos.time);
    assert pos'.time - pos'.interval == pos.time;
    assert Shift(Counted(s), p.now).count == (st.Stale() + 2) % TWO16;
  }

  lemma FirstPulses(st: Start)
    requires st.Valid() && st.Quiet(1)
    ensures Searching(st, st.StateAt(1), 1, st.At(1)) && StampsUsable(st.StateAt(1))
  {
    var zero, one := st.At(0), st.At(1);
    assert Stamp(zero.time) != 0 && Stamp(one.time) != 0;
    ValidIsSteady(st);
    FirstTooth(st);
    SecondTooth(st, st.StateAt(0), st.PulseAt(1), zero, one);
    assert one.time - one.interval == zero.time;
  }

  /** Until the microsecond counter first rolls over, a slowly turning engine is quiet. */
  lemma QuietUntilRollover(st: Start, n: nat)
    requires st.Valid() && 0 < st.time && st.time + n * st.gap < TWO32 && forall i: nat :: st.rpm(i) < 2000
    ensures st.Quiet(n)
  {
    forall i: nat | i <= n
      ensures Stamp(st.At(i).time) != 0
    {
      TimeAdvances(st, i);
      ScaleMonotone(st.gap, i, n);
    }
  }

  lemma {:induction false} TimeAdvances(st: Start, n: nat)
    requires st.Valid()
    ensures st.time <= st.At(n).time <= st.time + n * st.gap
  {
    if n > 0 {
      TimeAdvances(st, n - 1);
      ValidIsSteady(st);
      OneMoreGap(n, st.gap);
      NextAt(st, n);
    }
  }

  lemma OneMoreGap(n: nat, gap: int)
    ensures n * gap == (n - 1) * gap + gap
  {
  }

  lemma NextAt(st: Start, n: nat)
    requires st.Valid() && n > 0 && 0 <= st.period <= st.gap
    ensures st.At(n - 1).time <= st.At(n).time <= st.At(n - 1).time + st.gap
  {
  }

  lemma StampsStayUsable(cfg: Config, s: State, p: Pulse)
    requires cfg.Valid() && StampsUsable(s) && p.now != 0
    ensures StampsUsable(PrimaryStep(cfg, s, p))
  {
  }

  lemma {:induction false} PhaseAt(st: Start, n: nat)
    requires st.Valid() && n >= 1 && st.Quiet(n)
    ensures Phase(st, st.StateAt(n), n, st.At(n)) && StampsUsable(st.StateAt(n))
    decreases n
  {
    if n == 1 {
      FirstPulses(st);
    } else {
      PhaseAt(st, n - 1);
      assert Stamp(st.At(n).time) != 0;
      StampsStayUsable(st.cfg, st.StateAt(n - 1), st.PulseAt(n));
      PhaseStep(st, st.StateAt(n - 1), st.PulseAt(n), n - 1, st.At(n - 1), st.At(n));
    }
  }

  /**
    Whichever tooth is seen first and whatever the stale count, within two turns and one tooth the
    decoder is in full sync at the true tooth, and it stays there for ever. Sync is lost exactly once
    on the way if the count overflows at a tooth other than tooth 2, and not at all otherwise.
  */
  lemma SelfStabilises(st: Start, n: nat)
    requires st.Valid() && n >= st.LockedFrom() && st.Quiet(n)
    ensures Tracks(st.cfg, st.StateAt(n), st.At(n).tooth)
    ensures st.StateAt(n).syncLoss == if st.LosesSync() then Next8(st.prior.syncLoss) else st.prior.syncLoss
    ensures st.LockedFrom() <= 2 * st.cfg.ActualTeeth() + 1
    ensures exists w: Wheel :: MatchesAt(st.cfg, st.StateAt(n), w, st.At(n))
  {
    PhaseAt(st, n);
  }

  /** Full sync at a wrong tooth. */
  ghost predicate FalselySynced(st: Start, n: nat)
    requires st.Valid()
  {
    st.StateAt(n).sync.Full? && st.StateAt(n).count != st.At(n).tooth
  }

  /**
    When full sync is declared at a wrong tooth: only if the count overflows, and then from there to
    the gap, and again, if that made the decoder lose sync, from tooth 2 until the next gap.
  */
  lemma FalselySyncedIff(st: Start, n: nat)
    requires st.Valid() && st.Quiet(n)
    ensures FalselySynced(st, n) <==>
            st.FalselySyncs() && (st.OverflowAt() <= n < st.GapAt() || st.GapAt() < n < st.LockedFrom())
  {
    if n == 0 {
      assert Stamp(st.At(0).time) != 0;
      FirstTooth(st);
    } else {
      PhaseAt(st, n);
    }
  }

  /**
    A start has a false sync somewhere if and only if the first tooth seen is the last before the gap,
    or two teeth or more can follow it before the gap and the stale count is no less than its number.
    The count is stale only when a log was being taken: otherwise only the former start has one.
  */
  lemma StartFalselySyncsIff(st: Start)
    requires st.Valid() && st.Quiet(st.LockedFrom())
    ensures (exists n: nat :: n <= st.LockedFrom() && FalselySynced(st, n)) <==> st.FalselySyncs()
    ensures st.Stale() >= 0 ==>
              (st.FalselySyncs() <==> st.first == st.cfg.ActualTeeth() ||
                                      (st.first + 2 <= st.cfg.ActualTeeth() && st.Stale() >= st.first))
  {
    forall n: nat | n <= st.LockedFrom()
      ensures FalselySynced(st, n) ==> st.FalselySyncs()
    {
      FalselySyncedIff(st, n);
    }
    if st.FalselySyncs() {
      FalselySyncedIff(st, st.OverflowAt());
    }
  }

  /** What a stall clears and what it keeps. */
  lemma StallKeeps(cfg: Config, logging: bool, s: State)
    requires cfg.teeth > 0
    ensures var r := StalledState(cfg, logging, s);
      && r.sync.None? && r.last == 0 && r.secondaryCount == 0 && r.startRevolutions == 0 && !r.validTrigger
      && r.syncLoss == s.syncLoss && r.revolutionOne == s.revolutionOne && r.angleIsCorrect == s.angleIsCorrect
      && (if logging
          then && r.lastMinusOne == s.lastMinusOne && r.count == s.count && r.filterTime == 0
               && r.toothOne == s.toothOne && r.toothOneMinusOne == s.toothOneMinusOne
          else && r.lastMinusOne == 0 && r.count == 0 && r.filterTime == 1_000_000 / (300 * cfg.teeth)
               && r.toothOne == 0 && r.toothOneMinusOne == 0)
  {
  }
}
