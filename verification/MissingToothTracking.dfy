/**
  A physical wheel turning at any speed, and the proof that a synced decoder follows it.

  The wheel is ghost: it knows the true time and the true index of the tooth now passing.
*/
module MissingToothTracking {
  import opened Machine
  import opened MissingTooth

  /** The decoder is in full sync and its count is the true tooth index. */
  predicate Tracks(cfg: Config, s: State, tooth: int) {
    1 <= tooth <= cfg.ActualTeeth() && s.sync.Full? && s.count == tooth
  }

  function NextTooth(cfg: Config, tooth: int): int {
    if tooth == cfg.ActualTeeth() then 1 else tooth + 1
  }

  predicate SkipsGapTest(cfg: Config, s: State, p: Pulse) {
    p.rpm >= 2000 && s.count + 1 < 3 * cfg.ActualTeeth() / 4
  }

  predicate StampsUsable(s: State) {
    s.last != 0 && s.lastMinusOne != 0
  }

  /**
    What the next pulse must satisfy. The interval passes the filter; then, while one of the two
    last stamps reads zero the decoder cannot recognise tooth 1, and otherwise a tooth other than
    tooth 1 must not look like a gap when the gap test runs.
  */
  predicate Admissible(cfg: Config, s: State, p: Pulse) {
    var gap := Elapsed(p.now, s.last);
    && gap >= s.filterTime
    && if StampsUsable(s)
       then s.count == cfg.ActualTeeth() || SkipsGapTest(cfg, s, p)
            || gap <= TargetGap(cfg.missing, Elapsed(s.last, s.lastMinusOne))
       else s.count < cfg.ActualTeeth()
  }

  /** One pulse keeps a tracking decoder on the wheel exactly when it is admissible. */
  lemma TrackStepIff(cfg: Config, s: State, tooth: int, p: Pulse)
    requires cfg.Valid() && Tracks(cfg, s, tooth)
    ensures Tracks(cfg, PrimaryStep(cfg, s, p), NextTooth(cfg, tooth)) <==> Admissible(cfg, s, p)
  {
    assert s.count + 1 < TWO16 && Next16(s.count) == tooth + 1;
    assert tooth == cfg.ActualTeeth() ==> !SkipsGapTest(cfg, s, p);
  }

  /** The decoder is on the wheel after every prefix of the pulses. */
  predicate TracksThroughout(cfg: Config, s: State, tooth: int, ps: seq<Pulse>)
    requires cfg.Valid()
    decreases |ps|
  {
    ps == [] ||
    (Tracks(cfg, PrimaryStep(cfg, s, ps[0]), NextTooth(cfg, tooth))
     && TracksThroughout(cfg, PrimaryStep(cfg, s, ps[0]), NextTooth(cfg, tooth), ps[1..]))
  }

  predicate AllAdmissible(cfg: Config, s: State, ps: seq<Pulse>)
    requires cfg.Valid()
    decreases |ps|
  {
    ps == [] || (Admissible(cfg, s, ps[0]) && AllAdmissible(cfg, PrimaryStep(cfg, s, ps[0]), ps[1..]))
  }

  /** For every pulse stream: exact tracking at every tooth if and only if every pulse is admissible. */
  lemma {:induction false} TracksThroughoutIff(cfg: Config, s: State, tooth: int, ps: seq<Pulse>)
    requires cfg.Valid() && Tracks(cfg, s, tooth)
    ensures TracksThroughout(cfg, s, tooth, ps) <==> AllAdmissible(cfg, s, ps)
    decreases |ps|
  {
    if ps != [] {
      TrackStepIff(cfg, s, tooth, ps[0]);
      if Admissible(cfg, s, ps[0]) {
        TracksThroughoutIff(cfg, PrimaryStep(cfg, s, ps[0]), NextTooth(cfg, tooth), ps[1..]);
      }
    }
  }

  /**
    A tooth just before the gap whose stamp reads exactly zero makes the decoder miss tooth 1,
    whatever the interval is: the count leaves the wheel.
  */
  lemma ZeroStampBeforeGapLosesTooth(cfg: Config, s: State, p: Pulse)
    requires cfg.Valid() && Tracks(cfg, s, cfg.ActualTeeth()) && !StampsUsable(s)
    ensures !Tracks(cfg, PrimaryStep(cfg, s, p), 1)
    ensures Elapsed(p.now, s.last) >= s.filterTime ==> PrimaryStep(cfg, s, p).count == cfg.ActualTeeth() + 1
  {
    TrackStepIff(cfg, s, cfg.ActualTeeth(), p);
  }

  // ---------------------------------------------------------------- the physical wheel

  /** One tooth passing: the true interval since the last, and what the handler reads besides. */
  datatype Tooth = Tooth(interval: nat, rpm: uint16, camHigh: bool)

  /** The wheel at the moment `tooth` has passed, with the revolution counters the ECU should hold. */
  datatype Wheel = Wheel(
    tooth: int,
    time: nat,
    interval: nat,
    toothOneAt: nat,
    toothOneBefore: nat,
    turns: nat,
    revolutions: uint32,
    half: bool)

  function Turn(cfg: Config, w: Wheel, t: Tooth): Wheel {
    var w' := w.(tooth := NextTooth(cfg, w.tooth), time := w.time + t.interval, interval := t.interval);
    if w'.tooth != 1 then w'
    else w'.(toothOneAt := w'.time, toothOneBefore := w.toothOneAt, turns := w.turns + 1,
             revolutions := (w.revolutions + cfg.RevolutionsPerTurn()) % TWO32,
             half := if cfg.secondary.Poll? then cfg.pollLevel == t.camHigh else !w.half)
  }

  function PulseOf(w: Wheel, t: Tooth): Pulse {
    Pulse(Stamp(w.time + t.interval), t.rpm, t.camHigh)
  }

  /** The decoder holds the truth about the wheel. */
  predicate Matches(cfg: Config, s: State, w: Wheel) {
    && Tracks(cfg, s, w.tooth)
    && 0 < w.interval <= w.time
    && w.toothOneAt <= w.time
    && s.last == Stamp(w.time) && s.lastMinusOne == Stamp(w.time - w.interval)
    && StampsUsable(s)
    && (if w.tooth == 1 then s.filterTime == 0 else 4 * s.filterTime <= 3 * w.interval)
    && s.toothOne == Stamp(w.toothOneAt)
    && (w.turns > 0 ==> s.toothOneMinusOne == Stamp(w.toothOneBefore) && w.toothOneBefore < w.toothOneAt)
    && s.startRevolutions == w.revolutions
    && s.revolutionOne == w.half
    && (s.angleIsCorrect <==> w.tooth != 1)
  }

  /** Thrice and `missing` times the interval stay inside 32 bits. */
  predicate InRange(cfg: Config, interval: nat) {
    3 * interval < TWO32 && interval * cfg.missing < TWO32
  }

  /**
    The next tooth of a wheel that does not slow down or speed up too sharply: at least 3/4 of the
    interval before (except just after the gap, where any interval will do), and, unless it is
    tooth 1, at most 1.5 times or `missing` times the interval before.
  */
  predicate WellFormed(cfg: Config, w: Wheel, t: Tooth) {
    && 0 < t.interval && InRange(cfg, w.interval) && InRange(cfg, t.interval)
    && Stamp(w.time + t.interval) != 0
    && (w.tooth != 1 ==> 4 * t.interval >= 3 * w.interval)
    && (w.tooth != cfg.ActualTeeth() ==>
          if cfg.missing == 1 then 2 * t.interval <= 3 * w.interval
          else t.interval <= w.interval * cfg.missing)
  }

  predicate AllWellFormed(cfg: Config, w: Wheel, ts: seq<Tooth>)
    decreases |ts|
  {
    ts == [] || (WellFormed(cfg, w, ts[0]) && AllWellFormed(cfg, Turn(cfg, w, ts[0]), ts[1..]))
  }

  function Roll(cfg: Config, w: Wheel, ts: seq<Tooth>): Wheel
    decreases |ts|
  {
    if ts == [] then w else Roll(cfg, Turn(cfg, w, ts[0]), ts[1..])
  }

  /** The decoder fed with the pulses of a turning wheel. */
  function Decode(cfg: Config, s: State, w: Wheel, ts: seq<Tooth>): State
    requires cfg.Valid()
    decreases |ts|
  {
    if ts == [] then s
    else Decode(cfg, PrimaryStep(cfg, s, PulseOf(w, ts[0])), Turn(cfg, w, ts[0]), ts[1..])
  }

  lemma SeesTrueIntervals(cfg: Config, s: State, w: Wheel, t: Tooth)
    requires Matches(cfg, s, w) && t.interval < TWO32 && w.interval < TWO32
    ensures Elapsed(PulseOf(w, t).now, s.last) == t.interval
    ensures Elapsed(s.last, s.lastMinusOne) == w.interval
  {
    StampDifference(w.time + t.interval, w.time);
    StampDifference(w.time, w.time - w.interval);
  }

  lemma BelowTarget(cfg: Config, w: Wheel, t: Tooth)
    requires cfg.Valid() && WellFormed(cfg, w, t) && w.tooth != cfg.ActualTeeth()
    ensures t.interval <= TargetGap(cfg.missing, w.interval)
  {
  }

  lemma WellFormedIsAdmissible(cfg: Config, s: State, w: Wheel, t: Tooth)
    requires cfg.Valid() && Matches(cfg, s, w) && WellFormed(cfg, w, t)
    ensures Elapsed(PulseOf(w, t).now, s.last) == t.interval
    ensures Elapsed(s.last, s.lastMinusOne) == w.interval
    ensures t.interval >= s.filterTime
    ensures w.tooth != cfg.ActualTeeth() ==> t.interval <= TargetGap(cfg.missing, w.interval)
    ensures Admissible(cfg, s, PulseOf(w, t))
  {
    SeesTrueIntervals(cfg, s, w, t);
    if w.tooth != cfg.ActualTeeth() {
      BelowTarget(cfg, w, t);
    }
  }

  lemma FilterIsModest(filter: TriggerFilter, gap: uint32)
    requires 3 * gap < TWO32
    ensures 4 * FilterTime(filter, gap) <= 3 * gap
  {
  }

  lemma StepDecides(cfg: Config, s: State, p: Pulse)
    requires cfg.Valid() && StampsUsable(s) && Elapsed(p.now, s.last) >= s.filterTime
    ensures PrimaryStep(cfg, s, p) == Decide(cfg, Counted(s), p, AboveTarget(cfg, s, p))
  {
  }

  /** The decision from the true intervals. */
  lemma StepDecidesFor(cfg: Config, s: State, p: Pulse, time: int, before: nat, interval: nat, above: bool)
    requires cfg.Valid() && StampsUsable(s) && before < TWO32 && s.filterTime <= interval < TWO32
    requires s.last == Stamp(time) && s.lastMinusOne == Stamp(time - before) && p.now == Stamp(time + interval)
    requires above == (interval > TargetGap(cfg.missing, before))
    ensures Elapsed(p.now, s.last) == interval
    ensures PrimaryStep(cfg, s, p) == Decide(cfg, Counted(s), p, above)
  {
    StampDifference(time + interval, time);
    StampDifference(time, time - before);
    StepDecides(cfg, s, p);
  }

  lemma DecidesRegular(cfg: Config, c: State, p: Pulse)
    requires cfg.Valid() && c.count <= cfg.ActualTeeth()
    ensures Decide(cfg, c, p, false) == RegularTooth(cfg, c, p.now)
  {
  }

  /** An interval between the filter and the target is a regular tooth, synced or not. */
  lemma RegularBranch(cfg: Config, s: State, p: Pulse)
    requires cfg.Valid() && s.count < cfg.ActualTeeth() && StampsUsable(s)
    requires Elapsed(p.now, s.last) >= s.filterTime
    requires Elapsed(p.now, s.last) <= TargetGap(cfg.missing, Elapsed(s.last, s.lastMinusOne))
    ensures PrimaryStep(cfg, s, p) == RegularTooth(cfg, Counted(s), p.now)
    ensures Counted(s).count == s.count + 1
  {
    StepDecides(cfg, s, p);
    CountedUp(s);
    DecidesRegular(cfg, Counted(s), p);
  }

  lemma CountedUp(s: State)
    requires s.count < 0xFFFF
    ensures Counted(s).count == s.count + 1
  {
  }

  lemma ToothOneBranch(cfg: Config, s: State, p: Pulse)
    requires cfg.Valid() && Tracks(cfg, s, cfg.ActualTeeth()) && StampsUsable(s)
    requires Elapsed(p.now, s.last) >= s.filterTime
    ensures PrimaryStep(cfg, s, p) == ToothOne(cfg, Counted(s), p)
  {
    assert Next16(s.count) == cfg.ActualTeeth() + 1;
  }

  lemma RegularTurnKeepsMatch(cfg: Config, s: State, w: Wheel, t: Tooth)
    requires cfg.Valid() && Matches(cfg, s, w) && w.tooth != cfg.ActualTeeth()
    requires 0 < t.interval && 3 * t.interval < TWO32 && Stamp(w.time + t.interval) != 0
    requires Elapsed(PulseOf(w, t).now, s.last) == t.interval
    ensures Matches(cfg, RegularTooth(cfg, Counted(s), PulseOf(w, t).now), Turn(cfg, w, t))
  {
    FilterIsModest(cfg.filter, t.interval);
    assert Turn(cfg, w, t).time - Turn(cfg, w, t).interval == w.time;
  }

  lemma ToothOneTurnKeepsMatch(cfg: Config, s: State, w: Wheel, t: Tooth)
    requires cfg.Valid() && Matches(cfg, s, w) && w.tooth == cfg.ActualTeeth()
    requires 0 < t.interval && Stamp(w.time + t.interval) != 0
    ensures Matches(cfg, ToothOne(cfg, Counted(s), PulseOf(w, t)), Turn(cfg, w, t))
  {
    assert Turn(cfg, w, t).time - Turn(cfg, w, t).interval == w.time;
  }

  lemma TurnKeepsMatch(cfg: Config, s: State, w: Wheel, t: Tooth)
    requires cfg.Valid() && Matches(cfg, s, w) && WellFormed(cfg, w, t)
    ensures Matches(cfg, PrimaryStep(cfg, s, PulseOf(w, t)), Turn(cfg, w, t))
    ensures PrimaryStep(cfg, s, PulseOf(w, t)).syncLoss == s.syncLoss
  {
    WellFormedIsAdmissible(cfg, s, w, t);
    if w.tooth == cfg.ActualTeeth() {
      ToothOneBranch(cfg, s, PulseOf(w, t));
      ToothOneTurnKeepsMatch(cfg, s, w, t);
    } else {
      RegularBranch(cfg, s, PulseOf(w, t));
      RegularTurnKeepsMatch(cfg, s, w, t);
    }
  }

  /**
    Tracking under acceleration. From a matching state, after any number of well-formed teeth and
    under every filter setting, the decoder still holds the truth: full sync, the exact index, the
    true times of the last two tooth ones, the revolution count and the half of the cycle.
  */
  lemma {:induction false} TracksAcceleratingWheel(cfg: Config, s: State, w: Wheel, ts: seq<Tooth>)
    requires cfg.Valid() && Matches(cfg, s, w) && AllWellFormed(cfg, w, ts)
    ensures Matches(cfg, Decode(cfg, s, w, ts), Roll(cfg, w, ts))
    ensures Decode(cfg, s, w, ts).syncLoss == s.syncLoss
    decreases |ts|
  {
    if ts != [] {
      TurnKeepsMatch(cfg, s, w, ts[0]);
      TracksAcceleratingWheel(cfg, PrimaryStep(cfg, s, PulseOf(w, ts[0])), Turn(cfg, w, ts[0]), ts[1..]);
    }
  }

  // ---------------------------------------------------------------- noise

  /** The quarters of an interval within which the next edge is taken for noise. */
  function NoiseQuarters(filter: TriggerFilter): nat {
    match filter
    case Off => 0
    case Lite => 1
    case Medium => 2
    case Aggressive => 3
  }

  /**
    After an accepted regular tooth, an edge `d` later leaves the decoder untouched if and only if it
    comes within the quarters of the interval before that the filter level stands for.
  */
  lemma NoiseIsDroppedIff(cfg: Config, s: State, p1: Pulse, p2: Pulse, gap: uint32, d: uint32)
    requires cfg.Valid() && s.count < cfg.ActualTeeth() && StampsUsable(s)
    requires gap == Elapsed(p1.now, s.last) && d == Elapsed(p2.now, p1.now) && 3 * gap < TWO32
    requires s.filterTime <= gap <= TargetGap(cfg.missing, Elapsed(s.last, s.lastMinusOne))
    ensures var s1 := PrimaryStep(cfg, s, p1);
      PrimaryStep(cfg, s1, p2) == s1 <==> 4 * (d + 1) <= NoiseQuarters(cfg.filter) * gap
  {
    var s1 := PrimaryStep(cfg, s, p1);
    RegularBranch(cfg, s, p1);
    FilterIsQuarters(cfg.filter, gap, d);
    if d >= s1.filterTime {
      AcceptedShows(cfg, s1, p2);
    }
  }

  lemma FilterIsQuarters(filter: TriggerFilter, gap: uint32, d: uint32)
    requires 3 * gap < TWO32
    ensures d < FilterTime(filter, gap) <==> 4 * (d + 1) <= NoiseQuarters(filter) * gap
  {
  }

  /** An accepted edge always changes the decoder. */
  lemma AcceptedShows(cfg: Config, s: State, p: Pulse)
    requires cfg.Valid() && s.count <= cfg.ActualTeeth() && Elapsed(p.now, s.last) >= s.filterTime
    ensures PrimaryStep(cfg, s, p) != s && PrimaryStep(cfg, s, p).validTrigger
  {
    assert Counted(s).count == s.count + 1;
  }

  // ---------------------------------------------------------------- full and partial sync

  function RunPulses(cfg: Config, s: State, ps: seq<Pulse>): State
    requires cfg.Valid()
    decreases |ps|
  {
    if ps == [] then s else RunPulses(cfg, PrimaryStep(cfg, s, ps[0]), ps[1..])
  }

  /** Sequential operation of a four-stroke engine with a crank wheel and a cam signal that is not polled. */
  predicate WaitsForCam(cfg: Config) {
    cfg.sequential && !cfg.camSpeed && !cfg.twoStroke && !cfg.secondary.Poll?
  }

  /** Such an engine never finds full sync without a cam tooth, whatever the crank signal. */
  lemma {:induction false} NoFullSyncWithoutCam(cfg: Config, s: State, ps: seq<Pulse>)
    requires cfg.Valid() && WaitsForCam(cfg) && s.secondaryCount == 0 && !s.sync.Full?
    ensures !RunPulses(cfg, s, ps).sync.Full? && RunPulses(cfg, s, ps).secondaryCount == 0
    decreases |ps|
  {
    if ps != [] {
      NoFullSyncWithoutCam(cfg, PrimaryStep(cfg, s, ps[0]), ps[1..]);
    }
  }

  /** At the gap, a decoder without full sync finds it unless it has to wait for a cam tooth that is missing. */
  lemma GapSyncsIff(cfg: Config, s: State, p: Pulse)
    requires cfg.Valid() && StampsUsable(s) && !s.sync.Full?
    requires Elapsed(p.now, s.last) >= s.filterTime
    requires Elapsed(p.now, s.last) > TargetGap(cfg.missing, Elapsed(s.last, s.lastMinusOne))
    ensures var s' := PrimaryStep(cfg, s, p);
      && s'.count == 1 && !s'.sync.None?
      && (s'.sync.Full? <==> !WaitsForCam(cfg) || s.secondaryCount > 0)
      && (s.sync.None? ==> s'.startRevolutions == 0)
      && s'.secondaryCount == (if cfg.secondary == Single || cfg.secondary == Toyota3 then 0 else s.secondaryCount)
  {
    StepDecides(cfg, s, p);
  }

  // ---------------------------------------------------------------- revolution time

  datatype Published = Unchanged | RevolutionTime(micros: uint32)

  /** The revolution time computed from the two last tooth-one stamps, when it is computed at all. */
  function UpdateRevolutionTime(s: State, camTeeth: bool, cranking: bool): Published {
    if !s.sync.None? && !cranking && s.toothOneMinusOne != 0 && s.toothOne > s.toothOneMinusOne
    then RevolutionTime((s.toothOne - s.toothOneMinusOne) / (if camTeeth then 2 else 1))
    else Unchanged
  }

  /**
    Whatever is published is the true time of the last turn, and it is published exactly when the
    engine is past cranking, the older stamp is not zero and the counter did not roll over between
    the two.
  */
  lemma PublishedTimeIsTrue(cfg: Config, s: State, w: Wheel, cranking: bool)
    requires Matches(cfg, s, w) && w.turns > 0
    requires w.toothOneAt - w.toothOneBefore < TWO32
    ensures var r := UpdateRevolutionTime(s, cfg.camSpeed, cranking);
      && (r.RevolutionTime? ==> r.micros == (w.toothOneAt - w.toothOneBefore) / cfg.RevolutionsPerTurn())
      && (r.RevolutionTime? <==> !cranking && Stamp(w.toothOneBefore) != 0
                                 && w.toothOneAt / TWO32 == w.toothOneBefore / TWO32)
  {
    StampDifference(w.toothOneAt, w.toothOneBefore);
  }

  // ---------------------------------------------------------------- skipping the gap test

  function Slow(p: Pulse): Pulse { p.(rpm := 0) }

  /**
    For a synced decoder, skipping the gap test at speed changes the outcome of a pulse exactly
    when the skipped test would have seen a gap.
  */
  lemma SkipStepIff(cfg: Config, s: State, tooth: int, p: Pulse)
    requires cfg.Valid() && Tracks(cfg, s, tooth)
    ensures PrimaryStep(cfg, s, p) != PrimaryStep(cfg, s, Slow(p)) <==>
      && Elapsed(p.now, s.last) >= s.filterTime
      && StampsUsable(s)
      && SkipsGapTest(cfg, s, p)
      && Elapsed(p.now, s.last) > TargetGap(cfg.missing, Elapsed(s.last, s.lastMinusOne))
  {
    assert Next16(s.count) == tooth + 1;
  }

  function SlowTeeth(ts: seq<Tooth>): seq<Tooth> {
    seq(|ts|, i requires 0 <= i < |ts| => ts[i].(rpm := 0))
  }

  /** On every well-formed stream, with any RPM reading at each tooth, skipping is invisible. */
  lemma {:induction false} SkippingRefinesFullTest(cfg: Config, s: State, w: Wheel, ts: seq<Tooth>)
    requires cfg.Valid() && Matches(cfg, s, w) && AllWellFormed(cfg, w, ts)
    ensures Decode(cfg, s, w, ts) == Decode(cfg, s, w, SlowTeeth(ts))
    decreases |ts|
  {
    if ts != [] {
      var p := PulseOf(w, ts[0]);
      WellFormedIsAdmissible(cfg, s, w, ts[0]);
      SkipStepIff(cfg, s, w.tooth, p);
      TurnKeepsMatch(cfg, s, w, ts[0]);
      assert PulseOf(w, SlowTeeth(ts)[0]) == Slow(p);
      assert SlowTeeth(ts)[1..] == SlowTeeth(ts[1..]);
      SkippingRefinesFullTest(cfg, PrimaryStep(cfg, s, p), Turn(cfg, w, ts[0]), ts[1..]);
    }
  }
}
