/**
  What a time stamp that reads zero does to a missing-tooth decoder that has locked on at constant
  speed: nothing, unless the tooth is one of the last two before the gap.
*/
module MissingToothStamps {
  import opened Machine
  import opened MissingTooth
  import opened MissingToothTracking
  import opened MissingToothStart

  /** On the wheel, with the stamps of the last two teeth, whatever they read. */
  ghost predicate OnWheel(st: Start, s: State, pos: Position) {
    && Tracks(st.cfg, s, pos.tooth)
    && pos.interval == (if pos.tooth == 1 then st.gap else st.period)
    && 0 < pos.interval <= pos.time
    && s.last == Stamp(pos.time) && s.lastMinusOne == Stamp(pos.time - pos.interval)
    && s.filterTime <= st.period
  }

  /** A pulse with a zero among the two stamps before it is only counted. */
  lemma OnlyCounted(st: Start, s: State, p: Pulse, pos: Position, pos': Position)
    requires st.Steady() && Follows(st, pos, pos', p) && OnWheel(st, s, pos)
    requires !StampsUsable(s) && pos.tooth != st.cfg.ActualTeeth()
    ensures OnWheel(st, PrimaryStep(st.cfg, s, p), pos')
  {
    StampDifference(pos'.time, pos.time);
    assert pos'.time - pos'.interval == pos.time;
    assert Counted(s).count == pos.tooth + 1;
  }

  lemma RegularStays(st: Start, s: State, p: Pulse, pos: Position, pos': Position)
    requires st.Steady() && Follows(st, pos, pos', p) && OnWheel(st, s, pos)
    requires pos.tooth != st.cfg.ActualTeeth() && Elapsed(p.now, s.last) == st.period
    ensures OnWheel(st, Decide(st.cfg, Counted(s), p, false), pos')
  {
    FilterIsModest(st.cfg.filter, st.period);
    DecidesRegular(st.cfg, Counted(s), p);
    assert pos'.time - pos'.interval == pos.time;
  }

  lemma ToothOneStays(st: Start, s: State, p: Pulse, pos: Position, pos': Position)
    requires st.Steady() && Follows(st, pos, pos', p) && OnWheel(st, s, pos)
    requires pos.tooth == st.cfg.ActualTeeth()
    ensures OnWheel(st, ToothOne(st.cfg, Counted(s), p), pos')
  {
    assert pos'.time - pos'.interval == pos.time;
  }

  lemma StepStays(st: Start, s: State, p: Pulse, pos: Position, pos': Position)
    requires st.Valid() && Follows(st, pos, pos', p) && OnWheel(st, s, pos)
    requires pos'.tooth == 1 ==> StampsUsable(s)
    ensures OnWheel(st, PrimaryStep(st.cfg, s, p), pos')
  {
    ValidIsSteady(st);
    if !StampsUsable(s) {
      OnlyCounted(st, s, p, pos, pos');
    } else if pos.tooth != st.cfg.ActualTeeth() {
      RegularDecides(st, s, p, pos.time, pos.interval);
      RegularStays(st, s, p, pos, pos');
    } else {
      GapDecides(st, s, p, pos.time);
      LastToothCounted(st.cfg, s, p);
      ToothOneStays(st, s, p, pos, pos');
    }
  }

  /** After the last tooth the gap test always runs and the count alone is enough. */
  lemma LastToothCounted(cfg: Config, s: State, p: Pulse)
    requires cfg.Valid() && Tracks(cfg, s, cfg.ActualTeeth())
    ensures Decide(cfg, Counted(s), p, true) == ToothOne(cfg, Counted(s), p)
  {
    assert Counted(s).count == cfg.ActualTeeth() + 1;
  }

  /** Both stamps before pulse `m` read something other than zero. */
  ghost predicate StampsBefore(st: Start, m: nat)
    requires st.Valid() && m >= 2
  {
    Stamp(st.At(m - 1).time) != 0 && Stamp(st.At(m - 2).time) != 0
  }

  /** At every tooth 1 after the lock, up to pulse `n`. */
  ghost predicate ToothOnesSeen(st: Start, n: nat)
    requires st.Valid()
  {
    forall m: nat | 2 <= m && st.LockedFrom() < m <= n && st.At(m).tooth == 1 :: StampsBefore(st, m)
  }

  lemma LockIsOnWheel(st: Start)
    requires st.Valid() && st.Quiet(st.LockedFrom())
    ensures OnWheel(st, st.StateAt(st.LockedFrom()), st.At(st.LockedFrom()))
  {
    var n := st.LockedFrom();
    ValidIsSteady(st);
    PhaseAt(st, n);
    var w: Wheel :| MatchesAt(st.cfg, st.StateAt(n), w, st.At(n));
  }

  lemma NextStep(st: Start, n: nat)
    requires st.Valid() && n > 0
    ensures Follows(st, st.At(n - 1), st.At(n), st.PulseAt(n))
    ensures st.StateAt(n) == PrimaryStep(st.cfg, st.StateAt(n - 1), st.PulseAt(n))
  {
  }

  lemma {:induction false} OnWheelAt(st: Start, n: nat)
    requires st.Valid() && st.Quiet(st.LockedFrom()) && n >= st.LockedFrom() && ToothOnesSeen(st, n)
    ensures OnWheel(st, st.StateAt(n), st.At(n))
    decreases n
  {
    if n == st.LockedFrom() {
      LockIsOnWheel(st);
    } else {
      OnWheelAt(st, n - 1);
      NextStep(st, n);
      if st.At(n).tooth == 1 {
        assert StampsBefore(st, n);
        NextStep(st, n - 1);
      }
      StepStays(st, st.StateAt(n - 1), st.PulseAt(n), st.At(n - 1), st.At(n));
    }
  }

  /** The first tooth 1 with a zero stamp just before it is missed. */
  lemma ZeroStampIsFatal(st: Start, n: nat)
    requires st.Valid() && st.Quiet(st.LockedFrom()) && n >= 2 && n > st.LockedFrom() && ToothOnesSeen(st, n - 1)
    requires st.At(n).tooth == 1 && !StampsBefore(st, n)
    ensures Tracks(st.cfg, st.StateAt(n - 1), st.cfg.ActualTeeth()) && !StampsUsable(st.StateAt(n - 1))
    ensures !Tracks(st.cfg, st.StateAt(n), st.At(n).tooth)
  {
    OnWheelAt(st, n - 1);
    NextStep(st, n);
    NextStep(st, n - 1);
    ZeroStampBeforeGapLosesTooth(st.cfg, st.StateAt(n - 1), st.PulseAt(n));
  }

  /**
    Once locked, a decoder is on the true tooth at every pulse up to `n` if and only if no tooth 1 up
    to then had a zero stamp on one of the two teeth before it. Zero stamps elsewhere, and any RPM,
    do no harm.
  */
  lemma TracksAfterLockIff(st: Start, n: nat)
    requires st.Valid() && st.Quiet(st.LockedFrom()) && n >= st.LockedFrom()
    ensures (forall m: nat | st.LockedFrom() <= m <= n :: Tracks(st.cfg, st.StateAt(m), st.At(m).tooth)) <==>
            ToothOnesSeen(st, n)
  {
    if ToothOnesSeen(st, n) {
      forall m: nat | st.LockedFrom() <= m <= n
        ensures Tracks(st.cfg, st.StateAt(m), st.At(m).tooth)
      {
        OnWheelAt(st, m);
      }
    } else {
      var m := FirstUnseen(st, n);
      ZeroStampIsFatal(st, m);
    }
  }

  lemma {:induction false} FirstUnseen(st: Start, n: nat) returns (m: nat)
    requires st.Valid() && !ToothOnesSeen(st, n)
    ensures 2 <= m && st.LockedFrom() < m <= n && st.At(m).tooth == 1 && !StampsBefore(st, m)
    ensures ToothOnesSeen(st, m - 1)
    decreases n
  {
    if n > 0 && !ToothOnesSeen(st, n - 1) {
      m := FirstUnseen(st, n - 1);
    } else {
      m := n;
    }
  }

  /** A 4-1 wheel at 400 ms a turn, first seen at tooth 1 when the counter has 600 ms to go to its rollover. */
  ghost predicate RollsOverAtLastTooth(st: Start) {
    && st.cfg.Valid() && st.cfg.NeedsNoCam() && st.cfg.teeth == 4 && st.cfg.missing == 1
    && st.period == 100_000 && st.gap == 200_000 && st.first == 1 && st.time == TWO32 - 600_000 && !st.logging
    && forall i: nat :: st.rpm(i) < 2000
  }

  /** Such an engine reaches a zero stamp on the last tooth before the gap, and misses the tooth 1 after it. */
  lemma ZeroStampIsReached(st: Start)
    requires RollsOverAtLastTooth(st)
    ensures st.Valid() && st.LockedFrom() == 3 && Stamp(st.At(5).time) == 0
    ensures Tracks(st.cfg, st.StateAt(5), 3) && !Tracks(st.cfg, st.StateAt(6), st.At(6).tooth)
  {
    assert SetupFilterTime(4) == 833;
    assert st.Valid();
    FirstTurns(st);
    QuietUntilRollover(st, 1);
    assert st.Quiet(3);
    assert ToothOnesSeen(st, 5);
    ZeroStampIsFatal(st, 6);
  }

  lemma FirstTurns(st: Start)
    requires RollsOverAtLastTooth(st) && st.Valid()
    ensures st.At(0) == Position(1, TWO32 - 600_000, 0) && st.At(1) == Position(2, TWO32 - 500_000, 100_000)
    ensures st.At(2) == Position(3, TWO32 - 400_000, 100_000) && st.At(3) == Position(1, TWO32 - 200_000, 200_000)
    ensures st.At(4) == Position(2, TWO32 - 100_000, 100_000) && st.At(5) == Position(3, TWO32, 100_000)
    ensures st.At(6) == Position(1, TWO32 + 200_000, 200_000)
  {
    assert st.At(0) == Position(1, TWO32 - 600_000, 0);
    assert st.At(1) == Position(2, TWO32 - 500_000, 100_000);
    assert st.At(2) == Position(3, TWO32 - 400_000, 100_000);
    assert st.At(3) == Position(1, TWO32 - 200_000, 200_000);
    assert st.At(4) == Position(2, TWO32 - 100_000, 100_000);
    assert st.At(5) == Position(3, TWO32, 100_000);
  }
}
