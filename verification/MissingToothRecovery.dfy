/**
  How a missing-tooth decoder gets over a time stamp that reads zero on one of the last two teeth
  before the gap, at constant speed and with any RPM readings.
*/
module MissingToothRecovery {
  import opened Machine
  import opened Decoders
  import opened MissingTooth
  import opened MissingToothTracking
  import opened MissingToothStart
  import opened MissingToothStamps

  /** In full sync with the given count, the tooth before having passed `interval` ago. */
  ghost predicate Counts(st: Start, s: State, pos: Position, count: int, interval: nat, loss: uint8) {
    && s.sync.Full? && s.count == count && s.filterTime <= st.period && s.syncLoss == loss
    && interval <= pos.time
    && s.last == Stamp(pos.time) && s.lastMinusOne == Stamp(pos.time - interval)
  }

  /** Sync has just been lost at tooth 1, which leaves the stamps as they were. */
  ghost predicate LostAtGap(st: Start, s: State, pos: Position, loss: uint8) {
    && s.sync.None? && s.filterTime <= st.period && s.syncLoss == loss
    && st.gap + st.period <= pos.time
    && s.last == Stamp(pos.time - st.gap) && s.lastMinusOne == Stamp(pos.time - st.gap - st.period)
  }

  ghost predicate OnWheelAgain(st: Start, s: State, pos: Position, loss: uint8) {
    OnWheel(st, s, pos) && s.syncLoss == loss
  }

  // ------------------------------------------------------------------ one pulse

  /** A pulse with a zero among the two stamps before it is only counted. */
  lemma Swallowed(st: Start, s: State, p: Pulse, pos: Position, pos': Position, count: int, interval: nat, loss: uint8)
    requires st.Steady() && Follows(st, pos, pos', p) && Counts(st, s, pos, count, interval, loss)
    requires !StampsUsable(s) && count <= st.cfg.ActualTeeth() + 1
    ensures Counts(st, PrimaryStep(st.cfg, s, p), pos', count + 1, pos'.interval, loss)
  {
    StampDifference(pos'.time, pos.time);
    assert pos'.time - pos'.interval == pos.time;
    assert Counted(s).count == count + 1;
  }

  ghost predicate IsBefore(st: Start, interval: nat) {
    interval == st.period || interval == st.gap || interval == st.gap + st.period
  }

  /** A regular tooth that is counted. */
  lemma Regular(st: Start, s: State, p: Pulse, pos: Position, pos': Position, count: int, interval: nat, loss: uint8)
    requires st.Valid() && Follows(st, pos, pos', p) && Counts(st, s, pos, count, interval, loss)
    requires StampsUsable(s) && IsBefore(st, interval) && pos'.tooth != 1 && count < st.cfg.ActualTeeth()
    ensures Counts(st, PrimaryStep(st.cfg, s, p), pos', count + 1, st.period, loss)
  {
    ValidIsSteady(st);
    RegularDecides(st, s, p, pos.time, interval);
    RegularCounts(st, s, p, pos, pos', count, interval, loss);
  }

  lemma RegularCounts(
      st: Start, s: State, p: Pulse, pos: Position, pos': Position, count: int, interval: nat, loss: uint8)
    requires st.Steady() && Follows(st, pos, pos', p) && Counts(st, s, pos, count, interval, loss)
    requires pos'.tooth != 1 && count < st.cfg.ActualTeeth() && Elapsed(p.now, s.last) == st.period
    ensures Counts(st, Decide(st.cfg, Counted(s), p, false), pos', count + 1, st.period, loss)
  {
    FilterIsModest(st.cfg.filter, st.period);
    DecidesRegular(st.cfg, Counted(s), p);
    assert pos'.time - st.period == pos.time;
  }

  /** A count beyond the last tooth makes this one tooth 1, whichever it is. */
  lemma Overflows(st: Start, s: State, p: Pulse, pos: Position, pos': Position, count: int, interval: nat, loss: uint8)
    requires st.Valid() && Follows(st, pos, pos', p) && Counts(st, s, pos, count, interval, loss)
    requires StampsUsable(s) && IsBefore(st, interval) && pos'.tooth != 1
    requires st.cfg.ActualTeeth() <= count <= st.cfg.ActualTeeth() + 2
    ensures Counts(st, PrimaryStep(st.cfg, s, p), pos', 1, st.period, loss)
  {
    ValidIsSteady(st);
    RegularDecides(st, s, p, pos.time, interval);
    TooManyIsToothOne(st.cfg, s, p);
    assert pos'.time - st.period == pos.time;
  }

  lemma TooManyIsToothOne(cfg: Config, s: State, p: Pulse)
    requires cfg.Valid() && cfg.ActualTeeth() <= s.count <= cfg.ActualTeeth() + 2
    ensures Decide(cfg, Counted(s), p, false) == ToothOne(cfg, Counted(s), p)
  {
    assert Counted(s).count == s.count + 1;
  }

  /** A gap that comes one tooth too early for the count is taken for a loss of sync, at any RPM. */
  lemma GapTooEarly(st: Start, s: State, p: Pulse, pos: Position, pos': Position, loss: uint8)
    requires st.Valid() && Follows(st, pos, pos', p) && pos'.tooth == 1 && StampsUsable(s)
    requires Counts(st, s, pos, st.cfg.ActualTeeth() - 2, st.period, loss)
    ensures LostAtGap(st, PrimaryStep(st.cfg, s, p), pos', Next8(loss))
  {
    ValidIsSteady(st);
    GapDecides(st, s, p, pos.time);
    EarlyGapLoses(st.cfg, s, p);
    assert pos'.time - st.gap == pos.time;
  }

  lemma EarlyGapLoses(cfg: Config, s: State, p: Pulse)
    requires cfg.Valid() && s.sync.Full? && s.count == cfg.ActualTeeth() - 2
    ensures Decide(cfg, Counted(s), p, true) == Counted(s).(sync := None, syncLoss := Next8(s.syncLoss))
  {
    assert Counted(s).count == cfg.ActualTeeth() - 1 >= 3 * cfg.ActualTeeth() / 4;
  }

  /** The tooth after that comes so late that it is taken for tooth 1. */
  lemma TakenForToothOne(st: Start, s: State, p: Pulse, pos: Position, pos': Position, loss: uint8)
    requires st.Valid() && Follows(st, pos, pos', p) && pos.tooth == 1 && StampsUsable(s)
    requires LostAtGap(st, s, pos, loss)
    ensures Counts(st, PrimaryStep(st.cfg, s, p), pos', 1, st.gap + st.period, loss)
  {
    ValidIsSteady(st);
    LongGapDecides(st, s, p, pos.time - st.gap);
    LastToothTestsGap(st.cfg, s, p);
    assert pos'.time - (st.gap + st.period) == pos.time - st.gap;
  }

  /** One behind the wheel, the count is put right at the gap. */
  lemma GapPutsRight(st: Start, s: State, p: Pulse, pos: Position, pos': Position, loss: uint8)
    requires st.Valid() && Follows(st, pos, pos', p) && pos'.tooth == 1 && StampsUsable(s)
    requires Counts(st, s, pos, st.cfg.ActualTeeth() - 1, st.period, loss)
    ensures OnWheelAgain(st, PrimaryStep(st.cfg, s, p), pos', loss)
  {
    ValidIsSteady(st);
    GapDecides(st, s, p, pos.time);
    LastToothTestsGap(st.cfg, s, p);
    assert pos'.time - st.gap == pos.time;
  }

  /** On the wheel, nothing is lost. */
  lemma NothingLost(st: Start, s: State, p: Pulse, pos: Position, pos': Position, loss: uint8)
    requires st.Valid() && Follows(st, pos, pos', p) && OnWheelAgain(st, s, pos, loss) && StampsUsable(s)
    ensures OnWheelAgain(st, PrimaryStep(st.cfg, s, p), pos', loss)
  {
    StepStays(st, s, p, pos, pos');
    ValidIsSteady(st);
    if pos.tooth != st.cfg.ActualTeeth() {
      RegularDecides(st, s, p, pos.time, pos.interval);
      DecidesRegular(st.cfg, Counted(s), p);
    } else {
      GapDecides(st, s, p, pos.time);
      LastToothCounted(st.cfg, s, p);
    }
  }

  // ------------------------------------------------------------------ after a zero stamp

  /** The `k`th pulse after a zero stamp on the last tooth; `loss` is the loss counter at that tooth. */
  ghost predicate AfterLast(st: Start, s: State, k: nat, pos: Position, loss: uint8) {
    var teeth := st.cfg.ActualTeeth();
    if k == 1 then pos.tooth == 1 && Counts(st, s, pos, teeth + 1, st.gap, loss)
    else if k == 2 then pos.tooth == 2 && Counts(st, s, pos, teeth + 2, st.period, loss)
    else if k <= teeth then pos.tooth == k && Counts(st, s, pos, k - 2, st.period, loss)
    else if k == teeth + 1 then pos.tooth == 1 && LostAtGap(st, s, pos, Next8(loss))
    else if k <= 2 * teeth then
      && pos.tooth == k - teeth
      && Counts(st, s, pos, pos.tooth - 1, if k == teeth + 2 then st.gap + st.period else st.period, Next8(loss))
    else OnWheelAgain(st, s, pos, Next8(loss))
  }

  lemma AfterLastStep(st: Start, s: State, p: Pulse, k: nat, pos: Position, pos': Position, loss: uint8)
    requires st.Valid() && Follows(st, pos, pos', p) && k >= 1 && AfterLast(st, s, k, pos, loss)
    requires if k == 1 then !StampsUsable(s) else StampsUsable(s)
    ensures AfterLast(st, PrimaryStep(st.cfg, s, p), k + 1, pos', loss)
  {
    var teeth := st.cfg.ActualTeeth();
    ValidIsSteady(st);
    if k == 1 {
      Swallowed(st, s, p, pos, pos', teeth + 1, st.gap, loss);
    } else if k == 2 {
      Overflows(st, s, p, pos, pos', teeth + 2, st.period, loss);
    } else if k < teeth {
      Regular(st, s, p, pos, pos', k - 2, st.period, loss);
    } else if k == teeth {
      GapTooEarly(st, s, p, pos, pos', loss);
    } else if k == teeth + 1 {
      TakenForToothOne(st, s, p, pos, pos', Next8(loss));
    } else if k < 2 * teeth {
      var interval := if k == teeth + 2 then st.gap + st.period else st.period;
      Regular(st, s, p, pos, pos', pos.tooth - 1, interval, Next8(loss));
    } else if k == 2 * teeth {
      GapPutsRight(st, s, p, pos, pos', Next8(loss));
    } else {
      NothingLost(st, s, p, pos, pos', Next8(loss));
    }
  }

  /** The `k`th pulse after a zero stamp on the last tooth but one. */
  ghost predicate AfterLastButOne(st: Start, s: State, k: nat, pos: Position, loss: uint8) {
    var teeth := st.cfg.ActualTeeth();
    if k == 1 then pos.tooth == teeth && Counts(st, s, pos, teeth, st.period, loss)
    else if k == 2 then pos.tooth == 1 && Counts(st, s, pos, teeth + 1, st.gap, loss)
    else if k <= teeth + 1 then pos.tooth == k - 1 && Counts(st, s, pos, k - 2, st.period, loss)
    else OnWheelAgain(st, s, pos, loss)
  }

  lemma AfterLastButOneStep(st: Start, s: State, p: Pulse, k: nat, pos: Position, pos': Position, loss: uint8)
    requires st.Valid() && Follows(st, pos, pos', p) && k >= 1 && AfterLastButOne(st, s, k, pos, loss)
    requires if k == 1 then !StampsUsable(s) else StampsUsable(s)
    ensures AfterLastButOne(st, PrimaryStep(st.cfg, s, p), k + 1, pos', loss)
  {
    var teeth := st.cfg.ActualTeeth();
    ValidIsSteady(st);
    if k == 1 {
      Swallowed(st, s, p, pos, pos', teeth, st.period, loss);
    } else if k == 2 {
      Overflows(st, s, p, pos, pos', teeth + 1, st.gap, loss);
    } else if k <= teeth {
      Regular(st, s, p, pos, pos', k - 2, st.period, loss);
    } else if k == teeth + 1 {
      GapPutsRight(st, s, p, pos, pos', loss);
    } else {
      NothingLost(st, s, p, pos, pos', loss);
    }
  }

  // ------------------------------------------------------------------ over the run

  /** Pulse `m` is stamped zero, and no other from the one before it up to pulse `n`. */
  ghost predicate OnlyZero(st: Start, m: nat, n: nat)
    requires st.Valid()
  {
    && m >= 1 && Stamp(st.At(m).time) == 0
    && forall i: nat | m <= i + 1 && i <= n && i != m :: Stamp(st.At(i).time) != 0
  }

  /** The pulse after the zero stamp is only counted, too. */
  lemma FirstAfter(st: Start, s: State, p: Pulse, pos: Position, pos': Position)
    requires st.Steady() && Follows(st, pos, pos', p) && OnWheel(st, s, pos) && Stamp(pos.time) == 0
    ensures Counts(st, PrimaryStep(st.cfg, s, p), pos', pos.tooth + 1, pos'.interval, s.syncLoss)
    ensures !StampsUsable(PrimaryStep(st.cfg, s, p))
  {
    Swallowed(st, s, p, pos, pos', pos.tooth, pos.interval, s.syncLoss);
    assert pos'.time - pos'.interval == pos.time;
  }

  /** Two pulses after it, both stamps can be used again, and so they remain. */
  lemma UsableAgain(
      st: Start, s: State, p: Pulse, pos: Position, pos': Position, count: int, interval: nat, loss: uint8)
    requires st.Steady() && Follows(st, pos, pos', p) && Counts(st, s, pos, count, interval, loss)
    requires !StampsUsable(s) && count <= st.cfg.ActualTeeth() + 1
    requires Stamp(pos.time) != 0 && p.now != 0
    ensures StampsUsable(PrimaryStep(st.cfg, s, p))
  {
    Swallowed(st, s, p, pos, pos', count, interval, loss);
    assert pos'.time - pos'.interval == pos.time;
  }

  lemma {:induction false} AfterLastAt(st: Start, m: nat, n: nat)
    requires st.Valid() && OnlyZero(st, m, n) && m < n
    requires OnWheel(st, st.StateAt(m), st.At(m)) && st.At(m).tooth == st.cfg.ActualTeeth()
    ensures AfterLast(st, st.StateAt(n), n - m, st.At(n), st.StateAt(m).syncLoss)
    ensures StampsUsable(st.StateAt(n)) <==> n > m + 1
    decreases n
  {
    var teeth, loss := st.cfg.ActualTeeth(), st.StateAt(m).syncLoss;
    ValidIsSteady(st);
    NextStep(st, n);
    if n == m + 1 {
      FirstAfter(st, st.StateAt(m), st.PulseAt(n), st.At(m), st.At(n));
    } else {
      AfterLastAt(st, m, n - 1);
      AfterLastStep(st, st.StateAt(n - 1), st.PulseAt(n), n - 1 - m, st.At(n - 1), st.At(n), loss);
      if n == m + 2 {
        UsableAgain(st, st.StateAt(n - 1), st.PulseAt(n), st.At(n - 1), st.At(n), teeth + 1, st.gap, loss);
      } else {
        StampsStayUsable(st.cfg, st.StateAt(n - 1), st.PulseAt(n));
      }
    }
  }

  lemma {:induction false} AfterLastButOneAt(st: Start, m: nat, n: nat)
    requires st.Valid() && OnlyZero(st, m, n) && m < n
    requires OnWheel(st, st.StateAt(m), st.At(m)) && st.At(m).tooth == st.cfg.ActualTeeth() - 1
    ensures AfterLastButOne(st, st.StateAt(n), n - m, st.At(n), st.StateAt(m).syncLoss)
    ensures StampsUsable(st.StateAt(n)) <==> n > m + 1
    decreases n
  {
    var teeth, loss := st.cfg.ActualTeeth(), st.StateAt(m).syncLoss;
    ValidIsSteady(st);
    NextStep(st, n);
    if n == m + 1 {
      FirstAfter(st, st.StateAt(m), st.PulseAt(n), st.At(m), st.At(n));
    } else {
      AfterLastButOneAt(st, m, n - 1);
      AfterLastButOneStep(st, st.StateAt(n - 1), st.PulseAt(n), n - 1 - m, st.At(n - 1), st.At(n), loss);
      if n == m + 2 {
        UsableAgain(st, st.StateAt(n - 1), st.PulseAt(n), st.At(n - 1), st.At(n), teeth, st.period, loss);
      } else {
        StampsStayUsable(st.cfg, st.StateAt(n - 1), st.PulseAt(n));
      }
    }
  }

  /**
    A zero stamp on the last tooth before the gap: the decoder is at a wrong tooth, or without sync, for
    exactly two turns. It loses sync once, at the second gap, and is on the wheel from the third on.
  */
  lemma RecoversAfterLastTooth(st: Start, m: nat, n: nat)
    requires st.Valid() && st.Quiet(st.LockedFrom()) && m >= st.LockedFrom() && ToothOnesSeen(st, m)
    requires OnlyZero(st, m, n) && m < n && st.At(m).tooth == st.cfg.ActualTeeth()
    ensures Tracks(st.cfg, st.StateAt(n), st.At(n).tooth) <==> n > m + 2 * st.cfg.ActualTeeth()
    ensures n > m + 2 * st.cfg.ActualTeeth() ==> OnWheel(st, st.StateAt(n), st.At(n))
    ensures var loss := st.StateAt(m).syncLoss;
      st.StateAt(n).syncLoss == if n <= m + st.cfg.ActualTeeth() then loss else Next8(loss)
  {
    OnWheelAt(st, m);
    AfterLastAt(st, m, n);
  }

  /**
    A zero stamp on the tooth before that: the decoder is at a wrong tooth for one turn, from tooth 1 up
    to the next gap, without losing sync, and on the wheel from then on.
  */
  lemma RecoversAfterLastButOne(st: Start, m: nat, n: nat)
    requires st.Valid() && st.Quiet(st.LockedFrom()) && m >= st.LockedFrom() && ToothOnesSeen(st, m)
    requires OnlyZero(st, m, n) && m < n && st.At(m).tooth == st.cfg.ActualTeeth() - 1
    ensures Tracks(st.cfg, st.StateAt(n), st.At(n).tooth) <==> n == m + 1 || n > m + st.cfg.ActualTeeth() + 1
    ensures n > m + st.cfg.ActualTeeth() + 1 ==> OnWheel(st, st.StateAt(n), st.At(n))
    ensures st.StateAt(n).syncLoss == st.StateAt(m).syncLoss
  {
    OnWheelAt(st, m);
    AfterLastButOneAt(st, m, n);
  }
}
