/** Digital knock control: ignition retard is applied on knock and given back in steps. */
module KnockRecovery {
  import opened Machine

  datatype Config = Config(
    threshold: uint8, firstStep: uint8, stepSize: uint8, stepTime: uint8, maxRetard: uint8,
    duration: uint8, recoveryStepTime: uint8, recoveryStep: uint8)
  {
    predicate Valid() { threshold < 8 && recoveryStepTime > 0 }

    /** The times in microseconds. */
    function Hold(): uint32 { duration * 100_000 }

    function StepPeriod(): uint32 { recoveryStepTime * 100_000 }
  }

  datatype State = State(
    startTime: uint32, lastRecoveryStep: uint8,
    retard: uint8, count: uint8, active: bool, pulseDetected: bool)

  /** The retard for a number of counted knocks, truncated to a byte. */
  function CountedRetard(cfg: Config, count: uint8): uint8 {
    (cfg.firstStep + (count - cfg.threshold) * cfg.stepSize) % TWO8
  }

  /** A pulse from the knock conditioner that passed the load and speed limits. */
  function KnockPulse(s: State): State {
    s.(count := if s.active then s.count else Next8(s.count), pulseDetected := true)
  }

  function AdditionalRetard(cfg: Config, s: State, now: uint32): State {
    if !s.pulseDetected || Elapsed(now, s.startTime) < cfg.stepTime * 1000 then s
    else s.(count := Next8(s.count), startTime := now, lastRecoveryStep := 0)
  }

  function AdditionalValue(cfg: Config, s: State, now: uint32, retard: uint8): uint8 {
    if !s.pulseDetected || Elapsed(now, s.startTime) < cfg.stepTime * 1000 then retard
    else CountedRetard(cfg, Next8(s.count))
  }

  function Quotient(n: nat, d: nat): nat
    requires d > 0
  {
    n / d
  }

  /** The recovery steps that are due at a time after activation. */
  function Steps(cfg: Config, elapsed: nat): nat
    requires cfg.Valid()
  {
    if elapsed < cfg.Hold() then 0 else Quotient(elapsed - cfg.Hold(), cfg.StepPeriod())
  }

  /** The firmware counts them in a byte. */
  function ByteSteps(cfg: Config, elapsed: uint32): uint8
    requires cfg.Valid()
  {
    Steps(cfg, elapsed) % TWO8
  }

  /** The retard given back in one poll, truncated to a byte. */
  function Adjustment(cfg: Config, steps: uint8, lastStep: uint8): uint8 {
    if steps > lastStep then (steps - lastStep) * cfg.recoveryStep % TWO8 else 0
  }

  /** One round of recovery; the retard is taken from the state, as it was before this poll. */
  function GiveBack(cfg: Config, s: State, steps: uint8): (State, uint8) {
    var adjustment := Adjustment(cfg, steps, s.lastRecoveryStep);
    var last := if steps > s.lastRecoveryStep then steps else s.lastRecoveryStep;
    if adjustment < s.retard then (s.(lastRecoveryStep := last), s.retard - adjustment)
    else (s.(lastRecoveryStep := last, active := false, startTime := 0, count := 0), 0)
  }

  function Recovered(cfg: Config, s: State, now: uint32, retard: uint8): (State, uint8)
    requires cfg.Valid()
  {
    var elapsed := Elapsed(now, s.startTime);
    if elapsed < cfg.Hold() then (s, retard) else GiveBack(cfg, s, ByteSteps(cfg, elapsed))
  }

  /** The state and the retard before the poll is finished. */
  function Commanded(cfg: Config, s: State, now: uint32): (State, uint8)
    requires cfg.Valid()
  {
    if s.count < cfg.threshold then (s, 0)
    else if s.active then
      Recovered(cfg, AdditionalRetard(cfg, s, now), now, AdditionalValue(cfg, s, now, s.retard))
    else (s.(startTime := now, active := true, lastRecoveryStep := 0), CountedRetard(cfg, s.count))
  }

  function Min(a: uint8, b: uint8): uint8 { if a < b then a else b }

  function Finished(cfg: Config, commanded: (State, uint8)): State {
    commanded.0.(pulseDetected := false, retard := Min(commanded.1, cfg.maxRetard))
  }

  /** One call of the timing correction. */
  function Poll(cfg: Config, s: State, now: uint32): State
    requires cfg.Valid()
  {
    Finished(cfg, Commanded(cfg, s, now))
  }

  class KnockControl {
    const cfg: Config
    var startTime: uint32
    var lastRecoveryStep: uint8
    var retard: uint8
    var count: uint8
    var active: bool
    var pulseDetected: bool

    function Abs(): State
      reads this
    {
      State(startTime, lastRecoveryStep, retard, count, active, pulseDetected)
    }

    constructor (cfg: Config)
      ensures this.cfg == cfg && Abs() == State(0, 0, 0, 1, false, false)
    {
      this.cfg := cfg;
      startTime, lastRecoveryStep, retard, count, active, pulseDetected := 0, 0, 0, 1, false, false;
    }

    method Pulse()
      modifies this`count, this`pulseDetected
      ensures Abs() == KnockPulse(old(Abs()))
    {
      if !active {
        count := Next8(count);
      }
      pulseDetected := true;
    }

    method ApplyAdditionalRetard(now: uint32, current: uint8) returns (r: uint8)
      modifies this`count, this`startTime, this`lastRecoveryStep
      ensures Abs() == AdditionalRetard(cfg, old(Abs()), now) && r == AdditionalValue(cfg, old(Abs()), now, current)
    {
      if !pulseDetected || Elapsed(now, startTime) < cfg.stepTime * 1000 {
        return current;
      }
      count := Next8(count);
      startTime := now;
      lastRecoveryStep := 0;
      r := CountedRetard(cfg, count);
    }

    method CalculateRecovery(now: uint32, current: uint8) returns (r: uint8)
      requires cfg.Valid()
      modifies this`count, this`startTime, this`lastRecoveryStep, this`active
      ensures (Abs(), r) == Recovered(cfg, old(Abs()), now, current)
    {
      r := current;
      var elapsed := Elapsed(now, startTime);
      if elapsed >= cfg.Hold() {
        var steps := ByteSteps(cfg, elapsed);
        var adjustment: uint8 := 0;
        if steps > lastRecoveryStep {
          adjustment := (steps - lastRecoveryStep) * cfg.recoveryStep % TWO8;
          lastRecoveryStep := steps;
        }
        if adjustment < retard {
          r := retard - adjustment;
        } else {
          r := 0;
          active := false;
          startTime := 0;
          count := 0;
        }
      }
    }

    method Command(now: uint32) returns (r: uint8)
      requires cfg.Valid()
      modifies this`count, this`startTime, this`lastRecoveryStep, this`active
      ensures (Abs(), r) == Commanded(cfg, old(Abs()), now)
    {
      r := 0;
      if count >= cfg.threshold {
        if active {
          r := ApplyAdditionalRetard(now, retard);
          r := CalculateRecovery(now, r);
        } else {
          startTime := now;
          r := CountedRetard(cfg, count);
          active := true;
          lastRecoveryStep := 0;
        }
      }
    }

    /** The corrected advance wraps at a signed byte. */
    method CorrectTiming(advance: int, now: uint32) returns (corrected: int)
      requires cfg.Valid() && -128 <= advance < 128
      modifies this
      ensures Abs() == Poll(cfg, old(Abs()), now)
      ensures -128 <= corrected < 128 && (corrected - (advance - retard)) % TWO8 == 0
    {
      var r := Command(now);
      pulseDetected := false;
      retard := Min(r, cfg.maxRetard);
      corrected := advance - retard;
      if corrected < -128 {
        corrected := corrected + TWO8;
      }
    }
  }
}
