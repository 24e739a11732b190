/** The missing-tooth primary decoder: its state, one pulse as a function, and the interrupt handler. */
module MissingTooth {
  import opened Machine
  import opened Decoders

  datatype TriggerFilter = Off | Lite | Medium | Aggressive
  datatype SecondaryPattern = Single | FourMinusOne | Poll | Toyota3

  /** The part of the tune the handler reads. `teeth` counts the missing ones too. */
  datatype Config = Config(
    teeth: uint8,
    missing: uint8,
    filter: TriggerFilter,
    camSpeed: bool,
    sequential: bool,
    twoStroke: bool,
    secondary: SecondaryPattern,
    pollLevel: bool)
  {
    /** A wheel with a gap and at least three real teeth. */
    ghost predicate Valid() {
      missing >= 1 && missing + 3 <= teeth
    }

    function ActualTeeth(): int { teeth - missing }

    /** Sync may be declared at the gap without waiting for a cam tooth. */
    predicate NeedsNoCam() {
      !sequential || camSpeed || secondary.Poll? || twoStroke
    }

    function RevolutionsPerTurn(): nat { if camSpeed then 2 else 1 }
  }

  /** One accepted edge of the primary input: time stamp, RPM reading and cam level at that moment. */
  datatype Pulse = Pulse(now: uint32, rpm: uint16, camHigh: bool)

  datatype State = State(
    last: uint32,
    lastMinusOne: uint32,
    count: uint16,
    filterTime: uint32,
    sync: SyncStatus,
    toothOne: uint32,
    toothOneMinusOne: uint32,
    startRevolutions: uint32,
    syncLoss: uint8,
    revolutionOne: bool,
    secondaryCount: nat,
    angleIsCorrect: bool,
    validTrigger: bool)

  /** The shortest next interval accepted after an interval `gap`. */
  function FilterTime(filter: TriggerFilter, gap: uint32): uint32 {
    match filter
    case Off => 0
    case Lite => gap / 4
    case Medium => gap / 2
    case Aggressive => (gap * 3) % TWO32 / 4
  }

  /** The interval above which a pulse is taken to follow the gap, given the interval before it. */
  function TargetGap(missing: uint8, gap: uint32): uint32 {
    if missing == 1 then (3 * gap) % TWO32 / 2 else (gap * missing) % TWO32
  }

  /** Whether the gap test runs for the tooth that has just been counted. */
  predicate TestsGap(cfg: Config, sync: SyncStatus, rpm: uint16, count: uint16) {
    sync != Full || rpm < 2000 || count >= 3 * cfg.ActualTeeth() / 4
  }

  function Shift(s: State, now: uint32): State {
    s.(lastMinusOne := s.last, last := now)
  }

  function RegularTooth(cfg: Config, s: State, now: uint32): State {
    Shift(s, now).(filterTime := FilterTime(cfg.filter, Elapsed(now, s.last)), angleIsCorrect := true)
  }

  function SyncAtToothOne(cfg: Config, s: State): SyncStatus {
    if cfg.NeedsNoCam() || s.secondaryCount > 0 || s.sync.Full? then Full else Partial
  }

  function RevolutionsAtToothOne(cfg: Config, s: State): uint32 {
    if s.sync.None? then 0 else (s.startRevolutions + cfg.RevolutionsPerTurn()) % TWO32
  }

  /** Which half of the engine cycle begins at tooth 1. */
  predicate HalfAtToothOne(cfg: Config, s: State, camHigh: bool) {
    if cfg.secondary.Poll? then cfg.pollLevel == camHigh else !s.revolutionOne
  }

  function SecondaryAfterToothOne(cfg: Config, s: State): nat {
    if cfg.secondary.Single? || cfg.secondary.Toyota3? then 0 else s.secondaryCount
  }

  function ToothOne(cfg: Config, s: State, p: Pulse): State {
    Shift(s, p.now).(
      count := 1,
      startRevolutions := RevolutionsAtToothOne(cfg, s),
      revolutionOne := HalfAtToothOne(cfg, s, p.camHigh),
      toothOneMinusOne := s.toothOne,
      toothOne := p.now,
      sync := SyncAtToothOne(cfg, s),
      secondaryCount := SecondaryAfterToothOne(cfg, s),
      filterTime := 0,
      angleIsCorrect := false)
  }

  function Counted(s: State): State {
    s.(count := Next16(s.count), validTrigger := true)
  }

  /** The interval before this pulse is more than the one before it can explain. */
  predicate AboveTarget(cfg: Config, s: State, p: Pulse) {
    Elapsed(p.now, s.last) > TargetGap(cfg.missing, Elapsed(s.last, s.lastMinusOne))
  }

  /** What becomes of a counted tooth. */
  function Decide(cfg: Config, c: State, p: Pulse, above: bool): State
    requires cfg.missing <= cfg.teeth
  {
    if TestsGap(cfg, c.sync, p.rpm, c.count) && (above || c.count > cfg.ActualTeeth()) then
      if c.count < cfg.ActualTeeth() && c.sync.Full? then
        c.(sync := None, syncLoss := Next8(c.syncLoss))
      else ToothOne(cfg, c, p)
    else RegularTooth(cfg, c, p.now)
  }

  /** What one pulse does to the decoder. */
  function PrimaryStep(cfg: Config, s: State, p: Pulse): State
    requires cfg.missing <= cfg.teeth
  {
    if Elapsed(p.now, s.last) < s.filterTime then s
    else if s.last == 0 || s.lastMinusOne == 0 then Shift(Counted(s), p.now)
    else Decide(cfg, Counted(s), p, AboveTarget(cfg, s, p))
  }

  /** The shortest possible time between two teeth, which is at the highest RPM supported. */
  function SetupFilterTime(teeth: uint8): uint32
    requires teeth > 0
  {
    MICROS_PER_SEC / (MAX_RPM / 60 * teeth)
  }

  /** The decoder after its set-up routine, whatever it held before. */
  function SetupState(cfg: Config, s: State): State
    requires cfg.teeth > 0
  {
    s.(last := 0, lastMinusOne := 0, count := 0, sync := None, secondaryCount := 0,
       toothOne := 0, toothOneMinusOne := 0, validTrigger := false,
       filterTime := SetupFilterTime(cfg.teeth))
  }

  /** The decoder after a reset, which keeps the tooth count. */
  function ResetState(s: State): State {
    s.(last := 0, secondaryCount := 0, sync := None, filterTime := 0, validTrigger := false)
  }

  /** The decoder after a stall: reset, with no revolutions counted, and set up again unless a log is being taken. */
  function StalledState(cfg: Config, logging: bool, s: State): State
    requires cfg.teeth > 0
  {
    (if logging then ResetState(s) else SetupState(cfg, s)).(startRevolutions := 0)
  }

  class Decoder {
    const cfg: Config
    var toothLastToothTime: uint32
    var toothLastMinusOneToothTime: uint32
    var toothCurrentCount: uint16
    var triggerFilterTime: uint32
    var syncStatus: SyncStatus
    var toothOneTime: uint32
    var toothOneMinusOneTime: uint32
    var startRevolutions: uint32
    var syncLossCounter: uint8
    var revolutionOne: bool
    var secondaryToothCount: nat
    var toothAngleIsCorrect: bool
    var validTrigger: bool

    function Abs(): State
      reads this
    {
      State(toothLastToothTime, toothLastMinusOneToothTime, toothCurrentCount, triggerFilterTime, syncStatus,
            toothOneTime, toothOneMinusOneTime, startRevolutions, syncLossCounter, revolutionOne,
            secondaryToothCount, toothAngleIsCorrect, validTrigger)
    }

    constructor (cfg: Config)
      requires cfg.teeth > 0
      ensures this.cfg == cfg
    {
      this.cfg := cfg;
      syncStatus := None;
      toothLastToothTime, toothLastMinusOneToothTime, toothCurrentCount := 0, 0, 0;
      triggerFilterTime, toothOneTime, toothOneMinusOneTime := 0, 0, 0;
      startRevolutions, syncLossCounter, secondaryToothCount := 0, 0, 0;
      revolutionOne, toothAngleIsCorrect, validTrigger := false, false, false;
    }

    method Setup()
      requires cfg.teeth > 0
      modifies this
      ensures Abs() == SetupState(cfg, old(Abs()))
    {
      Reset();
      triggerFilterTime := SetupFilterTime(cfg.teeth);
      toothLastMinusOneToothTime := 0;
      toothCurrentCount := 0;
      toothOneTime := 0;
      toothOneMinusOneTime := 0;
    }

    method Reset()
      modifies this`toothLastToothTime, this`secondaryToothCount, this`syncStatus, this`triggerFilterTime
      modifies this`validTrigger
      ensures Abs() == ResetState(old(Abs()))
    {
      toothLastToothTime := 0;
      secondaryToothCount := 0;
      syncStatus := None;
      triggerFilterTime := 0;
      validTrigger := false;
    }

    /** What the main loop does when the engine has stopped. */
    method Stall(logging: bool)
      requires cfg.teeth > 0
      modifies this
      ensures Abs() == StalledState(cfg, logging, old(Abs()))
    {
      Reset();
      startRevolutions := 0;
      if !logging {
        Setup();
      }
    }

    method SetFilter(gap: uint32)
      modifies this`triggerFilterTime
      ensures Abs() == old(Abs()).(filterTime := FilterTime(cfg.filter, gap))
    {
      match cfg.filter
      case Off => triggerFilterTime := 0;
      case Lite => triggerFilterTime := gap / 4;
      case Medium => triggerFilterTime := gap / 2;
      case Aggressive => triggerFilterTime := (gap * 3) % TWO32 / 4;
    }

    method ShiftTeeth(now: uint32)
      modifies this`toothLastToothTime, this`toothLastMinusOneToothTime
      ensures Abs() == Shift(old(Abs()), now)
    {
      toothLastMinusOneToothTime := toothLastToothTime;
      toothLastToothTime := now;
    }

    /** The primary trigger interrupt. Per-tooth ignition timing is not part of this model. */
    method TriggerPrimary(now: uint32, rpm: uint16, camHigh: bool)
      requires cfg.missing <= cfg.teeth
      modifies this
      ensures Abs() == PrimaryStep(cfg, old(Abs()), Pulse(now, rpm, camHigh))
    {
      var curGap := Elapsed(now, toothLastToothTime);
      if curGap >= triggerFilterTime {
        toothCurrentCount := Next16(toothCurrentCount);
        validTrigger := true;
        if toothLastToothTime > 0 && toothLastMinusOneToothTime > 0 {
          var isMissingTooth := false;
          if TestsGap(cfg, syncStatus, rpm, toothCurrentCount) {
            var targetGap := TargetGap(cfg.missing, Elapsed(toothLastToothTime, toothLastMinusOneToothTime));
            if curGap > targetGap || toothCurrentCount > cfg.ActualTeeth() {
              isMissingTooth := true;
              if toothCurrentCount < cfg.ActualTeeth() && syncStatus == Full {
                syncStatus := None;
                syncLossCounter := Next8(syncLossCounter);
              } else {
                PassToothOne(now, camHigh);
              }
            }
          }
          if !isMissingTooth {
            SetFilter(curGap);
            ShiftTeeth(now);
            toothAngleIsCorrect := true;
          }
        } else {
          ShiftTeeth(now);
        }
      }
    }

    /** The branch of the handler taken at the first tooth after the gap. */
    method PassToothOne(now: uint32, camHigh: bool)
      modifies this
      ensures Abs() == ToothOne(cfg, old(Abs()), Pulse(now, 0, camHigh))
    {
      CountRevolution(camHigh);
      toothOneMinusOneTime := toothOneTime;
      toothOneTime := now;
      DeclareSync();
      ResetSecondary();
      triggerFilterTime := 0;
      ShiftTeeth(now);
      toothAngleIsCorrect := false;
    }

    method ResetSecondary()
      modifies this`secondaryToothCount
      ensures Abs() == old(Abs()).(secondaryCount := SecondaryAfterToothOne(cfg, old(Abs())))
    {
      if cfg.secondary == Single || cfg.secondary == Toyota3 {
        secondaryToothCount := 0;
      }
    }

    method CountRevolution(camHigh: bool)
      modifies this`startRevolutions, this`toothCurrentCount, this`revolutionOne
      ensures Abs() == old(Abs()).(
        count := 1,
        startRevolutions := RevolutionsAtToothOne(cfg, old(Abs())),
        revolutionOne := HalfAtToothOne(cfg, old(Abs()), camHigh))
    {
      CountTurn();
      toothCurrentCount := 1;
      if cfg.secondary == Poll {
        revolutionOne := cfg.pollLevel == camHigh;
      } else {
        revolutionOne := !revolutionOne;
      }
    }

    method CountTurn()
      modifies this`startRevolutions
      ensures Abs() == old(Abs()).(startRevolutions := RevolutionsAtToothOne(cfg, old(Abs())))
    {
      if syncStatus != None {
        startRevolutions := Next32(startRevolutions);
        if cfg.camSpeed {
          startRevolutions := Next32(startRevolutions);
        }
      } else {
        startRevolutions := 0;
      }
    }

    method DeclareSync()
      modifies this`syncStatus
      ensures Abs() == old(Abs()).(sync := SyncAtToothOne(cfg, old(Abs())))
    {
      if cfg.sequential {
        if secondaryToothCount > 0 || cfg.camSpeed || cfg.secondary == Poll || cfg.twoStroke {
          syncStatus := Full;
        } else if syncStatus != Full {
          syncStatus := Partial;
        }
      } else {
        syncStatus := Full;
      }
    }
  }
}
