/**
  The fuel and ignition cut. A channel mask is modelled as the set of the channels whose bit is 1;
  the byte that holds it has room for channels 0..7.
*/
module EngineProtection {
  import opened Machine

  datatype CutType = Off | Ignition | Fuel | Both
  datatype CutStatus = None | Full | Rolling

  datatype CutState = CutState(pending: set<nat>, ignition: set<nat>, fuel: set<nat>, status: CutStatus)

  datatype RevLimitMode = Fixed | Coolant | NoLimit

  /** The part of the tune that decides about cuts. */
  datatype Config = Config(
    protect: CutType,
    fourStroke: bool,
    sequentialSpark: bool,
    sequentialFuel: bool,
    rollingCut: bool,
    rollingWindow: nat,
    initialCycles: uint8,
    revLimitMode: RevLimitMode,
    hardRevLimit: uint8,
    protectRevLimit: uint8,
    launchRevLimit: uint8,
    ignitionOutputs: uint8,
    injectorChannels: uint8)
  {
    predicate NonSequential() { !sequentialSpark || !sequentialFuel }

    function BaseRevolutions(): nat { if fourStroke then 2 else 1 }

    /** How many revolutions one draw of the rolling cut lasts. */
    function CutRevolutions(): nat {
      if NonSequential() then BaseRevolutions() * 2 else BaseRevolutions()
    }

    predicate SupportsPending() { fourStroke && NonSequential() && protect.Both? }

    function Channels(): nat { Max(ignitionOutputs, injectorChannels) }
  }

  /** What the engine shows at one evaluation, and the random draw for each channel. */
  datatype Reading = Reading(
    synced: bool,
    revolutions: uint32,
    rpm: uint16,
    coolantLimit: uint8,
    protecting: bool,
    launching: bool,
    flatShifting: bool,
    clutchRpm: uint16,
    cutPercent: uint8,
    draws: seq<nat>)

  function Min(a: nat, b: nat): nat { if a < b then a else b }

  function Max(a: nat, b: nat): nat { if a < b then b else a }

  /** The mask with its first `n` bits set. */
  function FirstChannels(n: nat): set<nat> { set c | c in ALL_CHANNELS && c < n }

  const ALL_CHANNELS: set<nat> := {0, 1, 2, 3, 4, 5, 6, 7}
  const CUT_NONE := CutState({}, ALL_CHANNELS, ALL_CHANNELS, None)

  function FullCut(protect: CutType): CutState {
    match protect
    case Ignition => CutState({}, {}, ALL_CHANNELS, Full)
    case Fuel => CutState({}, ALL_CHANNELS, {}, Full)
    case _ => CutState({}, {}, {}, Full)
  }

  function SetBit(mask: set<nat>, c: nat): set<nat> { if c < 8 then mask + {c} else mask }

  function ChannelOff(s: CutState, protect: CutType, c: nat): CutState {
    match protect
    case Ignition => s.(ignition := s.ignition - {c})
    case Fuel => s.(fuel := s.fuel - {c})
    case _ => s.(ignition := s.ignition - {c}, fuel := s.fuel - {c})
  }

  /** Where pending is supported, ignition waits if the channel had no fuel until now. */
  function ChannelOn(s: CutState, supportsPending: bool, c: nat): CutState {
    (if supportsPending && c !in s.fuel then s.(pending := SetBit(s.pending, c))
     else s.(ignition := SetBit(s.ignition, c))).(fuel := SetBit(s.fuel, c))
  }

  /** The channels that a draw cuts, and those it leaves on. */
  function DrawnOff(draws: seq<nat>, percent: nat): set<nat> {
    set c: nat | c < Min(|draws|, 8) && draws[c] < percent
  }

  function DrawnOn(draws: seq<nat>, percent: nat): set<nat> {
    set c: nat | c < Min(|draws|, 8) && draws[c] >= percent
  }

  /** The rolling cut on all channels at once. */
  function Roll(s: CutState, protect: CutType, supportsPending: bool, percent: nat, draws: seq<nat>): CutState {
    Rolled(s, protect, supportsPending, DrawnOff(draws, percent), DrawnOn(draws, percent))
  }

  function Rolled(s: CutState, protect: CutType, supportsPending: bool, off: set<nat>, on: set<nat>): CutState {
    CutState(
      if supportsPending then s.pending + (on - s.fuel) else s.pending,
      (if protect.Fuel? then s.ignition else s.ignition - off) + (if supportsPending then on * s.fuel else on),
      (if protect.Ignition? then s.fuel else s.fuel - off) + on,
      Rolling)
  }

  /** Ignition that waited for its fuel comes back two revolutions after the draw. */
  function ApplyPending(s: CutState, revolutions: uint32, lastRev: uint32): CutState {
    if s.pending != {} && revolutions >= (lastRev + 2) % TWO32
    then CutState({}, s.fuel, s.fuel, Rolling)
    else s
  }

  function MaskUnused(s: CutState, cfg: Config): CutState {
    s.(ignition := s.ignition * FirstChannels(cfg.ignitionOutputs),
       fuel := s.fuel * FirstChannels(cfg.injectorChannels))
  }

  /** The cut state together with the revolution at which the rolling cut was last drawn. */
  datatype Machinery = Machinery(cut: CutState, lastRev: uint32)

  /** The draw is renewed once enough revolutions have passed since the last one. */
  predicate Redraws(cfg: Config, lastRev: uint32, revolutions: uint32) {
    revolutions >= (lastRev + cfg.CutRevolutions()) % TWO32
  }

  function FirstRev(lastRev: uint32, revolutions: uint32): uint32 {
    if lastRev == 0 then revolutions else lastRev
  }

  function RollingStep(cfg: Config, m: Machinery, r: Reading): Machinery {
    var lastRev := FirstRev(m.lastRev, r.revolutions);
    if Redraws(cfg, lastRev, r.revolutions) then
      var rolled := Roll(m.cut, cfg.protect, cfg.SupportsPending(), r.cutPercent, r.draws);
      Machinery(ApplyPending(rolled, r.revolutions, r.revolutions), r.revolutions)
    else Machinery(ApplyPending(m.cut, r.revolutions, lastRev), lastRev)
  }

  /** The lowest of the limits in force. Limits are stored in hundreds of RPM. */
  function MaxRpm(cfg: Config, r: Reading): uint16 {
    var hard := match cfg.revLimitMode
      case Fixed => cfg.hardRevLimit
      case Coolant => r.coolantLimit
      case NoLimit => 255;
    var protect := if r.protecting then Min(hard, cfg.protectRevLimit) else hard;
    var launch := if r.launching then Min(protect, cfg.launchRevLimit) else protect;
    if r.flatShifting then Min(launch * 100, r.clutchRpm) else launch * 100
  }

  datatype Decision = CutAll | CutNothing | CutFully | CutRolling

  function Decide(cfg: Config, r: Reading): Decision {
    if !r.synced || r.revolutions < cfg.initialCycles then CutAll
    else if cfg.protect.Off? then CutNothing
    else if r.rpm >= MaxRpm(cfg, r) then CutFully
    else if cfg.rollingCut && r.rpm > MaxRpm(cfg, r) - cfg.rollingWindow then CutRolling
    else CutNothing
  }

  /** One evaluation of the cut. */
  function CutStep(cfg: Config, m: Machinery, r: Reading): Machinery {
    match Decide(cfg, r)
    case CutAll => m.(cut := MaskUnused(FullCut(Both), cfg))
    case CutFully => m.(cut := MaskUnused(FullCut(cfg.protect), cfg))
    case CutNothing => m.(cut := MaskUnused(CUT_NONE, cfg))
    case CutRolling =>
      var rolled := RollingStep(cfg, m, r);
      rolled.(cut := MaskUnused(rolled.cut, cfg))
  }

  lemma DrawnStep(draws: seq<nat>, percent: nat, k: nat)
    requires k < |draws| && k < 8
    ensures DrawnOff(draws[..k + 1], percent) ==
            DrawnOff(draws[..k], percent) + (if draws[k] < percent then {k} else {})
    ensures DrawnOn(draws[..k + 1], percent) ==
            DrawnOn(draws[..k], percent) + (if draws[k] >= percent then {k} else {})
    ensures k !in DrawnOff(draws[..k], percent) && k !in DrawnOn(draws[..k], percent)
  {
  }

  lemma RolledOff(s: CutState, protect: CutType, supportsPending: bool, off: set<nat>, on: set<nat>, k: nat)
    requires k !in on
    ensures Rolled(s, protect, supportsPending, off + {k}, on) ==
            ChannelOff(Rolled(s, protect, supportsPending, off, on), protect, k)
  {
  }

  lemma RolledOn(s: CutState, protect: CutType, supportsPending: bool, off: set<nat>, on: set<nat>, k: nat)
    requires k !in off && k !in on && k < 8
    ensures Rolled(s, protect, supportsPending, off, on + {k}) ==
            ChannelOn(Rolled(s, protect, supportsPending, off, on), supportsPending, k)
  {
    var before := Rolled(s, protect, supportsPending, off, on);
    assert k in before.fuel <==> k in s.fuel;
  }

  /** The loop may run past the eight channels a mask has room for; nothing happens there. */
  lemma OutsideTheMask(s: CutState, protect: CutType, supportsPending: bool, k: nat)
    requires s.fuel <= ALL_CHANNELS && s.ignition <= ALL_CHANNELS && k >= 8
    ensures ChannelOff(s, protect, k) == s && ChannelOn(s, supportsPending, k) == s
  {
    assert s.ignition - {k} == s.ignition && s.fuel - {k} == s.fuel;
  }

  lemma RollStaysInMask(s: CutState, protect: CutType, supportsPending: bool, percent: nat, draws: seq<nat>)
    requires s.fuel <= ALL_CHANNELS && s.ignition <= ALL_CHANNELS
    ensures var r := Roll(s, protect, supportsPending, percent, draws);
      r.fuel <= ALL_CHANNELS && r.ignition <= ALL_CHANNELS
  {
    assert DrawnOn(draws, percent) <= ALL_CHANNELS;
  }

  lemma DrawnOutside(draws: seq<nat>, percent: nat, k: nat)
    requires 8 <= k < |draws|
    ensures DrawnOff(draws[..k + 1], percent) == DrawnOff(draws[..k], percent)
    ensures DrawnOn(draws[..k + 1], percent) == DrawnOn(draws[..k], percent)
  {
  }

  lemma RollStepOff(s: CutState, protect: CutType, supportsPending: bool, percent: nat, draws: seq<nat>, k: nat)
    requires k < |draws| && s.fuel <= ALL_CHANNELS && s.ignition <= ALL_CHANNELS && draws[k] < percent
    ensures Roll(s, protect, supportsPending, percent, draws[..k + 1]) ==
            ChannelOff(Roll(s, protect, supportsPending, percent, draws[..k]), protect, k)
  {
    var off, on := DrawnOff(draws[..k], percent), DrawnOn(draws[..k], percent);
    if k < 8 {
      DrawnStep(draws, percent, k);
      RolledOff(s, protect, supportsPending, off, on, k);
      assert on + {} == on;
    } else {
      DrawnOutside(draws, percent, k);
      RollStaysInMask(s, protect, supportsPending, percent, draws[..k]);
      OutsideTheMask(Rolled(s, protect, supportsPending, off, on), protect, supportsPending, k);
    }
  }

  lemma RollStepOn(s: CutState, protect: CutType, supportsPending: bool, percent: nat, draws: seq<nat>, k: nat)
    requires k < |draws| && s.fuel <= ALL_CHANNELS && s.ignition <= ALL_CHANNELS && draws[k] >= percent
    ensures Roll(s, protect, supportsPending, percent, draws[..k + 1]) ==
            ChannelOn(Roll(s, protect, supportsPending, percent, draws[..k]), supportsPending, k)
  {
    var off, on := DrawnOff(draws[..k], percent), DrawnOn(draws[..k], percent);
    if k < 8 {
      DrawnStep(draws, percent, k);
      RolledOn(s, protect, supportsPending, off, on, k);
      assert off + {} == off;
    } else {
      DrawnOutside(draws, percent, k);
      RollStaysInMask(s, protect, supportsPending, percent, draws[..k]);
      OutsideTheMask(Rolled(s, protect, supportsPending, off, on), protect, supportsPending, k);
    }
  }

  class CutController {
    const cfg: Config
    var cutState: CutState
    var rollingCutLastRev: uint32

    function Abs(): Machinery
      reads this
    {
      Machinery(cutState, rollingCutLastRev)
    }

    constructor (cfg: Config)
      ensures Abs() == Machinery(CUT_NONE, 0) && this.cfg == cfg
    {
      this.cfg := cfg;
      cutState, rollingCutLastRev := CUT_NONE, 0;
    }

    /** The rolling cut draws for each channel in turn. */
    method ApplyRollingCutPercentage(percent: uint8, draws: seq<nat>) returns (s: CutState)
      requires |draws| == cfg.Channels()
      requires cutState.fuel <= ALL_CHANNELS && cutState.ignition <= ALL_CHANNELS
      ensures s == Roll(cutState, cfg.protect, cfg.SupportsPending(), percent, draws)
    {
      s := cutState.(status := Rolling);
      assert s == Roll(cutState, cfg.protect, cfg.SupportsPending(), percent, draws[..0]);
      for channel := 0 to cfg.Channels()
        invariant s == Roll(cutState, cfg.protect, cfg.SupportsPending(), percent, draws[..channel])
      {
        if draws[channel] < percent {
          RollStepOff(cutState, cfg.protect, cfg.SupportsPending(), percent, draws, channel);
          s := ChannelOff(s, cfg.protect, channel);
        } else {
          RollStepOn(cutState, cfg.protect, cfg.SupportsPending(), percent, draws, channel);
          s := ChannelOn(s, cfg.SupportsPending(), channel);
        }
      }
      assert draws[..cfg.Channels()] == draws;
    }

    method ApplyRollingCut(r: Reading) returns (s: CutState)
      requires |r.draws| == cfg.Channels()
      requires cutState.fuel <= ALL_CHANNELS && cutState.ignition <= ALL_CHANNELS
      modifies this`rollingCutLastRev
      ensures Machinery(s, rollingCutLastRev) == RollingStep(cfg, old(Abs()), r)
    {
      if rollingCutLastRev == 0 {
        rollingCutLastRev := r.revolutions;
      }
      if r.revolutions >= (rollingCutLastRev + cfg.CutRevolutions()) % TWO32 {
        rollingCutLastRev := r.revolutions;
        s := ApplyRollingCutPercentage(r.cutPercent, r.draws);
      } else {
        s := cutState;
      }
      if s.pending != {} && r.revolutions >= (rollingCutLastRev + 2) % TWO32 {
        s := CutState({}, s.fuel, s.fuel, Rolling);
      }
    }

    /** Evaluate the cut and put the result in force. */
    method CalculateFuelIgnitionChannelCut(r: Reading)
      requires |r.draws| == cfg.Channels()
      requires cutState.fuel <= ALL_CHANNELS && cutState.ignition <= ALL_CHANNELS
      modifies this
      ensures Abs() == CutStep(cfg, old(Abs()), r)
      ensures cutState.fuel <= ALL_CHANNELS && cutState.ignition <= ALL_CHANNELS
    {
      var s := CUT_NONE;
      if !r.synced || r.revolutions < cfg.initialCycles {
        s := FullCut(Both);
      } else if cfg.protect != Off {
        var maxAllowedRpm := MaxRpm(cfg, r);
        if r.rpm >= maxAllowedRpm {
          s := FullCut(cfg.protect);
        } else if cfg.rollingCut && r.rpm > maxAllowedRpm - cfg.rollingWindow {
          s := ApplyRollingCut(r);
        }
      }
      cutState := MaskUnused(s, cfg);
    }
  }
}
