/** The Subaru 6/7 decoder: crank and cam handlers sharing one state. */
module Subaru67 {
  import opened Machine
  import opened Decoders

  datatype State = State(
    last: uint32,
    lastMinusOne: uint32,
    filterTime: uint32,
    count: uint16,
    sinceCam: uint8,
    camTeeth: nat,
    sync: SyncStatus,
    syncLoss: uint8,
    toothOne: uint32,
    toothOneMinusOne: uint32,
    startRevolutions: uint32,
    lastSec: uint32,
    secFilterTime: uint32)

  /** The shortest crank interval, as the set-up fixes it. */
  const CRANK_FILTER: uint32 := MICROS_PER_SEC / (MAX_RPM / 60 * 360)

  function Lose(s: State, count: uint16): State {
    s.(count := count, sync := None, syncLoss := Next8(s.syncLoss), camTeeth := 0)
  }

  function Confirm(s: State): State { s.(sync := Full, camTeeth := 0) }

  /** More than thirteen teeth since tooth 1: sync is lost. */
  function Overrun(s: State): State {
    if s.count > 13 then s.(count := 0, sync := None, syncLoss := Next8(s.syncLoss)) else s
  }

  /** Compare the count with what the cam teeth since the last crank tooth say it should be. */
  function CheckCamTeeth(s: State): State {
    if s.camTeeth == 0 then s
    else if s.camTeeth == 1 then if s.count == 5 || s.count == 11 then Confirm(s) else Lose(s, 5)
    else if s.camTeeth == 2 then if s.count == 8 then Confirm(s) else Lose(s, 8)
    else if s.camTeeth == 3 then if s.count == 2 then Confirm(s) else Lose(s, 2)
    else Lose(s, s.count)
  }

  /** The end of a cycle of twelve teeth. */
  function WrapCycle(s: State): State {
    if s.sync.Full? && s.count > 12 then
      s.(count := 1, toothOneMinusOne := s.toothOne, toothOne := s.last, startRevolutions := Next32(s.startRevolutions))
    else s
  }

  function CrankStep(s: State, now: uint32): State {
    if Elapsed(now, s.last) < s.filterTime then s
    else
      WrapCycle(CheckCamTeeth(Overrun(
        s.(count := Next16(s.count), sinceCam := Next8(s.sinceCam), lastMinusOne := s.last, last := now))))
  }

  function CamStep(s: State, now: uint32): State {
    if s.sinceCam == 0 || s.sinceCam == 3 then
      var gap := Elapsed(now, s.lastSec);
      if gap > s.secFilterTime then
        s.(lastSec := now, camTeeth := s.camTeeth + 1, sinceCam := 0,
           secFilterTime := if s.camTeeth + 1 > 1 then gap / 4 else 0)
      else s
    else if s.sinceCam > 3 then
      s.(sinceCam := 0, camTeeth := 0, sync := None, syncLoss := Next8(s.syncLoss))
    else s.(camTeeth := 0)
  }

  /** The set-up routine, whatever the decoder held before. */
  function SetUp(s: State): State {
    s.(last := 0, filterTime := CRANK_FILTER, count := 1, sinceCam := 0, camTeeth := 0, sync := None,
       lastSec := 0, secFilterTime := 0)
  }

  /** A reset keeps the count and leaves the crank filter open. */
  function ResetState(s: State): State {
    s.(last := 0, filterTime := 0, sinceCam := 0, camTeeth := 0, sync := None, lastSec := 0)
  }

  /** The decoder after a stall: reset, with no revolutions counted, and set up again unless a log is being taken. */
  function StalledState(logging: bool, s: State): State {
    (if logging then ResetState(s) else SetUp(s)).(startRevolutions := 0)
  }

  class Decoder {
    var toothLastToothTime: uint32
    var toothLastMinusOneToothTime: uint32
    var triggerFilterTime: uint32
    var toothCurrentCount: uint16
    var toothSystemCount: uint8
    var secondaryToothCount: nat
    var syncStatus: SyncStatus
    var syncLossCounter: uint8
    var toothOneTime: uint32
    var toothOneMinusOneTime: uint32
    var startRevolutions: uint32
    var toothLastSecToothTime: uint32
    var triggerSecFilterTime: uint32

    function Abs(): State
      reads this
    {
      State(toothLastToothTime, toothLastMinusOneToothTime, triggerFilterTime, toothCurrentCount, toothSystemCount,
            secondaryToothCount, syncStatus, syncLossCounter, toothOneTime, toothOneMinusOneTime,
            startRevolutions, toothLastSecToothTime, triggerSecFilterTime)
    }

    constructor ()
      ensures Abs() == State(0, 0, CRANK_FILTER, 1, 0, 0, None, 0, 0, 0, 0, 0, 0)
    {
      toothLastToothTime, toothLastMinusOneToothTime, toothCurrentCount := 0, 0, 1;
      triggerFilterTime := CRANK_FILTER;
      toothSystemCount, secondaryToothCount, syncStatus, syncLossCounter := 0, 0, None, 0;
      toothOneTime, toothOneMinusOneTime, startRevolutions := 0, 0, 0;
      toothLastSecToothTime, triggerSecFilterTime := 0, 0;
    }

    /** The reset that all decoders share. */
    method Reset()
      modifies this
      ensures Abs() == ResetState(old(Abs()))
    {
      toothLastSecToothTime := 0;
      toothLastToothTime := 0;
      toothSystemCount := 0;
      secondaryToothCount := 0;
      syncStatus := None;
      triggerFilterTime := 0;
    }

    method Setup()
      modifies this
      ensures Abs() == SetUp(old(Abs()))
    {
      Reset();
      triggerFilterTime := CRANK_FILTER;
      triggerSecFilterTime := 0;
      toothCurrentCount := 1;
    }

    /** What the main loop does when the engine has stopped. */
    method Stall(logging: bool)
      modifies this
      ensures Abs() == StalledState(logging, old(Abs()))
    {
      Reset();
      startRevolutions := 0;
      if !logging {
        Setup();
      }
    }

    /** The crank interrupt, without the per-tooth ignition timing. */
    method TriggerPrimary(now: uint32)
      modifies this
      ensures Abs() == CrankStep(old(Abs()), now)
    {
      var curGap := Elapsed(now, toothLastToothTime);
      if curGap < triggerFilterTime {
        return;
      }
      toothCurrentCount := Next16(toothCurrentCount);
      toothSystemCount := Next8(toothSystemCount);
      toothLastMinusOneToothTime := toothLastToothTime;
      toothLastToothTime := now;
      DropOverrun();
      CompareCamTeeth();
      CloseCycle();
    }

    method DropOverrun()
      modifies this`toothCurrentCount, this`syncStatus, this`syncLossCounter
      ensures Abs() == Overrun(old(Abs()))
    {
      if toothCurrentCount > 13 {
        toothCurrentCount := 0;
        syncStatus := None;
        syncLossCounter := Next8(syncLossCounter);
      }
    }

    method LoseSync(count: uint16)
      modifies this`toothCurrentCount, this`syncStatus, this`syncLossCounter, this`secondaryToothCount
      ensures Abs() == Lose(old(Abs()), count)
    {
      syncStatus := None;
      syncLossCounter := Next8(syncLossCounter);
      toothCurrentCount := count;
      secondaryToothCount := 0;
    }

    method ConfirmSync()
      modifies this`syncStatus, this`secondaryToothCount
      ensures Abs() == Confirm(old(Abs()))
    {
      syncStatus := Full;
      secondaryToothCount := 0;
    }

    method CompareCamTeeth()
      modifies this`toothCurrentCount, this`syncStatus, this`syncLossCounter, this`secondaryToothCount
      ensures Abs() == CheckCamTeeth(old(Abs()))
    {
      match secondaryToothCount
      case 0 =>
      case 1 =>
        if toothCurrentCount == 5 || toothCurrentCount == 11 { ConfirmSync(); } else { LoseSync(5); }
      case 2 =>
        if toothCurrentCount == 8 { ConfirmSync(); } else { LoseSync(8); }
      case 3 =>
        if toothCurrentCount == 2 { ConfirmSync(); } else { LoseSync(2); }
      case _ =>
        LoseSync(toothCurrentCount);
    }

    method CloseCycle()
      modifies this`toothCurrentCount, this`toothOneMinusOneTime, this`toothOneTime, this`startRevolutions
      ensures Abs() == WrapCycle(old(Abs()))
    {
      if syncStatus == Full && toothCurrentCount > 12 {
        toothCurrentCount := 1;
        toothOneMinusOneTime := toothOneTime;
        toothOneTime := toothLastToothTime;
        startRevolutions := Next32(startRevolutions);
      }
    }

    /** The cam interrupt. */
    method TriggerSecondary(now: uint32)
      modifies this
      ensures Abs() == CamStep(old(Abs()), now)
    {
      if toothSystemCount == 0 || toothSystemCount == 3 {
        var curGap2 := Elapsed(now, toothLastSecToothTime);
        if curGap2 > triggerSecFilterTime {
          toothLastSecToothTime := now;
          secondaryToothCount := secondaryToothCount + 1;
          toothSystemCount := 0;
          if secondaryToothCount > 1 {
            triggerSecFilterTime := curGap2 / 4;
          } else {
            triggerSecFilterTime := 0;
          }
        }
      } else {
        if toothSystemCount > 3 {
          toothSystemCount := 0;
          syncStatus := None;
          syncLossCounter := Next8(syncLossCounter);
        }
        secondaryToothCount := 0;
      }
    }
  }
}
