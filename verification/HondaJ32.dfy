/** The Honda J32 crank decoder: its state, one edge as a function, and the interrupt handler. */
module HondaJ32 {
  import opened Machine
  import opened Decoders

  datatype State = State(
    last: uint32,
    lastGap: uint32,
    count: uint16,
    sync: SyncStatus,
    toothOne: uint32,
    toothOneMinusOne: uint32,
    startRevolutions: uint32,
    revolutionTime: uint32)

  const SetupState := State(0, 0, 0, None, 0, 0, 0, 0)

  /** The interval from which an edge is taken to follow a missing tooth. */
  function BigGap(lastGap: uint32): uint32 { (lastGap / 2 * 3) % TWO32 }

  /** An edge while in sync. The teeth just before a gap are wide and leave `lastGap` alone. */
  function SyncedEdge(s: State, now: uint32, gap: uint32): State {
    var count := Next16(s.count);
    if count == 25 then
      s.(count := 1, toothOneMinusOne := s.toothOne, toothOne := now,
         startRevolutions := Next32(s.startRevolutions), revolutionTime := Elapsed(now, s.toothOne))
    else if count == 23 || count == 15 then
      if gap < BigGap(s.lastGap) then s.(sync := None, count := 1) else s.(count := count + 1)
    else if count != 14 && count != 22 then s.(count := count, lastGap := gap)
    else s.(count := count)
  }

  /** An edge before sync: count the teeth between gaps, fifteen of them identify the second gap. */
  function SearchingEdge(s: State, now: uint32, gap: uint32): State {
    if gap < BigGap(s.lastGap) || s.lastGap == 0 then s.(count := Next16(s.count), lastGap := gap)
    else if s.count == 15 then
      var one := (now - 15 * s.lastGap) % TWO32;
      s.(sync := Full, count := 16, toothOne := one, toothOneMinusOne := (one - 24 * s.lastGap) % TWO32)
    else s.(count := 1)
  }

  function EdgeStep(s: State, now: uint32): State {
    var gap := Elapsed(now, s.last);
    var s' := s.(last := now);
    if s.sync.Full? then SyncedEdge(s', now, gap) else SearchingEdge(s', now, gap)
  }

  /** The set-up routine, whatever the decoder held before. */
  function SetUp(s: State): State {
    s.(last := 0, lastGap := 0, count := 0, sync := None, toothOne := 0, toothOneMinusOne := 0)
  }

  /** The decoder after a stall: reset, with no revolutions counted, and set up again unless a log is being taken. */
  function StalledState(logging: bool, s: State): State {
    (if logging then s.(last := 0, sync := None) else SetUp(s)).(startRevolutions := 0)
  }

  class Decoder {
    var toothLastToothTime: uint32
    var lastGap: uint32
    var toothCurrentCount: uint16
    var syncStatus: SyncStatus
    var toothOneTime: uint32
    var toothOneMinusOneTime: uint32
    var startRevolutions: uint32
    var revolutionTime: uint32

    function Abs(): State
      reads this
    {
      State(toothLastToothTime, lastGap, toothCurrentCount, syncStatus, toothOneTime, toothOneMinusOneTime,
            startRevolutions, revolutionTime)
    }

    constructor ()
      ensures Abs() == SetupState
    {
      toothLastToothTime, lastGap, toothCurrentCount, syncStatus := 0, 0, 0, None;
      toothOneTime, toothOneMinusOneTime, startRevolutions, revolutionTime := 0, 0, 0, 0;
    }

    /** The reset that all decoders share keeps the tooth count and the last gap. */
    method Reset()
      modifies this`toothLastToothTime, this`syncStatus
      ensures Abs() == old(Abs()).(last := 0, sync := None)
    {
      toothLastToothTime, syncStatus := 0, None;
    }

    method Setup()
      modifies this
      ensures Abs() == SetUp(old(Abs()))
    {
      Reset();
      toothCurrentCount := 0;
      toothOneTime := 0;
      toothOneMinusOneTime := 0;
      lastGap := 0;
    }

    /** What the main loop does when the engine has stopped. */
    method Stall(logging: bool)
      modifies this
      ensures Abs() == StalledState(logging, old(Abs()))
    {
      Reset();
      startRevolutions := 0;
      if !logging {
        Setup();
      }
    }

    /** The rising-edge interrupt. */
    method TriggerPrimary(now: uint32)
      modifies this
      ensures Abs() == EdgeStep(old(Abs()), now)
    {
      var curGap := Elapsed(now, toothLastToothTime);
      toothLastToothTime := now;
      if syncStatus == Full {
        Synced(now, curGap);
      } else {
        Searching(now, curGap);
      }
    }

    method Synced(now: uint32, curGap: uint32)
      modifies this
      ensures Abs() == SyncedEdge(old(Abs()), now, curGap)
    {
      toothCurrentCount := Next16(toothCurrentCount);
      if toothCurrentCount == 25 {
        toothCurrentCount := 1;
        toothOneMinusOneTime := toothOneTime;
        toothOneTime := now;
        startRevolutions := Next32(startRevolutions);
        revolutionTime := Elapsed(toothOneTime, toothOneMinusOneTime);
      } else if toothCurrentCount == 23 || toothCurrentCount == 15 {
        toothCurrentCount := toothCurrentCount + 1;
        if curGap < BigGap(lastGap) {
          syncStatus := None;
          toothCurrentCount := 1;
        }
      } else if toothCurrentCount != 14 && toothCurrentCount != 22 {
        lastGap := curGap;
      }
    }

    method Searching(now: uint32, curGap: uint32)
      modifies this
      ensures Abs() == SearchingEdge(old(Abs()), now, curGap)
    {
      if curGap < BigGap(lastGap) || lastGap == 0 {
        toothCurrentCount := Next16(toothCurrentCount);
        lastGap := curGap;
      } else if toothCurrentCount == 15 {
        syncStatus := Full;
        toothCurrentCount := 16;
        toothOneTime := (now - 15 * lastGap) % TWO32;
        toothOneMinusOneTime := (toothOneTime - 24 * lastGap) % TWO32;
      } else {
        toothCurrentCount := 1;
      }
    }
  }
}
