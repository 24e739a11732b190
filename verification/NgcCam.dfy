/** The cam side of the Chrysler NGC 6- and 8-cylinder decoder. */
module NgcCam {
  import opened Machine

  /**
    The cam pattern as the set-up routine lays it out: the number of teeth in groups 1..n, preceded
    by group n again and followed by group 1 again.
  */
  function Pattern(cylinders: nat): (p: seq<int>)
    requires cylinders == 6 || cylinders == 8
    ensures |p| == cylinders + 2
  {
    if cylinders == 6 then [1, 3, 1, 2, 3, 2, 1, 3] else [3, 1, 1, 2, 3, 2, 2, 1, 3, 1]
  }

  datatype State = State(
    lastSec: uint32,
    filterTime: uint32,
    teeth: nat,
    lastTeeth: uint8,
    group: uint8)

  /** A cam edge with the two latest crank stamps, whose difference is the crank tooth interval. */
  datatype Edge = Edge(now: uint32, crankLast: uint32, crankMinusOne: uint32)

  predicate Matches(cylinders: nat, group: nat, teeth: nat, lastTeeth: uint8)
    requires (cylinders == 6 || cylinders == 8) && 1 <= group <= cylinders
  {
    teeth == Pattern(cylinders)[group] && lastTeeth == Pattern(cylinders)[group - 1]
  }

  /** The least group from `from` on whose size and predecessor's size are as given, or 0. */
  function FindGroup(cylinders: nat, from: nat, teeth: nat, lastTeeth: uint8): (g: uint8)
    requires (cylinders == 6 || cylinders == 8) && 1 <= from <= cylinders + 1
    ensures g <= cylinders
    decreases cylinders + 1 - from
  {
    if from == cylinders + 1 then 0
    else if Matches(cylinders, from, teeth, lastTeeth) then from
    else FindGroup(cylinders, from + 1, teeth, lastTeeth)
  }

  /** The group number after a group of `teeth` teeth has been completed. */
  function GroupCompleted(cylinders: nat, group: uint8, teeth: nat, lastTeeth: uint8): (g: uint8)
    requires (cylinders == 6 || cylinders == 8) && group <= cylinders
    ensures g <= cylinders
  {
    if teeth == 0 || lastTeeth == 0 then group
    else if group > 0 && teeth == Pattern(cylinders)[group + 1] then
      if group == cylinders then 1 else group + 1
    else FindGroup(cylinders, 1, teeth, lastTeeth)
  }

  function EdgeStep(cylinders: nat, s: State, e: Edge): (s': State)
    requires (cylinders == 6 || cylinders == 8) && s.group <= cylinders
    ensures s'.group <= cylinders
  {
    var gap := Elapsed(e.now, s.lastSec);
    if gap <= s.filterTime then s
    else
      var s' := s.(lastSec := e.now);
      if s.lastSec == 0 || e.crankLast == 0 || e.crankMinusOne == 0 then s'
      else if gap >= (3 * Elapsed(e.crankLast, e.crankMinusOne)) % TWO32 then
        s'.(group := GroupCompleted(cylinders, s.group, s.teeth, s.lastTeeth),
            lastTeeth := s.teeth % TWO8, teeth := 1, filterTime := 0)
      else if s.teeth > 0 then s'.(teeth := s.teeth + 1, filterTime := gap / 4)
      else s'
  }

  class Decoder {
    const cylinders: nat
    const sequential: bool
    const toothAngles: array<int>
    var toothLastSecToothTime: uint32
    var triggerSecFilterTime: uint32
    var secondaryToothCount: nat
    var secondaryToothLastCount: uint8
    var toothSystemCount: uint8

    ghost predicate Valid()
      reads this, toothAngles
    {
      && (cylinders == 6 || cylinders == 8)
      && toothSystemCount <= cylinders
      && toothAngles.Length == 24
      && toothAngles[..cylinders + 2] == Pattern(cylinders)
    }

    function Abs(): State
      reads this
    {
      State(toothLastSecToothTime, triggerSecFilterTime, secondaryToothCount, secondaryToothLastCount, toothSystemCount)
    }

    constructor (cylinders: nat, sequential: bool, filterTime: uint32)
      requires cylinders == 6 || cylinders == 8
      ensures Valid() && fresh(toothAngles)
      ensures this.cylinders == cylinders && this.sequential == sequential
      ensures Abs() == State(0, filterTime, 0, 0, 0)
    {
      this.cylinders := cylinders;
      this.sequential := sequential;
      var pattern := Pattern(cylinders);
      toothAngles := new int[24](i => if 0 <= i < |pattern| then pattern[i] else 0);
      toothLastSecToothTime, triggerSecFilterTime := 0, filterTime;
      secondaryToothCount, secondaryToothLastCount, toothSystemCount := 0, 0, 0;
    }

    /** The cam interrupt. It only works in sequential operation. */
    method TriggerSecondary(now: uint32, crankLast: uint32, crankMinusOne: uint32)
      requires Valid()
      modifies this
      ensures Valid()
      ensures var e := Edge(now, crankLast, crankMinusOne);
        Abs() == if sequential then EdgeStep(cylinders, old(Abs()), e) else old(Abs())
    {
      if !sequential {
        return;
      }
      var curGap2 := Elapsed(now, toothLastSecToothTime);
      if curGap2 > triggerSecFilterTime {
        if toothLastSecToothTime > 0 && crankLast > 0 && crankMinusOne > 0 {
          if curGap2 >= (3 * Elapsed(crankLast, crankMinusOne)) % TWO32 {
            CompleteGroup();
            secondaryToothLastCount := secondaryToothCount % TWO8;
            secondaryToothCount := 1;
            triggerSecFilterTime := 0;
          } else if secondaryToothCount > 0 {
            secondaryToothCount := secondaryToothCount + 1;
            triggerSecFilterTime := curGap2 / 4;
          }
        }
        toothLastSecToothTime := now;
      }
    }

    /** Step to the next group if its size fits, else search for the pair of sizes just seen. */
    method CompleteGroup()
      requires Valid()
      modifies this`toothSystemCount
      ensures toothSystemCount ==
              GroupCompleted(cylinders, old(toothSystemCount), secondaryToothCount, secondaryToothLastCount)
    {
      if secondaryToothCount > 0 && secondaryToothLastCount > 0 {
        assert toothAngles[toothSystemCount + 1] == toothAngles[..cylinders + 2][toothSystemCount + 1];
        if toothSystemCount > 0 && secondaryToothCount == toothAngles[toothSystemCount + 1] {
          toothSystemCount := toothSystemCount + 1;
          if toothSystemCount > cylinders {
            toothSystemCount := 1;
          }
        } else {
          toothSystemCount := 0;
          var group := 1;
          while group <= cylinders
            invariant 1 <= group <= cylinders + 1
            invariant toothSystemCount == 0
            invariant FindGroup(cylinders, 1, secondaryToothCount, secondaryToothLastCount)
                   == FindGroup(cylinders, group, secondaryToothCount, secondaryToothLastCount)
            invariant toothAngles[..cylinders + 2] == Pattern(cylinders)
          {
            assert toothAngles[group] == toothAngles[..cylinders + 2][group];
            assert toothAngles[group - 1] == toothAngles[..cylinders + 2][group - 1];
            if secondaryToothCount == toothAngles[group] && secondaryToothLastCount == toothAngles[group - 1] {
              toothSystemCount := group;
              break;
            }
            group := group + 1;
          }
        }
      }
    }
  }
}
