/**
  Sending the tooth log, a framed message that is too long for the transmit buffer: each call sends as
  many records as there is room for and the next call resumes.
*/
module ToothLog {
  import opened Machine
  import opened SerialFrame

  const TOOTH_LOG_SIZE := 127
  const RC_OK: uint8 := 0

  function Records(recs: seq<uint32>): (bytes: seq<uint8>)
    ensures |bytes| == 4 * |recs|
  {
    if recs == [] then [] else Records(recs[..|recs| - 1]) + BigEndian(recs[|recs| - 1], 4)
  }

  /** Size and return code. */
  function Header(n: nat): seq<uint8> { BigEndian(4 * n + 1, 2) + [RC_OK] }

  /** The log with its unused end set to zero, unless it is full. */
  function Padded(history: seq<uint32>, index: nat, full: bool): (r: seq<uint32>)
    requires index <= |history|
    ensures |r| == |history|
  {
    if full then history else history[..index] + seq(|history| - index, _ => 0)
  }

  /** The records sent so far, the running checksum, and everything on the wire. */
  datatype Log = Log(items: nat, word: uint32, sent: seq<uint8>)

  /** A call that finds nothing sent yet starts the message. */
  function Started(c: Checksum, n: nat, s: Log): Log {
    if s.items == 0 then Log(0, Absorb(c, c.start, [RC_OK]), s.sent + Header(n)) else s
  }

  /** The next records on their way. */
  function Recorded(c: Checksum, recs: seq<uint32>, s: Log, taken: nat): Log
    requires s.items + taken <= |recs|
  {
    var bytes := Records(recs[s.items..s.items + taken]);
    Log(s.items + taken, Absorb(c, s.word, bytes), s.sent + bytes)
  }

  /** One call that finds room for `taken` more records; after the last one comes the checksum. */
  function Call(c: Checksum, recs: seq<uint32>, s: Log, taken: nat): Log
    requires s.items + taken <= |recs|
  {
    var r := Recorded(c, recs, Started(c, |recs|, s), taken);
    if r.items == |recs| then Log(0, r.word, r.sent + BigEndian(c.finish(r.word), 4)) else r
  }

  lemma RecordsOneMore(recs: seq<uint32>, from: nat, to: nat)
    requires from <= to < |recs|
    ensures Records(recs[from..to + 1]) == Records(recs[from..to]) + BigEndian(recs[to], 4)
  {
    assert recs[from..to + 1][..to - from] == recs[from..to];
  }

  lemma RecordedOneMore(c: Checksum, recs: seq<uint32>, s: Log, taken: nat)
    requires s.items + taken < |recs|
    ensures var r, bytes := Recorded(c, recs, s, taken), BigEndian(recs[s.items + taken], 4);
      Recorded(c, recs, s, taken + 1) == Log(r.items + 1, Absorb(c, r.word, bytes), r.sent + bytes)
  {
    RecordsOneMore(recs, s.items, s.items + taken);
    AbsorbInParts(c, s.word, Records(recs[s.items..s.items + taken]), BigEndian(recs[s.items + taken], 4));
  }

  class ToothLogger {
    const crc: Checksum
    const toothHistory: array<uint32>
    var toothHistoryIndex: nat
    var isToothLog1Full: bool
    var logItemsTransmitted: nat
    var inProgress: bool
    /** The state inside the checksum object, which outlives a call. */
    var word: uint32
    var sent: seq<uint8>

    ghost predicate Valid()
      reads this, toothHistory
    {
      && toothHistory.Length == TOOTH_LOG_SIZE
      && toothHistoryIndex <= TOOTH_LOG_SIZE && logItemsTransmitted < TOOTH_LOG_SIZE
    }

    function Abs(): Log
      reads this
    {
      Log(logItemsTransmitted, word, sent)
    }

    constructor (crc: Checksum)
      ensures Valid() && fresh(toothHistory) && Abs().items == 0 && sent == [] && this.crc == crc && !inProgress
    {
      this.crc := crc;
      toothHistory := new uint32[TOOTH_LOG_SIZE];
      toothHistoryIndex, isToothLog1Full, logItemsTransmitted, inProgress := 0, false, 0, false;
      word, sent := 0, [];
    }

    /** Fill up a log that is being sent before it is full. */
    method Pad()
      requires Valid()
      modifies toothHistory, this`toothHistoryIndex
      ensures Valid() && toothHistory[..] == Padded(old(toothHistory[..]), old(toothHistoryIndex), isToothLog1Full)
      ensures toothHistoryIndex == if isToothLog1Full then old(toothHistoryIndex) else TOOTH_LOG_SIZE
    {
      if !isToothLog1Full {
        while toothHistoryIndex < TOOTH_LOG_SIZE
          invariant old(toothHistoryIndex) <= toothHistoryIndex <= TOOTH_LOG_SIZE
          invariant forall k :: 0 <= k < old(toothHistoryIndex) ==> toothHistory[k] == old(toothHistory[k])
          invariant forall k :: old(toothHistoryIndex) <= k < toothHistoryIndex ==> toothHistory[k] == 0
        {
          toothHistory[toothHistoryIndex] := 0;
          toothHistoryIndex := toothHistoryIndex + 1;
        }
      }
    }

    /** A number goes out with its bytes swapped in memory; the caller gets them as they lie there. */
    method SerialWrite(value: uint32) returns (transmitted: seq<uint8>)
      modifies this`sent
      ensures transmitted == BigEndian(value, 4) && sent == old(sent) + transmitted
    {
      transmitted := LittleEndian(ReverseBytes(value), 4);
      SwappedIsBigEndian(value);
      sent := sent + transmitted;
    }

    method Begin() returns (crcValue: uint32)
      requires Valid() && logItemsTransmitted == 0
      modifies this`sent, this`word
      ensures Valid() && Abs() == Started(crc, TOOTH_LOG_SIZE, old(Abs())) && crcValue == crc.finish(word)
    {
      sent := sent + BigEndian(4 * TOOTH_LOG_SIZE + 1, 2);
      word := Absorb(crc, crc.start, [RC_OK]);
      crcValue := crc.finish(word);
      sent := sent + [RC_OK];
    }

    /** Send records while there is room; whether there is room is up to the port. */
    method SendRecords(crcBefore: uint32) returns (crcValue: uint32, ghost taken: nat)
      requires toothHistory.Length == TOOTH_LOG_SIZE && logItemsTransmitted < TOOTH_LOG_SIZE
      modifies this`sent, this`word, this`logItemsTransmitted
      ensures taken <= TOOTH_LOG_SIZE - old(logItemsTransmitted)
      ensures Abs() == Recorded(crc, toothHistory[..], old(Abs()), taken)
      ensures crcValue == if taken == 0 then crcBefore else crc.finish(word)
    {
      crcValue, taken := crcBefore, 0;
      ghost var recs, before := toothHistory[..], Abs();
      var room := true;
      while logItemsTransmitted < TOOTH_LOG_SIZE && room
        invariant toothHistory[..] == recs && taken <= TOOTH_LOG_SIZE - before.items
        invariant Abs() == Recorded(crc, recs, before, taken)
        invariant crcValue == if taken == 0 then crcBefore else crc.finish(word)
        decreases TOOTH_LOG_SIZE - logItemsTransmitted, room
      {
        room := *;
        if room {
          RecordedOneMore(crc, recs, before, taken);
          var transmitted := SerialWrite(toothHistory[logItemsTransmitted]);
          word := Absorb(crc, word, transmitted);
          crcValue := crc.finish(word);
          logItemsTransmitted, taken := logItemsTransmitted + 1, taken + 1;
        }
      }
    }

    /** The last record is out: reset the log and send the checksum. */
    method Finish(crcValue: uint32)
      modifies this`isToothLog1Full, this`inProgress, this`toothHistoryIndex, this`logItemsTransmitted, this`sent
      ensures !isToothLog1Full && !inProgress && toothHistoryIndex == 0
      ensures Abs() == Log(0, word, old(sent) + BigEndian(crcValue, 4))
    {
      isToothLog1Full, inProgress, toothHistoryIndex, logItemsTransmitted := false, false, 0, 0;
      var _ := SerialWrite(crcValue);
    }

    method SendToothLog() returns (ghost taken: nat)
      requires Valid()
      modifies this, toothHistory
      ensures Valid() && inProgress == (old(logItemsTransmitted) + taken < TOOTH_LOG_SIZE)
      ensures old(logItemsTransmitted) + taken <= TOOTH_LOG_SIZE
      ensures toothHistory[..] == Padded(old(toothHistory[..]), old(toothHistoryIndex), old(isToothLog1Full))
      ensures Abs() == Call(crc, toothHistory[..], old(Abs()), taken)
      ensures if inProgress
        then isToothLog1Full == old(isToothLog1Full) && (!isToothLog1Full ==> toothHistoryIndex == TOOTH_LOG_SIZE)
        else !isToothLog1Full && toothHistoryIndex == 0
    {
      Pad();
      var crcValue: uint32 := 0;
      if logItemsTransmitted == 0 {
        crcValue := Begin();
      }
      crcValue, taken := SendRecords(crcValue);
      if logItemsTransmitted < TOOTH_LOG_SIZE {
        inProgress := true;
        return;
      }
      Finish(crcValue);
    }
  }
}
