/** The receiving side of the serial protocol, byte by byte, and how it inverts the sending side. */
module SerialParser {
  import opened Machine
  import opened SerialFrame

  /** Between messages, after the high byte of a length, or with `got` of a message and its checksum. */
  datatype Phase = Idle | HaveHigh(high: uint8) | Frame(length: uint16, got: seq<uint8>)

  datatype Event = Dispatch(payload: seq<uint8>) | BadCrc | Legacy(command: uint8)

  /** What has happened so far; legacy commands are locked out by the first message. */
  datatype Receiver = Receiver(phase: Phase, allowLegacy: bool, events: seq<Event>)

  const DTR_RESET: uint8 := 0xF0

  predicate IsLegacy(b: uint8, allowLegacy: bool) {
    b == 'F' as int || (allowLegacy && ('A' as int <= b <= 'z' as int || b == '?' as int))
  }

  /** A first byte that is the high byte of a length. */
  predicate StartsFrame(b: uint8, allowLegacy: bool) { b != DTR_RESET && !IsLegacy(b, allowLegacy) }

  /** All bytes of a message are here. */
  function Finish(c: Checksum, r: Receiver, payload: seq<uint8>, crc: seq<uint8>): Receiver {
    if BigValue(crc) == Crc(c, payload) then Receiver(Idle, false, r.events + [Dispatch(payload)])
    else Receiver(Idle, r.allowLegacy, r.events + [BadCrc])
  }

  function RxByte(c: Checksum, r: Receiver, b: uint8): Receiver {
    match r.phase
    case Idle =>
      if b == DTR_RESET then r
      else if IsLegacy(b, r.allowLegacy) then r.(events := r.events + [Legacy(b)])
      else r.(phase := HaveHigh(b))
    case HaveHigh(high) => r.(phase := Frame(high * 256 + b, []))
    case Frame(length, got) =>
      var all := got + [b];
      if |all| < length + 4 then r.(phase := Frame(length, all))
      else if |all| == length + 4 then Finish(c, r, all[..length], all[length..])
      else r
  }

  function RxRun(c: Checksum, r: Receiver, bytes: seq<uint8>): Receiver {
    if bytes == [] then r else RxByte(c, RxRun(c, r, bytes[..|bytes| - 1]), bytes[|bytes| - 1])
  }

  lemma RxOneMore(c: Checksum, r: Receiver, bytes: seq<uint8>, b: uint8)
    ensures RxRun(c, r, bytes + [b]) == RxByte(c, RxRun(c, r, bytes), b)
  {
    assert (bytes + [b])[..|bytes|] == bytes;
  }

  lemma {:induction false} RxInParts(c: Checksum, r: Receiver, xs: seq<uint8>, ys: seq<uint8>)
    ensures RxRun(c, r, xs + ys) == RxRun(c, RxRun(c, r, xs), ys)
    decreases |ys|
  {
    if ys == [] {
      assert xs + ys == xs;
    } else {
      var front, last := ys[..|ys| - 1], ys[|ys| - 1];
      RxInParts(c, r, xs, front);
      RxOneMore(c, r, xs + front, last);
      assert xs + ys == (xs + front) + [last];
    }
  }

  // ------------------------------------------------------------------ printing, then parsing

  /** Bytes inside a message are collected until it is complete. */
  lemma {:induction false} Collected(c: Checksum, r: Receiver, length: uint16, got: seq<uint8>, bytes: seq<uint8>)
    requires r.phase == Frame(length, got) && |got| + |bytes| < length + 4
    ensures RxRun(c, r, bytes) == r.(phase := Frame(length, got + bytes))
    decreases |bytes|
  {
    if bytes == [] {
      assert got + bytes == got;
    } else {
      var front := bytes[..|bytes| - 1];
      Collected(c, r, length, got, front);
      assert (got + front) + [bytes[|bytes| - 1]] == got + bytes;
    }
  }

  lemma CompleteFrame(c: Checksum, r: Receiver, length: uint16, got: seq<uint8>, bytes: seq<uint8>)
    requires r.phase == Frame(length, got) && |bytes| > 0 && |got| + |bytes| == length + 4
    ensures var all := got + bytes;
      RxRun(c, r, bytes) == Finish(c, r, all[..length], all[length..])
  {
    var front := bytes[..|bytes| - 1];
    Collected(c, r, length, got, front);
    assert (got + front) + [bytes[|bytes| - 1]] == got + bytes;
  }

  lemma LengthBytes(length: nat)
    requires length < TWO16
    ensures BigEndian(length, 2) == [length / 256, length % 256]
  {
    assert BigEndian(length / 256, 1) == [length / 256 % 256];
  }

  lemma Header(c: Checksum, r: Receiver, length: nat)
    requires length < TWO16 && r.phase.Idle? && StartsFrame(length / 256, r.allowLegacy)
    ensures RxRun(c, r, BigEndian(length, 2)) == r.(phase := Frame(length, []))
  {
    LengthBytes(length);
    RxOneMore(c, r, [length / 256], length % 256);
    RxOneMore(c, r, [], length / 256);
    assert [length / 256] + [length % 256] == BigEndian(length, 2);
    assert [] + [length / 256] == [length / 256];
  }

  /** A message with any four checksum bytes ends idle, with its command dispatched or refused. */
  lemma FrameIsJudged(c: Checksum, r: Receiver, payload: seq<uint8>, crc: seq<uint8>)
    requires |payload| < TWO16 && |crc| == 4 && r.phase.Idle? && StartsFrame(|payload| / 256, r.allowLegacy)
    ensures RxRun(c, r, BigEndian(|payload|, 2) + (payload + crc)) == Finish(c, r, payload, crc)
  {
    var h := r.(phase := Frame(|payload|, []));
    RxInParts(c, r, BigEndian(|payload|, 2), payload + crc);
    Header(c, r, |payload|);
    CompleteFrame(c, h, |payload|, [], payload + crc);
    assert [] + (payload + crc) == payload + crc;
    assert (payload + crc)[..|payload|] == payload && (payload + crc)[|payload|..] == crc;
  }

  lemma CrcReadsBack(c: Checksum, payload: seq<uint8>)
    ensures BigValue(BigEndian(Crc(c, payload), 4)) == Crc(c, payload)
  {
    assert Pow256(2) == TWO16 && Pow256(4) == TWO32;
    BigEndianIsInverted(Crc(c, payload), 4);
  }

  /** What the sending side frames, the receiving side dispatches: once, unchanged, and nothing else. */
  lemma WireIsDispatched(c: Checksum, r: Receiver, payload: seq<uint8>)
    requires |payload| < TWO16 && r.phase.Idle? && StartsFrame(|payload| / 256, r.allowLegacy)
    ensures RxRun(c, r, Wire(c, payload)) == Receiver(Idle, false, r.events + [Dispatch(payload)])
  {
    CrcReadsBack(c, payload);
    FrameIsJudged(c, r, payload, BigEndian(Crc(c, payload), 4));
  }

  /** A checksum that does not match is refused, and the command is not dispatched. */
  lemma WrongCrcIsRefused(c: Checksum, r: Receiver, payload: seq<uint8>, crc: seq<uint8>)
    requires |payload| < TWO16 && |crc| == 4 && r.phase.Idle? && StartsFrame(|payload| / 256, r.allowLegacy)
    requires crc != BigEndian(Crc(c, payload), 4)
    ensures RxRun(c, r, BigEndian(|payload|, 2) + (payload + crc)) == r.(events := r.events + [BadCrc])
  {
    BigValueIsInverted(crc);
    FrameIsJudged(c, r, payload, crc);
  }

  function Dispatches(payloads: seq<seq<uint8>>): seq<Event> {
    if payloads == [] then [] else Dispatches(payloads[..|payloads| - 1]) + [Dispatch(payloads[|payloads| - 1])]
  }

  /** A length that the firmware's buffers allow is never taken for a command or a reset. */
  lemma BufferLengthsStartFrames(length: nat, allowLegacy: bool)
    requires length < TWO16
    ensures length < 0x3F00 ==> StartsFrame(length / 256, allowLegacy)
    ensures !StartsFrame(0x3F00 / 256, true) && 0x3F00 > 2051
  {
  }

  /** Messages sent one after the other are dispatched one after the other. */
  lemma {:induction false} AllAreDispatched(c: Checksum, r: Receiver, payloads: seq<seq<uint8>>)
    requires r.phase.Idle? && forall p :: p in payloads ==> |p| < 0x3F00
    ensures RxRun(c, r, WireAll(c, payloads)) ==
            Receiver(Idle, r.allowLegacy && payloads == [], r.events + Dispatches(payloads))
    decreases |payloads|
  {
    if payloads == [] {
      assert r.events + [] == r.events;
    } else {
      var front, last := payloads[..|payloads| - 1], payloads[|payloads| - 1];
      AllAreDispatched(c, r, front);
      RxInParts(c, r, WireAll(c, front), Wire(c, last));
      BufferLengthsStartFrames(|last|, r.allowLegacy && front == []);
      WireIsDispatched(c, RxRun(c, r, WireAll(c, front)), last);
    }
  }

  /**
    What a byte between messages is: dropped (0xF0), a legacy command, or the high byte of a length. The
    version query `F` is a command at any time; letters, what lies between them, and `?` are until the
    first message.
  */
  lemma FirstByteIff(c: Checksum, r: Receiver, b: uint8)
    requires r.phase.Idle?
    ensures var r' := RxByte(c, r, b);
      && (r' == r <==> b == 240)
      && (r' == r.(events := r.events + [Legacy(b)]) <==> b == 70 || (r.allowLegacy && (65 <= b <= 122 || b == 63)))
      && (r' == r.(phase := HaveHigh(b)) <==> b != 240 && b != 70 && !(r.allowLegacy && (65 <= b <= 122 || b == 63)))
  {
    assert |r.events + [Legacy(b)]| != |r.events|;
  }

  // ------------------------------------------------------------------ parsing, then printing

  /** What the receiver holds is what the line brought last. */
  predicate Holds(r: Receiver, heard: seq<uint8>) {
    match r.phase
    case Idle => true
    case HaveHigh(high) => heard != [] && heard[|heard| - 1] == high
    case Frame(length, got) =>
      |got| < length + 4 && |heard| >= 2 + |got| && heard[|heard| - |got| - 2..] == BigEndian(length, 2) + got
  }

  lemma HoldsStep(c: Checksum, r: Receiver, heard: seq<uint8>, b: uint8)
    requires Holds(r, heard)
    ensures Holds(RxByte(c, r, b), heard + [b])
  {
    var more := heard + [b];
    match r.phase {
      case Idle =>
      case HaveHigh(high) =>
        LengthBytes(high * 256 + b);
        assert more[|more| - 2..] == [high, b];
      case Frame(length, got) =>
        var start := |heard| - |got| - 2;
        assert more[start..] == heard[start..] + [b];
        assert heard[start..] + [b] == BigEndian(length, 2) + (got + [b]);
    }
  }

  lemma {:induction false} HoldsThroughout(c: Checksum, r: Receiver, heard: seq<uint8>)
    requires r.phase.Idle?
    ensures Holds(RxRun(c, r, heard), heard)
    decreases |heard|
  {
    if heard != [] {
      HoldsThroughout(c, r, heard[..|heard| - 1]);
      HoldsStep(c, RxRun(c, r, heard[..|heard| - 1]), heard[..|heard| - 1], heard[|heard| - 1]);
      assert heard == heard[..|heard| - 1] + [heard[|heard| - 1]];
    }
  }

  /**
    A command is dispatched only when a whole, intact message has just been heard: the bytes up to
    this one end with exactly what the sending side would have sent for it.
  */
  lemma DispatchedOnlyIfSent(c: Checksum, r: Receiver, heard: seq<uint8>, b: uint8, payload: seq<uint8>)
    requires r.phase.Idle?
    requires RxRun(c, r, heard + [b]).events == RxRun(c, r, heard).events + [Dispatch(payload)]
    ensures var all := heard + [b];
      |all| >= |payload| + 6 && all[|all| - |payload| - 6..] == Wire(c, payload)
  {
    var s := RxRun(c, r, heard);
    RxOneMore(c, r, heard, b);
    HoldsThroughout(c, r, heard);
    assert (s.events + [Dispatch(payload)])[|s.events|] == Dispatch(payload);
    assert s.phase.Frame?;
    FinishedOnlyIfSent(c, s, heard, b, payload);
  }

  lemma FinishedOnlyIfSent(c: Checksum, s: Receiver, heard: seq<uint8>, b: uint8, payload: seq<uint8>)
    requires Holds(s, heard) && s.phase.Frame?
    requires RxByte(c, s, b).events == s.events + [Dispatch(payload)]
    ensures var all := heard + [b];
      |all| >= |payload| + 6 && all[|all| - |payload| - 6..] == Wire(c, payload)
  {
    var length, all, start := s.phase.length, s.phase.got + [b], |heard| - |s.phase.got| - 2;
    assert RxByte(c, s, b).events != s.events;
    assert RxByte(c, s, b) == Finish(c, s, all[..length], all[length..]);
    assert (s.events + [Dispatch(payload)])[|s.events|] == Dispatch(payload);
    assert payload == all[..length] && BigValue(all[length..]) == Crc(c, payload);
    BigValueIsInverted(all[length..]);
    assert all == payload + all[length..];
    assert (heard + [b])[start..] == heard[start..] + [b];
    assert heard[start..] + [b] == BigEndian(length, 2) + all;
  }

  /** Events are only ever added, at most one for a byte. */
  lemma {:induction false} EventsAreKept(c: Checksum, r: Receiver, bytes: seq<uint8>)
    ensures r.events <= RxRun(c, r, bytes).events
    decreases |bytes|
  {
    if bytes != [] {
      EventsAreKept(c, r, bytes[..|bytes| - 1]);
    }
  }

  lemma {:induction false} DispatchNeedsAWholeFrame(c: Checksum, r: Receiver, heard: seq<uint8>, payload: seq<uint8>)
    requires r.phase.Idle? && RxRun(c, r, heard).events == r.events + [Dispatch(payload)]
    ensures |heard| >= |payload| + 6
    decreases |heard|
  {
    assert (r.events + [Dispatch(payload)])[|r.events|] == Dispatch(payload);
    assert heard != [];
    var front, last := heard[..|heard| - 1], heard[|heard| - 1];
    var before := RxRun(c, r, front);
    EventsAreKept(c, r, front);
    assert before.events <= RxRun(c, r, heard).events;
    if before.events == RxRun(c, r, heard).events {
      DispatchNeedsAWholeFrame(c, r, front, payload);
    } else {
      assert |before.events| == |r.events| && before.events == r.events;
      assert front + [last] == heard;
      DispatchedOnlyIfSent(c, r, front, last, payload);
    }
  }

  lemma OtherFirstByte(c: Checksum, r: Receiver, payload: seq<uint8>, bytes: seq<uint8>)
    requires r.phase.Idle? && bytes != [] && !StartsFrame(bytes[0], r.allowLegacy) && |bytes| <= |payload| + 6
    ensures RxRun(c, r, bytes).events != r.events + [Dispatch(payload)]
  {
    var first := RxByte(c, r, bytes[0]);
    var rest := bytes[1..];
    assert bytes == [bytes[0]] + rest;
    assert [] + [bytes[0]] == [bytes[0]];
    RxOneMore(c, r, [], bytes[0]);
    RxInParts(c, r, [bytes[0]], rest);
    EventsAreKept(c, first, rest);
    if RxRun(c, r, bytes).events == r.events + [Dispatch(payload)] {
      assert (r.events + [Dispatch(payload)])[|r.events|] == Dispatch(payload);
      if bytes[0] == DTR_RESET {
        DispatchNeedsAWholeFrame(c, r, rest, payload);
      }
    }
  }

  /** The round trip, exactly: a message survives it when the high byte of its length starts a frame. */
  lemma RoundTripIff(c: Checksum, r: Receiver, payload: seq<uint8>)
    requires |payload| < TWO16 && r.phase.Idle?
    ensures RxRun(c, r, Wire(c, payload)) == Receiver(Idle, false, r.events + [Dispatch(payload)]) <==>
            StartsFrame(|payload| / 256, r.allowLegacy)
  {
    if StartsFrame(|payload| / 256, r.allowLegacy) {
      WireIsDispatched(c, r, payload);
    } else {
      LengthBytes(|payload|);
      OtherFirstByte(c, r, payload, Wire(c, payload));
    }
  }
}
