/**
  The serial port handler: a receiving and a sending pump that share one buffer, one counter and one
  status flag, and are called in turn from the main loop.
*/
module SerialComms {
  import opened Machine
  import opened SerialFrame
  import opened SerialParser

  datatype Status = Inactive | ReceiveInProgress | TransmitInProgress

  /** What the command handler does with a command: nothing, a return code, or a message from the buffer. */
  datatype Reply = NoReply | ReturnCode(code: uint8) | Message(payload: seq<uint8>)

  predicate Fits(reply: Reply) { reply.Message? ==> |reply.payload| <= BUFFER_SIZE }

  function Answers(reply: Reply): seq<seq<uint8>> {
    match reply
    case NoReply => []
    case ReturnCode(code) => [[code]]
    case Message(payload) => [payload]
  }

  const RC_TIMEOUT: uint8 := 0x80
  const RC_CRC_ERR: uint8 := 0x82

  /** The time for a message, in milliseconds. */
  const SERIAL_TIMEOUT: uint32 := 400

  predicate IsTimeout(now: uint32, start: uint32) { Elapsed(now, start) >= SERIAL_TIMEOUT }

  /** A message has timed out from 400 milliseconds after its start on, across any rollover of the clock. */
  lemma TimesOutIff(now: int, start: int)
    requires 0 <= now - start < TWO32
    ensures IsTimeout(Stamp(now), Stamp(start)) <==> now - start >= 400
  {
    StampDifference(now, start);
  }

  /** The longest message that the firmware's buffers hold. */
  const BUFFER_SIZE := 2051

  const INITIAL := Receiver(Idle, true, [])

  /** A line that carries whole and undamaged messages only. */
  ghost predicate Intact(c: Checksum, line: seq<uint8>) {
    RxRun(c, INITIAL, line).phase.Idle? && BadCrc !in RxRun(c, INITIAL, line).events
  }

  /** The bytes after the length of a message. */
  function Body(c: Checksum, payload: seq<uint8>): (bytes: seq<uint8>)
    ensures |bytes| == |payload| + 4
  {
    payload + BigEndian(Crc(c, payload), 4)
  }

  lemma PayloadOfBody(c: Checksum, payload: seq<uint8>, start: nat, n: nat)
    requires start + n <= |payload|
    ensures payload[start..][..n] == Body(c, payload)[start..start + n]
  {
  }

  /** The checksum, or part of it, behind what was sent of a body before. */
  lemma CrcOfBody(c: Checksum, payload: seq<uint8>, start: nat, middle: nat, next: nat, sent: seq<uint8>)
    requires start <= middle <= next <= |payload| + 4 && |payload| <= middle
    ensures sent + Body(c, payload)[start..middle]
            + BigEndian(Crc(c, payload), 4)[middle - |payload|..next - |payload|] ==
            sent + Body(c, payload)[start..next]
  {
    var body := Body(c, payload);
    assert body[middle..next] == BigEndian(Crc(c, payload), 4)[middle - |payload|..next - |payload|];
    assert body[start..next] == body[start..middle] + body[middle..next];
  }

  // ------------------------------------------------------------------ what a call says

  /** The messages that an event gives rise to. */
  function Said(e: Event, reply: Reply): seq<seq<uint8>> {
    match e
    case Dispatch(payload) => Answers(reply)
    case BadCrc => [[RC_CRC_ERR]]
    case Legacy(command) => []
  }

  /** At most one event is new. */
  predicate OneStep(before: seq<Event>, after: seq<Event>) {
    after == before || (|after| == |before| + 1 && after[..|before|] == before)
  }

  function SaidIn(before: seq<Event>, after: seq<Event>, reply: Reply): seq<seq<uint8>>
    requires OneStep(before, after)
  {
    if after == before then [] else Said(after[|before|], reply)
  }

  /** The events before the first call, between the calls, and after the last. */
  predicate Trace(trace: seq<seq<Event>>, n: nat) {
    |trace| == n + 1 && forall i :: 0 <= i < n ==> OneStep(trace[i], trace[i + 1])
  }

  /** What all the calls say, in order: for each that has an event, what the event gives rise to. */
  function SaidOver(trace: seq<seq<Event>>, replies: seq<Reply>): seq<seq<uint8>>
    requires Trace(trace, |replies|)
    decreases |replies|
  {
    if replies == [] then []
    else
      var n := |replies| - 1;
      SaidOver(trace[..n + 1], replies[..n]) + SaidIn(trace[n], trace[n + 1], replies[n])
  }

  lemma SaidOneMore(trace: seq<seq<Event>>, replies: seq<Reply>, after: seq<Event>, reply: Reply)
    requires Trace(trace, |replies|) && OneStep(trace[|replies|], after)
    ensures Trace(trace + [after], |replies| + 1)
    ensures SaidOver(trace + [after], replies + [reply]) ==
            SaidOver(trace, replies) + SaidIn(trace[|replies|], after, reply)
  {
    assert (trace + [after])[..|replies| + 1] == trace && (replies + [reply])[..|replies|] == replies;
  }

  /** A trace from `before` to `after` over which the messages have grown by what the calls say. */
  predicate Told(
    trace: seq<seq<Event>>, replies: seq<Reply>,
    before: seq<Event>, after: seq<Event>, said: seq<seq<uint8>>, said': seq<seq<uint8>>)
  {
    && Trace(trace, |replies|) && trace[0] == before && trace[|replies|] == after
    && said' == said + SaidOver(trace, replies)
  }

  lemma ToldOneMore(
    trace: seq<seq<Event>>, replies: seq<Reply>, before: seq<Event>, after: seq<Event>,
    said: seq<seq<uint8>>, said': seq<seq<uint8>>, next: seq<Event>, reply: Reply)
    requires Told(trace, replies, before, after, said, said') && OneStep(after, next)
    ensures Told(trace + [next], replies + [reply], before, next, said, said' + SaidIn(after, next, reply))
  {
    SaidOneMore(trace, replies, next, reply);
  }

  // ------------------------------------------------------------------ bytes on the way out

  /** All of `framed` is out but the end of its last message, of whose body `done` bytes are out. */
  predicate Pending(c: Checksum, framed: seq<uint8>, payload: seq<uint8>, done: nat, sent: seq<uint8>) {
    && done < |payload| + 4 <= |framed|
    && framed[|framed| - |payload| - 4..] == Body(c, payload)
    && sent == framed[..|framed| - |payload| - 4 + done]
  }

  lemma PendingBegins(c: Checksum, framed: seq<uint8>, payload: seq<uint8>)
    ensures Pending(c, framed + Wire(c, payload), payload, 0, framed + BigEndian(|payload|, 2))
  {
    var header, body := BigEndian(|payload|, 2), Body(c, payload);
    Regroup(framed, header, body);
    Halves(framed + header, body);
  }

  lemma Regroup(xs: seq<uint8>, ys: seq<uint8>, zs: seq<uint8>)
    ensures xs + (ys + zs) == (xs + ys) + zs
  {
  }

  lemma Halves(xs: seq<uint8>, ys: seq<uint8>)
    ensures (xs + ys)[..|xs|] == xs && (xs + ys)[|xs|..] == ys
  {
  }

  lemma PendingGrows(c: Checksum, framed: seq<uint8>, payload: seq<uint8>, from: nat, to: nat, sent: seq<uint8>)
    requires Pending(c, framed, payload, from, sent) && from <= to <= |payload| + 4
    ensures var more := sent + Body(c, payload)[from..to];
      if to == |payload| + 4 then more == framed else Pending(c, framed, payload, to, more) && more != framed
  {
    var start := |framed| - |payload| - 4;
    assert Body(c, payload)[from..to] == framed[start + from..start + to];
    assert framed[..start + from] + framed[start + from..start + to] == framed[..start + to];
  }

  lemma PendingIsPrefix(c: Checksum, framed: seq<uint8>, payload: seq<uint8>, done: nat, sent: seq<uint8>)
    requires Pending(c, framed, payload, done, sent)
    ensures sent <= framed && sent != framed
  {
  }

  /** A message of one byte, written piece by piece. */
  lemma CodeIsFramed(c: Checksum, framed: seq<uint8>, code: uint8)
    ensures framed + BigEndian(1, 2) + [code] + BigEndian(Crc(c, [code]), 4) == framed + Wire(c, [code])
  {
    assert Wire(c, [code]) == BigEndian(1, 2) + ([code] + BigEndian(Crc(c, [code]), 4));
  }

  // ------------------------------------------------------------------ bytes on the way in

  lemma RunOfOne(c: Checksum, r: Receiver, b: uint8)
    ensures RxRun(c, r, [b]) == RxByte(c, r, b)
  {
    assert [b] == [] + [b];
    RxOneMore(c, r, [], b);
  }

  /** A stretch of a line after another. */
  lemma LineInParts(c: Checksum, r: Receiver, line: seq<uint8>, from: nat, middle: nat, to: nat)
    requires from <= middle <= to <= |line|
    ensures RxRun(c, r, line[from..to]) == RxRun(c, RxRun(c, r, line[from..middle]), line[middle..to])
  {
    assert line[from..to] == line[from..middle] + line[middle..to];
    RxInParts(c, r, line[from..middle], line[middle..to]);
  }

  lemma LengthIsHeard(c: Checksum, r: Receiver, bytes: seq<uint8>)
    requires |bytes| == 2 && r.phase.Idle? && StartsFrame(bytes[0], r.allowLegacy)
    ensures BigValue(bytes) < TWO16 && RxRun(c, r, bytes) == r.(phase := Frame(BigValue(bytes), []))
  {
    assert Pow256(2) == TWO16;
    BigValueIsInverted(bytes);
    LengthBytes(BigValue(bytes));
    Header(c, r, BigValue(bytes));
  }

  /** The last four bytes of a message. */
  lemma CrcIsHeard(c: Checksum, r: Receiver, payload: seq<uint8>, bytes: seq<uint8>)
    requires |bytes| == 4 && |payload| < TWO16 && r.phase == Frame(|payload|, payload)
    ensures RxRun(c, r, bytes) == Finish(c, r, payload, bytes)
  {
    CompleteFrame(c, r, |payload|, payload, bytes);
    assert (payload + bytes)[..|payload|] == payload && (payload + bytes)[|payload|..] == bytes;
  }

  /** The rest of a line that ends inside a length or a message. */
  predicate FallsSilent(c: Checksum, r: Receiver, rest: seq<uint8>) { !RxRun(c, r, rest).phase.Idle? }

  lemma SilentInLength(c: Checksum, r: Receiver, rest: seq<uint8>)
    requires r.phase.Idle? && |rest| == 1 && StartsFrame(rest[0], r.allowLegacy)
    ensures FallsSilent(c, r, rest)
  {
    RunOfOne(c, r, rest[0]);
    assert rest == [rest[0]];
  }

  lemma SilentInMessage(c: Checksum, r: Receiver, rest: seq<uint8>)
    requires r.phase.Frame? && |r.phase.got| + |rest| < r.phase.length + 4
    ensures FallsSilent(c, r, rest)
  {
    Collected(c, r, r.phase.length, r.phase.got, rest);
  }

  lemma SilentLater(c: Checksum, r: Receiver, line: seq<uint8>, from: nat, here: nat)
    requires from <= here <= |line| && FallsSilent(c, RxRun(c, r, line[from..here]), line[here..])
    ensures FallsSilent(c, r, line[from..])
  {
    LineInParts(c, r, line, from, here, |line|);
    assert line[from..|line|] == line[from..] && line[here..|line|] == line[here..];
  }

  /**
    The bytes from `from` to `end` take the receiver from `r` to `r'`, with at most one event, and the
    messages say what that event gives rise to; bytes up to `pos` were dropped only because of damage.
  */
  predicate Received(
    c: Checksum, line: seq<uint8>, reply: Reply, from: nat, r: Receiver, said: seq<seq<uint8>>,
    end: nat, pos: nat, r': Receiver, said': seq<seq<uint8>>)
  {
    && from <= end <= pos <= |line| && r' == RxRun(c, r, line[from..end])
    && OneStep(r.events, r'.events) && said' == said + SaidIn(r.events, r'.events, reply)
    && (end < pos ==> r'.events != [] && r'.events[|r'.events| - 1] == BadCrc)
  }

  lemma ReceivedNothing(c: Checksum, line: seq<uint8>, reply: Reply, from: nat, r: Receiver, said: seq<seq<uint8>>)
    requires from <= |line|
    ensures Received(c, line, reply, from, r, said, from, from, r, said)
  {
    assert line[from..from] == [];
  }

  lemma ReceivedByte(c: Checksum, line: seq<uint8>, reply: Reply, from: nat, r: Receiver, said: seq<seq<uint8>>)
    requires from < |line|
    requires var r' := RxByte(c, r, line[from]);
      r'.events == r.events || exists b :: r'.events == r.events + [Legacy(b)]
    ensures Received(c, line, reply, from, r, said, from + 1, from + 1, RxByte(c, r, line[from]), said)
  {
    assert line[from..from + 1] == [line[from]];
    RunOfOne(c, r, line[from]);
    var r' := RxByte(c, r, line[from]);
    if r'.events != r.events {
      var b :| r'.events == r.events + [Legacy(b)];
      assert r'.events[|r.events|] == Legacy(b);
    }
  }

  /** More, after a stretch without an event. */
  lemma ReceivedOn(
    c: Checksum, line: seq<uint8>, reply: Reply, from: nat, r: Receiver, said: seq<seq<uint8>>, here: nat, r1: Receiver,
    end: nat, pos: nat, r2: Receiver, said': seq<seq<uint8>>)
    requires Received(c, line, reply, from, r, said, here, here, r1, said) && r1.events == r.events
    requires Received(c, line, reply, here, r1, said, end, pos, r2, said')
    ensures Received(c, line, reply, from, r, said, end, pos, r2, said')
  {
    LineInParts(c, r, line, from, here, end);
  }

  /** What a message is answered with once its checksum has been read. */
  function SaidAtEnd(c: Checksum, payload: seq<uint8>, value: nat, reply: Reply): seq<seq<uint8>> {
    if value == Crc(c, payload) then Answers(reply) else [[RC_CRC_ERR]]
  }

  /** The end of a message, judged. */
  lemma ReceivedMessage(
    c: Checksum, line: seq<uint8>, reply: Reply, from: nat, r: Receiver, said: seq<seq<uint8>>,
    end: nat, pos: nat, payload: seq<uint8>, value: nat)
    requires end == from + 4 <= pos <= |line| && value == BigValue(line[from..end])
    requires |payload| < TWO16 && r.phase == Frame(|payload|, payload)
    requires value == Crc(c, payload) ==> pos == end
    ensures Received(c, line, reply, from, r, said, end, pos, Finish(c, r, payload, line[from..end]),
                     said + SaidAtEnd(c, payload, value, reply))
  {
    CrcIsHeard(c, r, payload, line[from..end]);
  }

  /** A line on which something is refused, or that falls silent, is not intact. */
  lemma IntactLineIsHeard(
    c: Checksum, line: seq<uint8>, reply: Reply, from: nat, r: Receiver, said: seq<seq<uint8>>,
    end: nat, pos: nat, r': Receiver, said': seq<seq<uint8>>)
    requires from <= |line| && r == RxRun(c, INITIAL, line[..from]) && Intact(c, line)
    requires Received(c, line, reply, from, r, said, end, pos, r', said')
    ensures end == pos && r' == RxRun(c, INITIAL, line[..pos])
  {
    LineInParts(c, INITIAL, line, 0, from, end);
    assert line[0..end] == line[..end] && line[0..from] == line[..from];
    if end < pos {
      DamageShows(c, line, end);
    }
  }

  lemma IntactLineIsNotSilent(c: Checksum, line: seq<uint8>, from: nat, r: Receiver)
    requires from <= |line| && r == RxRun(c, INITIAL, line[..from]) && Intact(c, line)
    ensures !FallsSilent(c, r, line[from..])
  {
    RxInParts(c, INITIAL, line[..from], line[from..]);
    assert line[..from] + line[from..] == line;
  }

  lemma DamageShows(c: Checksum, line: seq<uint8>, pos: nat)
    requires pos <= |line| && BadCrc in RxRun(c, INITIAL, line[..pos]).events
    ensures !Intact(c, line)
  {
    RxInParts(c, INITIAL, line[..pos], line[pos..]);
    assert line[..pos] + line[pos..] == line;
    EventsAreKept(c, RxRun(c, INITIAL, line[..pos]), line[pos..]);
  }

  lemma ReversedOneMore(b: uint8, raw: seq<uint8>, line: seq<uint8>, from: nat, pos: nat)
    requires from <= pos < |line| && b == line[pos] && Reversed(raw) == line[from..pos]
    ensures Reversed([b] + raw) == line[from..pos + 1]
  {
    assert ([b] + raw)[1..] == raw;
    assert line[from..pos + 1] == line[from..pos] + [line[pos]];
  }

  /**
    One pass of the main loop: the reply to a command, what the millisecond counter shows if a message
    begins, and what it shows at the end of the receiving call.
  */
  datatype Pass = Pass(reply: Reply, start: uint32, now: uint32)

  function Replies(passes: seq<Pass>): (replies: seq<Reply>)
    ensures |replies| == |passes|
  {
    seq(|passes|, i requires 0 <= i < |passes| => passes[i].reply)
  }

  lemma RepliesOneMore(passes: seq<Pass>, i: nat)
    requires i < |passes|
    ensures Replies(passes[..i + 1]) == Replies(passes[..i]) + [passes[i].reply]
  {
  }

  /** A message whose answer is being sent has been dispatched. */
  function Answering(status: Status): nat { if status.TransmitInProgress? then 1 else 0 }

  /** What the passes of a trace have heard: the first bytes of the line. */
  predicate Heard(c: Checksum, line: seq<uint8>, trace: seq<seq<Event>>, before: seq<Event>, heard: nat) {
    && |trace| > 0 && Trace(trace, |trace| - 1) && trace[0] == before
    && heard <= |line| && trace[|trace| - 1] == RxRun(c, INITIAL, line[..heard]).events
  }

  lemma HeardOneMore(
    c: Checksum, line: seq<uint8>, trace: seq<seq<Event>>, before: seq<Event>, heard: nat,
    next: seq<Event>, heard': nat)
    requires Heard(c, line, trace, before, heard) && OneStep(trace[|trace| - 1], next)
    requires heard' <= |line| && next == RxRun(c, INITIAL, line[..heard']).events
    ensures Heard(c, line, trace + [next], before, heard')
  {
  }

  /** After `i` passes, the message in progress began in pass `begun`; nothing but it was dispatched since. */
  predicate Since(
    passes: seq<Pass>, trace: seq<seq<Event>>, i: nat, begun: nat, start: uint32, events: nat, status: Status)
  {
    && begun < i <= |passes| && i < |trace| && start == passes[begun].start
    && events <= |trace[begun]| + Answering(status)
  }

  /** In the pass after the trace, the time since pass `begun` has run out, with one event or none in between. */
  predicate TookTooLong(passes: seq<Pass>, trace: seq<seq<Event>>, begun: nat) {
    && begun < |trace| <= |passes| && |trace[|trace| - 1]| <= |trace[begun]| + 1
    && IsTimeout(passes[|trace| - 1].now, passes[begun].start)
  }

  class Comms {
    const crc: Checksum
    const serialPayload: array<uint8>
    var status: Status
    var bytesRxTx: nat
    var payloadLength: uint16
    var allowLegacyComms: bool
    var receiveStart: uint32

    /** The line: everything the other side sends, and how much of it has been read. */
    const line: seq<uint8>
    var pos: nat

    /** What was sent back since a timeout last cut a message short, and what was sent before each such cut. */
    var sent: seq<uint8>
    ghost var cut: seq<seq<uint8>>

    /** What reading has made happen. */
    ghost var events: seq<Event>

    /** The messages handed to the sending side since the latest cut, and their bytes. */
    ghost var messages: seq<seq<uint8>>
    ghost var framed: seq<uint8>

    /** What is still missing is the end of the message in the buffer. */
    ghost predicate SendingIsExact()
      reads this`status, this`payloadLength, this`bytesRxTx, this`sent, this`framed, serialPayload
    {
      if status.TransmitInProgress? then
        && payloadLength as int <= serialPayload.Length && payloadLength <= BUFFER_SIZE
        && Pending(crc, framed, serialPayload[..payloadLength], bytesRxTx, sent)
      else sent == framed
    }

    ghost predicate FramesMessages()
      reads this`messages, this`framed
    {
      framed == WireAll(crc, messages)
    }

    ghost predicate Sound()
      reads this`status, this`payloadLength, this`bytesRxTx, this`sent, this`framed, this`messages, serialPayload
    {
      serialPayload.Length == 0xFFFF && SendingIsExact() && FramesMessages()
    }

    /** The state of the receiving pump between two calls. */
    ghost function Receiving(): Receiver
      reads this`status, this`payloadLength, this`bytesRxTx, this`allowLegacyComms, this`events, serialPayload
    {
      Receiver(if status.ReceiveInProgress? && bytesRxTx <= serialPayload.Length
               then Frame(payloadLength, serialPayload[..bytesRxTx]) else Idle,
               allowLegacyComms, events)
    }

    ghost predicate Valid()
      reads this, serialPayload
    {
      Sound() && pos <= |line| && (status.ReceiveInProgress? ==> bytesRxTx <= payloadLength)
    }

    constructor (crc: Checksum, line: seq<uint8>)
      ensures Valid() && fresh(serialPayload) && status.Inactive?
      ensures this.crc == crc && this.line == line && pos == 0 && Receiving() == INITIAL
      ensures sent == [] && cut == [] && messages == []
    {
      this.crc, this.line := crc, line;
      serialPayload := new uint8[0xFFFF];
      status, bytesRxTx, payloadLength, allowLegacyComms, receiveStart := Inactive, 0, 0, true, 0;
      pos, sent, cut := 0, [], [];
      events, messages, framed := [], [], [];
    }

    // ---------------------------------------------------------------- sending

    /** Whether a byte can be written now, and is: both answers are up to the port. */
    method TryWrite(b: uint8) returns (ok: bool)
      modifies this`sent
      ensures sent == if ok then old(sent) + [b] else old(sent)
    {
      ok := *;
      if ok {
        sent := sent + [b];
      }
    }

    method WriteNonBlocking(bytes: seq<uint8>) returns (n: nat)
      modifies this`sent
      ensures n <= |bytes| && sent == old(sent) + bytes[..n]
    {
      n := 0;
      var ok := true;
      while n < |bytes| && ok
        invariant n <= |bytes| && sent == old(sent) + bytes[..n]
        decreases |bytes| - n, ok
      {
        ok := TryWrite(bytes[n]);
        if ok {
          n := n + 1;
        }
      }
    }

    /** A 32-bit number goes out with its bytes swapped in memory. */
    method WriteNumberNonBlocking(start: nat, value: uint32) returns (n: nat)
      requires start <= 4
      modifies this`sent
      ensures n <= 4 - start && sent == old(sent) + BigEndian(value, 4)[start..start + n]
    {
      var memory := LittleEndian(ReverseBytes(value), 4);
      SwappedIsBigEndian(value);
      n := WriteNonBlocking(memory[start..]);
    }

    method SendBufferAndCrcNonBlocking(start: nat, length: nat) returns (next: nat)
      requires length <= serialPayload.Length && start <= length + 4
      modifies this`sent
      ensures start <= next <= length + 4
      ensures sent == old(sent) + Body(crc, serialPayload[..length])[start..next]
    {
      next := start;
      ghost var payload := serialPayload[..length];
      if next < length {
        var n := WriteNonBlocking(serialPayload[next..length]);
        assert serialPayload[start..length] == payload[start..];
        PayloadOfBody(crc, payload, start, n);
        next := next + n;
      } else {
        assert Body(crc, payload)[start..next] == [];
      }
      ghost var middle, sentBefore := next, sent;
      if length <= next < length + 4 {
        var n := WriteNumberNonBlocking(next - length, Crc(crc, serialPayload[..length]));
        next := next + n;
        CrcOfBody(crc, payload, start, middle, next, old(sent));
      }
    }

    method WriteBlocking(bytes: seq<uint8>)
      modifies this`sent
      ensures sent == old(sent) + bytes
    {
      sent := sent + bytes;
    }

    /** A message is handed to the sending side. */
    ghost method Take(payload: seq<uint8>)
      requires FramesMessages()
      modifies this`messages, this`framed
      ensures FramesMessages() && messages == old(messages) + [payload] && framed == old(framed) + Wire(crc, payload)
    {
      WireOneMore(crc, messages, payload);
      messages, framed := messages + [payload], framed + Wire(crc, payload);
    }

    method SendReturnCodeMsg(code: uint8)
      requires Sound() && !status.TransmitInProgress?
      modifies this`sent, this`messages, this`framed
      ensures messages == old(messages) + [[code]] && Sound()
    {
      WriteBlocking(BigEndian(1, 2));
      WriteBlocking([code]);
      WriteBlocking(BigEndian(Crc(crc, [code]), 4));
      CodeIsFramed(crc, framed, code);
      Take([code]);
    }

    /** Send as much as the port takes of the message in progress. */
    method Pump()
      requires Sound() && status.TransmitInProgress?
      modifies this`sent, this`status, this`bytesRxTx
      ensures Sound() && !status.ReceiveInProgress?
      ensures old(sent) <= sent && (status.Inactive? <==> sent == framed)
    {
      ghost var before, sentBefore := bytesRxTx, sent;
      bytesRxTx := SendBufferAndCrcNonBlocking(bytesRxTx, payloadLength);
      PendingGrows(crc, framed, serialPayload[..payloadLength], before, bytesRxTx, sentBefore);
      status := if bytesRxTx == payloadLength + 4 then Inactive else TransmitInProgress;
    }

    method SendHeader(length: uint16)
      requires Sound() && status.Inactive? && length <= BUFFER_SIZE
      modifies this`sent, this`messages, this`framed, this`status, this`payloadLength, this`bytesRxTx
      ensures Sound() && status.TransmitInProgress?
      ensures messages == old(messages) + [serialPayload[..length]]
    {
      status, payloadLength, bytesRxTx := TransmitInProgress, length, 0;
      WriteBlocking(BigEndian(length, 2));
      PendingBegins(crc, framed, serialPayload[..length]);
      Take(serialPayload[..length]);
    }

    /** Start sending the first `length` bytes of the buffer. */
    method SendSerialPayloadNonBlocking(length: uint16)
      requires Sound() && status.Inactive? && length <= BUFFER_SIZE
      modifies this`sent, this`messages, this`framed, this`status, this`payloadLength, this`bytesRxTx
      ensures Sound() && !status.ReceiveInProgress?
      ensures messages == old(messages) + [serialPayload[..length]]
      ensures status.Inactive? <==> sent == framed
    {
      SendHeader(length);
      Pump();
    }

    /** Go on sending. */
    method SerialTransmit()
      requires Valid()
      modifies this`sent, this`status, this`bytesRxTx
      ensures Valid() && Receiving() == old(Receiving())
      ensures old(sent) <= sent && (!status.TransmitInProgress? <==> sent == framed)
    {
      if status.TransmitInProgress? {
        Pump();
      }
    }

    // ---------------------------------------------------------------- receiving

    /** Drop what happens to have arrived. */
    method FlushRxBuffer()
      requires pos <= |line|
      modifies this`pos
      ensures old(pos) <= pos <= |line|
    {
      var arrived: nat := *;
      if pos <= arrived <= |line| {
        pos := arrived;
      }
    }

    /**
      Read a number, most significant byte first, into memory from the end. It fails if the line falls
      silent, or at any moment of a call that is slow: one in which the time for the message runs out.
    */
    method ReadIntegral(size: nat, slow: bool) returns (value: nat, ok: bool)
      requires pos <= |line|
      modifies this`pos
      ensures old(pos) <= pos <= |line|
      ensures ok ==> pos == old(pos) + size && value == BigValue(line[old(pos)..pos])
      ensures !ok && !slow ==> pos == |line| < old(pos) + size
    {
      var raw := new uint8[size];
      var left := size;
      ghost var read: seq<uint8> := [];
      var expired: bool := *;
      expired := expired && slow;
      while left > 0 && !expired
        invariant left <= size && old(pos) <= pos <= |line| && pos - old(pos) == size - left
        invariant raw[left..] == read && Reversed(read) == line[old(pos)..pos]
        invariant expired && !slow ==> left > 0 && pos == |line|
        decreases left, !expired
      {
        if pos < |line| {
          ReversedOneMore(line[pos], read, line, old(pos), pos);
          read := [line[pos]] + read;
          left := left - 1;
          raw[left] := line[pos];
          assert raw[left..] == read;
          pos := pos + 1;
          expired := *;
          expired := expired && slow;
        } else {
          expired := true;
        }
      }
      ok := left == 0 && !expired;
      value := LittleValue(raw[..]);
      if ok {
        assert raw[..] == read;
        ReversedIsBigEndian(read);
      }
    }

    /** A reset byte is dropped; a legacy command is left to the legacy handler. */
    method ReceiveOtherByte()
      requires status.Inactive? && pos < |line| && !StartsFrame(line[pos], allowLegacyComms)
      modifies this`pos, this`events
      ensures pos == old(pos) + 1 && Receiving() == RxByte(crc, old(Receiving()), line[old(pos)])
      ensures events == old(events) || events == old(events) + [Legacy(line[old(pos)])]
    {
      var b := line[pos];
      pos := pos + 1;
      if b != DTR_RESET {
        events := events + [Legacy(b)];
      }
    }

    method BeginMessage(length: uint16)
      requires status.Inactive? && sent == framed
      modifies this`status, this`payloadLength, this`bytesRxTx
      ensures status.ReceiveInProgress? && bytesRxTx == 0 && SendingIsExact()
      ensures Receiving() == old(Receiving()).(phase := Frame(length, []))
    {
      payloadLength, bytesRxTx, status := length, 0, ReceiveInProgress;
    }

    /** The two bytes of a length; fails if the line falls silent after the first, or the call is slow. */
    method ReceiveLength(slow: bool) returns (ok: bool)
      requires Valid() && status.Inactive? && pos < |line| && StartsFrame(line[pos], allowLegacyComms)
      modifies this`pos, this`status, this`payloadLength, this`bytesRxTx
      ensures Valid() && old(pos) <= pos
      ensures ok ==> status.ReceiveInProgress? && Receiving().events == old(events)
      ensures ok ==> Receiving() == RxRun(crc, old(Receiving()), line[old(pos)..pos])
      ensures !ok ==> status.Inactive? && (!slow ==> FallsSilent(crc, old(Receiving()), line[old(pos)..]))
    {
      var length: nat;
      length, ok := ReadIntegral(2, slow);
      if ok {
        LengthIsHeard(crc, Receiving(), line[old(pos)..pos]);
        BeginMessage(length);
      } else if !slow {
        SilentInLength(crc, Receiving(), line[old(pos)..]);
      }
    }

    method Store(b: uint8)
      requires status.ReceiveInProgress? && sent == framed
      requires bytesRxTx < payloadLength && bytesRxTx < serialPayload.Length
      modifies serialPayload, this`bytesRxTx
      ensures bytesRxTx == old(bytesRxTx) + 1 && SendingIsExact()
      ensures serialPayload[..bytesRxTx] == old(serialPayload[..bytesRxTx]) + [b]
    {
      serialPayload[bytesRxTx] := b;
      bytesRxTx := bytesRxTx + 1;
    }

    method ReceivePayloadByte()
      requires Valid() && status.ReceiveInProgress? && pos < |line| && bytesRxTx < payloadLength
      modifies serialPayload, this`pos, this`bytesRxTx
      ensures Valid() && pos == old(pos) + 1 && Receiving() == RxByte(crc, old(Receiving()), line[old(pos)])
    {
      Store(line[pos]);
      pos := pos + 1;
    }

    method Load(payload: seq<uint8>)
      requires |payload| <= serialPayload.Length
      modifies serialPayload
      ensures serialPayload[..|payload|] == payload
    {
      for i := 0 to |payload|
        invariant serialPayload[..i] == payload[..i]
      {
        serialPayload[i] := payload[i];
      }
    }

    /** The command handler, of which only the reply is modelled. */
    method ProcessSerialCommand(reply: Reply)
      requires Sound() && status.Inactive? && Fits(reply)
      modifies serialPayload, this`sent, this`messages, this`framed, this`status, this`payloadLength, this`bytesRxTx
      ensures Sound() && !status.ReceiveInProgress? && messages == old(messages) + Answers(reply)
    {
      match reply {
        case NoReply =>
        case ReturnCode(code) => SendReturnCodeMsg(code);
        case Message(payload) =>
          Load(payload);
          SendSerialPayloadNonBlocking(|payload|);
      }
    }

    /** An intact message: dispatch its command, and lock out legacy commands. */
    method Accept(reply: Reply)
      requires Sound() && status.Inactive? && Fits(reply) && payloadLength as int <= serialPayload.Length
      modifies serialPayload, this`sent, this`messages, this`framed, this`status, this`payloadLength, this`bytesRxTx
      modifies this`events, this`allowLegacyComms
      ensures Sound() && !status.ReceiveInProgress? && !allowLegacyComms
      ensures events == old(events) + [Dispatch(old(serialPayload[..payloadLength]))]
      ensures messages == old(messages) + Answers(reply)
    {
      ghost var payload := serialPayload[..payloadLength];
      ProcessSerialCommand(reply);
      allowLegacyComms := false;
      events := events + [Dispatch(payload)];
    }

    /** A damaged message: say so, and drop what has arrived. */
    method Refuse()
      requires Sound() && status.Inactive? && pos <= |line|
      modifies this`sent, this`messages, this`framed, this`pos, this`events
      ensures Sound() && old(pos) <= pos <= |line|
      ensures events == old(events) + [BadCrc] && messages == old(messages) + [[RC_CRC_ERR]]
    {
      SendReturnCodeMsg(RC_CRC_ERR);
      FlushRxBuffer();
      events := events + [BadCrc];
    }

    /** The checksum has been read: dispatch the command or refuse it. */
    method JudgeMessage(value: nat, reply: Reply)
      requires Sound() && status.Inactive? && Fits(reply) && pos <= |line|
      requires payloadLength as int <= serialPayload.Length
      modifies serialPayload, this`sent, this`messages, this`framed, this`status, this`payloadLength, this`bytesRxTx
      modifies this`pos, this`events, this`allowLegacyComms
      ensures Sound() && !status.ReceiveInProgress? && old(pos) <= pos <= |line|
      ensures if value == Crc(crc, old(serialPayload[..payloadLength]))
        then
          && events == old(events) + [Dispatch(old(serialPayload[..payloadLength]))] && !allowLegacyComms
          && messages == old(messages) + Answers(reply) && pos == old(pos)
        else
          && events == old(events) + [BadCrc] && allowLegacyComms == old(allowLegacyComms)
          && messages == old(messages) + [[RC_CRC_ERR]]
    {
      if value == Crc(crc, serialPayload[..payloadLength]) {
        Accept(reply);
      } else {
        Refuse();
      }
    }

    /**
      The end of a message whose payload is here: its checksum is read up to `end`, and more is read
      only to be dropped, when the message is damaged.
    */
    method ReceiveCrc(reply: Reply, slow: bool) returns (ok: bool, ghost end: nat)
      requires Valid() && status.ReceiveInProgress? && pos < |line| && bytesRxTx == payloadLength && Fits(reply)
      modifies serialPayload, this`sent, this`messages, this`framed, this`status, this`payloadLength, this`bytesRxTx
      modifies this`pos, this`events, this`allowLegacyComms
      ensures Valid() && !status.ReceiveInProgress? && old(pos) < end + 1 && end <= pos
      ensures ok ==> old(pos) < end
      ensures ok ==>
                Received(crc, line, reply, old(pos), old(Receiving()), old(messages), end, pos, Receiving(), messages)
      ensures !ok ==> status.Inactive? && events == old(events) && messages == old(messages)
      ensures !ok && !slow ==> FallsSilent(crc, old(Receiving()), line[old(pos)..])
    {
      ghost var r := Receiving();
      var value: nat;
      value, ok := ReadIntegral(4, slow);
      end := pos;
      status := Inactive;
      if ok {
        ghost var payload := serialPayload[..payloadLength];
        JudgeMessage(value, reply);
        assert Receiving() == Finish(crc, r, payload, line[old(pos)..end]);
        ReceivedMessage(crc, line, reply, old(pos), r, old(messages), end, pos, payload, value);
      } else if !slow {
        SilentInMessage(crc, r, line[old(pos)..]);
      }
    }

    /** Give up: on a message that does not come, or on one that is being sent, which is cut short. */
    method TimeOut()
      requires Sound() && pos <= |line|
      modifies this`status, this`pos, this`sent, this`cut, this`messages, this`framed
      ensures Valid() && status.Inactive? && old(pos) <= pos
      ensures if old(status).TransmitInProgress?
        then cut == old(cut) + [old(sent)] && messages == [[RC_TIMEOUT]]
        else cut == old(cut) && messages == old(messages) + [[RC_TIMEOUT]]
    {
      if status.TransmitInProgress? {
        cut, sent, messages, framed := cut + [sent], [], [], [];
      }
      status := Inactive;
      FlushRxBuffer();
      SendReturnCodeMsg(RC_TIMEOUT);
    }

    /** Read what there is of a message in progress, in one stretch of arrivals. */
    method ReceiveMessage(reply: Reply, slow: bool) returns (ok: bool, ghost end: nat)
      requires Valid() && Fits(reply) && status.ReceiveInProgress?
      modifies serialPayload, this`sent, this`messages, this`framed, this`status, this`payloadLength, this`bytesRxTx
      modifies this`pos, this`events, this`allowLegacyComms
      ensures Valid() && old(pos) <= pos
      ensures ok ==>
                Received(crc, line, reply, old(pos), old(Receiving()), old(messages), end, pos, Receiving(), messages)
      ensures ok && status.ReceiveInProgress? ==> events == old(events)
      ensures !ok ==> status.Inactive? && events == old(events) && messages == old(messages)
      ensures !ok && !slow ==> FallsSilent(crc, old(Receiving()), line[old(pos)..])
    {
      ghost var from, r, said := pos, Receiving(), messages;
      var more := true;
      ok, end := true, pos;
      ReceivedNothing(crc, line, reply, from, r, said);
      while more && pos < |line| && status.ReceiveInProgress?
        invariant Valid() && from <= pos
        invariant ok && Received(crc, line, reply, from, r, said, end, pos, Receiving(), messages)
        invariant status.ReceiveInProgress? ==> end == pos && events == r.events && messages == said
        decreases |line| - pos
      {
        ghost var here, r1 := pos, Receiving();
        if bytesRxTx < payloadLength {
          ReceivePayloadByte();
          end := pos;
          ReceivedByte(crc, line, reply, here, r1, said);
          ReceivedOn(crc, line, reply, from, r, said, here, r1, end, pos, Receiving(), said);
        } else {
          ok, end := ReceiveCrc(reply, slow);
          if !ok {
            if !slow {
              SilentLater(crc, r, line, from, here);
            }
            return;
          }
          ReceivedOn(crc, line, reply, from, r, said, here, r1, end, pos, Receiving(), messages);
        }
        more := *;
      }
    }

    /** What arrives while nothing is in progress. */
    method ReceiveFirst(reply: Reply, slow: bool) returns (ok: bool, begun: bool)
      requires Valid() && status.Inactive? && pos < |line|
      modifies this`pos, this`events, this`status, this`payloadLength, this`bytesRxTx
      ensures Valid() && old(pos) <= pos && !status.TransmitInProgress?
      ensures begun == old(StartsFrame(line[pos], allowLegacyComms))
      ensures ok ==> begun == status.ReceiveInProgress?
      ensures ok ==> Received(crc, line, reply, old(pos), old(Receiving()), messages, pos, pos, Receiving(), messages)
      ensures begun ==> events == old(events)
      ensures !ok ==> begun && status.Inactive? && (!slow ==> FallsSilent(crc, old(Receiving()), line[old(pos)..]))
    {
      ghost var r := Receiving();
      begun := StartsFrame(line[pos], allowLegacyComms);
      if begun {
        ok := ReceiveLength(slow);
      } else {
        ok := true;
        ReceiveOtherByte();
        ReceivedByte(crc, line, reply, old(pos), r, messages);
      }
    }

    /** With a byte waiting, this call begins a message. */
    predicate Begins(arrived: bool)
      reads this
      requires pos <= |line|
    {
      status.Inactive? && arrived && pos < |line| && StartsFrame(line[pos], allowLegacyComms)
    }

    /**
      The reading part of a call, with at most one event. `begun` is false only after a first byte that
      begins no message, when the call ends early.
    */
    method ReceiveWhatThereIs(reply: Reply, arrived: bool, slow: bool) returns (ok: bool, begun: bool, ghost end: nat)
      requires Valid() && Fits(reply)
      modifies serialPayload, this`sent, this`messages, this`framed, this`status, this`payloadLength, this`bytesRxTx
      modifies this`pos, this`events, this`allowLegacyComms
      ensures Valid() && old(pos) <= pos
      ensures old(status).TransmitInProgress? ==> ok && begun && unchanged(this) && unchanged(serialPayload)
      ensures ok ==>
                Received(crc, line, reply, old(pos), old(Receiving()), old(messages), end, pos, Receiving(), messages)
      ensures ok && status.ReceiveInProgress? ==> events == old(events)
      ensures !ok ==> begun && status.Inactive? && events == old(events) && messages == old(messages)
      ensures !ok && !slow ==> FallsSilent(crc, old(Receiving()), line[old(pos)..])
      ensures old(status).Inactive? && arrived && old(pos) < |line| && !old(Begins(arrived)) ==>
                ok && !begun && status.Inactive?
    {
      ghost var from, r, said := pos, Receiving(), messages;
      ok, begun, end := true, true, pos;
      ReceivedNothing(crc, line, reply, from, r, said);
      if status.Inactive? && arrived && pos < |line| {
        ok, begun := ReceiveFirst(reply, slow);
        end := pos;
      }
      if ok && begun && arrived && status.ReceiveInProgress? {
        ghost var here, r1 := pos, Receiving();
        ok, end := ReceiveMessage(reply, slow);
        if ok {
          ReceivedOn(crc, line, reply, from, r, said, here, r1, end, pos, Receiving(), messages);
        } else if !slow {
          SilentLater(crc, r, line, from, here);
        }
      }
    }

    /**
      One call from the main loop. `reply` is what the command handler does if it is called, `arrived`
      whether a byte is waiting, `start` what the millisecond counter shows if a message begins, and
      `now` what it shows at the end, where the time since the start of the latest message is tested.
      What was read up to `end` has been received; what was read after it has been dropped.
    */
    method SerialReceive(reply: Reply, arrived: bool, start: uint32, now: uint32)
      returns (ghost end: nat, timedOut: bool)
      requires Valid() && Fits(reply)
      modifies this, serialPayload
      ensures Valid() && old(pos) <= pos
      ensures receiveStart == if old(Begins(arrived)) then start else old(receiveStart)
      ensures old(status).TransmitInProgress? ==> timedOut == IsTimeout(now, receiveStart)
      ensures old(status).TransmitInProgress? && !timedOut ==> unchanged(this) && unchanged(serialPayload)
      ensures old(status).TransmitInProgress? && timedOut ==>
                status.Inactive? && cut == old(cut) + [old(sent)] && messages == [[RC_TIMEOUT]]
      ensures timedOut ==> IsTimeout(now, receiveStart) || FallsSilent(crc, old(Receiving()), line[old(pos)..])
      ensures !timedOut ==> cut == old(cut)
      ensures !timedOut ==>
                Received(crc, line, reply, old(pos), old(Receiving()), old(messages), end, pos, Receiving(), messages)
      ensures !timedOut && status.ReceiveInProgress? ==> events == old(events)
      ensures old(status).Inactive? && arrived && old(pos) < |line| && !old(Begins(arrived)) ==>
                !timedOut && status.Inactive?
    {
      if Begins(arrived) {
        receiveStart := start;
      }
      var slow := IsTimeout(now, receiveStart);
      var ok, begun;
      ok, begun, end := ReceiveWhatThereIs(reply, arrived, slow);
      timedOut := !ok || (slow && begun);
      if timedOut {
        TimeOut();
      }
    }

    /** Nothing is sent but the messages, in order; and they are complete when no transmission is in progress. */
    lemma SentIsPrefix()
      requires Valid()
      ensures sent <= WireAll(crc, messages)
      ensures !status.TransmitInProgress? <==> sent == WireAll(crc, messages)
    {
      if status.TransmitInProgress? {
        PendingIsPrefix(crc, framed, serialPayload[..payloadLength], bytesRxTx, sent);
      }
    }

    /** So far every byte of the line has been received, and no message has been cut short. */
    ghost predicate OnTime()
      reads this, serialPayload
    {
      pos <= |line| && Receiving() == RxRun(crc, INITIAL, line[..pos]) && cut == []
    }

    /**
      Go on sending, and receive if a byte is waiting or a message is in progress. `late` says that the
      call found the time for the latest message to have run out. That message begins in this pass, or
      it has been in progress all the time since, being received or answered.
    */
    method OnePass(pass: Pass) returns (late: bool)
      requires Valid() && Fits(pass.reply)
      modifies this, serialPayload
      ensures Valid() && receiveStart in {pass.start, old(receiveStart)}
      ensures old(OnTime()) && Intact(crc, line) && late ==>
                && IsTimeout(pass.now, receiveStart)
                && (receiveStart == pass.start || (!old(status).Inactive? && receiveStart == old(receiveStart)))
      ensures old(OnTime()) && Intact(crc, line) && !late ==>
                && OnTime() && OneStep(old(events), events)
                && messages == old(messages) + SaidIn(old(events), events, pass.reply)
      ensures old(OnTime()) && Intact(crc, line) && !late && !status.Inactive? ==>
                || (receiveStart == pass.start && |events| <= |old(events)| + Answering(status))
                || (&& !old(status).Inactive? && receiveStart == old(receiveStart)
                    && |events| + Answering(old(status)) <= |old(events)| + Answering(status))
    {
      if status.TransmitInProgress? {
        SerialTransmit();
      }
      ghost var from, r, said := pos, Receiving(), messages;
      var arrived: bool := *;
      late := false;
      if (arrived && pos < |line|) || status.ReceiveInProgress? {
        ghost var end;
        end, late := SerialReceive(pass.reply, arrived, pass.start, pass.now);
        if old(OnTime()) && Intact(crc, line) {
          IntactLineIsNotSilent(crc, line, from, r);
          if !late {
            IntactLineIsHeard(crc, line, pass.reply, from, r, said, end, pos, Receiving(), messages);
          }
        }
      }
    }

    /**
      The main loop. How much gets through in each pass is up to the port. Until a pass is late, an
      intact line is received byte for byte, `heard` bytes of it, and what is said is what the events of
      the passes give rise to, in order. A pass is late only when the time has run out since the pass
      `begun`, in which a message began that is in progress ever since: no more than its own dispatch
      has happened in between.
    */
    method MainLoop(passes: seq<Pass>)
      returns (late: bool, ghost trace: seq<seq<Event>>, ghost heard: nat, ghost begun: nat)
      requires Valid() && forall pass :: pass in passes ==> Fits(pass.reply)
      modifies this, serialPayload
      ensures Valid()
      ensures old(OnTime()) && Intact(crc, line) ==>
                |trace| <= |passes| + 1 && Heard(crc, line, trace, old(events), heard)
      ensures old(OnTime()) && Intact(crc, line) && old(status).Inactive? && late ==> TookTooLong(passes, trace, begun)
      ensures old(OnTime()) && Intact(crc, line) && !late ==>
                && OnTime() && |trace| == |passes| + 1 && trace[|passes|] == events && heard == pos
                && messages == old(messages) + SaidOver(trace, Replies(passes))
    {
      late, trace, heard, begun := false, [events], pos, 0;
      ghost var intact, before, said := OnTime() && Intact(crc, line), events, messages;
      ghost var idle := intact && status.Inactive?;
      for i := 0 to |passes|
        invariant Valid()
        invariant intact ==> |trace| <= |passes| + 1 && Heard(crc, line, trace, before, heard)
        invariant idle && late ==> TookTooLong(passes, trace, begun)
        invariant intact && !late ==> OnTime() && heard == pos && |trace| == i + 1
        invariant intact && !late ==> Told(trace, Replies(passes[..i]), before, events, said, messages)
        invariant idle && !late && !status.Inactive? ==>
                    Since(passes, trace, i, begun, receiveStart, |events|, status)
      {
        ghost var after, said', earlier, start := events, messages, status, receiveStart;
        var isLate := OnePass(passes[i]);
        if !late && receiveStart == passes[i].start {
          begun := i;
        }
        late := late || isLate;
        if intact && !late {
          ToldOneMore(trace, Replies(passes[..i]), before, after, said, said', events, passes[i].reply);
          RepliesOneMore(passes, i);
          HeardOneMore(crc, line, trace, before, heard, events, pos);
          trace, heard := trace + [events], pos;
        }
      }
      assert passes[..|passes|] == passes;
    }
  }

  /** Messages framed by the other side make an intact line. */
  lemma MessagesAreIntact(c: Checksum, commands: seq<seq<uint8>>)
    requires forall p :: p in commands ==> |p| < 0x3F00
    ensures Intact(c, WireAll(c, commands))
  {
    AllAreDispatched(c, INITIAL, commands);
    DispatchesAreGood(commands);
  }

  lemma {:induction false} DispatchesAreGood(commands: seq<seq<uint8>>)
    ensures BadCrc !in Dispatches(commands)
    decreases |commands|
  {
    if commands != [] {
      DispatchesAreGood(commands[..|commands| - 1]);
    }
  }

  lemma FirstEvents(c: Checksum, line: seq<uint8>, pos: nat)
    requires pos <= |line|
    ensures RxRun(c, INITIAL, line[..pos]).events <= RxRun(c, INITIAL, line).events
  {
    RxInParts(c, INITIAL, line[..pos], line[pos..]);
    assert line[..pos] + line[pos..] == line;
    EventsAreKept(c, RxRun(c, INITIAL, line[..pos]), line[pos..]);
  }

  lemma HeardOfCommands(c: Checksum, commands: seq<seq<uint8>>, line: seq<uint8>, pos: nat)
    requires line == WireAll(c, commands) && pos <= |line| && forall p :: p in commands ==> |p| < 0x3F00
    ensures RxRun(c, INITIAL, line[..pos]).events <= Dispatches(commands)
    ensures pos == |line| ==> RxRun(c, INITIAL, line[..pos]).events == Dispatches(commands)
  {
    FirstEvents(c, line, pos);
    AllAreDispatched(c, INITIAL, commands);
    assert line[..|line|] == line;
    assert INITIAL.events + Dispatches(commands) == Dispatches(commands);
  }

  /**
    Commands framed by the other side and read in any pieces, while answers are sent in any pieces.
    Until a pass is late, the commands dispatched are the first of those sent, in order, each once, and
    all of them when the whole line has been read; and the messages are the answers of the passes that
    dispatched a command, in order. A pass is late only when the time has run out for a single command,
    from the pass in which it begins until it has been answered. What has been sent back since any
    timeout is a prefix of the messages as they are framed.
  */
  method ServeCommands(crc: Checksum, commands: seq<seq<uint8>>, passes: seq<Pass>)
    returns (comms: Comms, late: bool, ghost trace: seq<seq<Event>>, ghost begun: nat)
    requires forall p :: p in commands ==> |p| <= BUFFER_SIZE
    requires forall pass :: pass in passes ==> Fits(pass.reply)
    ensures comms.line == WireAll(crc, commands) && comms.crc == crc
    ensures 0 < |trace| <= |passes| + 1 && Trace(trace, |trace| - 1)
    ensures trace[0] == [] && trace[|trace| - 1] <= Dispatches(commands)
    ensures late ==> TookTooLong(passes, trace, begun)
    ensures !late ==> |trace| == |passes| + 1 && trace[|passes|] == comms.events
    ensures !late && comms.pos == |comms.line| ==> comms.events == Dispatches(commands)
    ensures !late ==> comms.messages == SaidOver(trace, Replies(passes)) && comms.cut == []
    ensures comms.sent <= WireAll(crc, comms.messages)
    ensures !comms.status.TransmitInProgress? <==> comms.sent == WireAll(crc, comms.messages)
  {
    comms := new Comms(crc, WireAll(crc, commands));
    MessagesAreIntact(crc, commands);
    assert comms.line[..0] == [];
    ghost var heard;
    late, trace, heard, begun := comms.MainLoop(passes);
    HeardOfCommands(crc, commands, comms.line, heard);
    comms.SentIsPrefix();
  }
}
