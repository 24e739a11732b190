/** What the tooth log looks like on the wire, however often its sending is interrupted. */
module ToothLogRuns {
  import opened Machine
  import opened SerialFrame
  import opened ToothLog

  function Run(c: Checksum, recs: seq<uint32>, s: Log, takes: seq<nat>): Log
    requires Completes(|recs|, s.items, takes)
    decreases |takes|
  {
    if |takes| == 1 then Call(c, recs, s, takes[0])
    else Run(c, recs, Call(c, recs, s, takes[0]), takes[1..])
  }

  /** The numbers of records taken in successive calls: the last call sends the last record. */
  predicate Completes(total: nat, items: nat, takes: seq<nat>)
    decreases |takes|
  {
    && takes != []
    && if |takes| == 1 then items + takes[0] == total
       else items + takes[0] < total && Completes(total, items + takes[0], takes[1..])
  }

  /** How many of the calls find nothing sent. */
  function Starts(takes: seq<nat>): nat
    requires takes != []
  {
    if takes[0] == 0 && |takes| > 1 then 1 + Starts(takes[1..]) else 1
  }

  function Headers(n: nat, k: nat): seq<uint8> {
    if k == 0 then [] else Header(n) + Headers(n, k - 1)
  }

  /** The return code and the records: what the checksum is about. */
  function Body(recs: seq<uint32>): seq<uint8> { [RC_OK] + Records(recs) }

  function Tail(c: Checksum, recs: seq<uint32>): seq<uint8> { BigEndian(Crc(c, Body(recs)), 4) }

  /** Part of the log is out and the checksum object has absorbed the return code and that part. */
  predicate PartSent(c: Checksum, recs: seq<uint32>, s: Log) {
    0 < s.items < |recs| && s.word == Absorb(c, c.start, Body(recs[..s.items]))
  }

  lemma {:induction false} RecordsInParts(xs: seq<uint32>, ys: seq<uint32>)
    ensures Records(xs + ys) == Records(xs) + Records(ys)
    decreases |ys|
  {
    if ys == [] {
      assert xs + ys == xs;
    } else {
      RecordsInParts(xs, ys[..|ys| - 1]);
      assert (xs + ys)[..|xs + ys| - 1] == xs + ys[..|ys| - 1];
    }
  }

  lemma BodyInParts(c: Checksum, recs: seq<uint32>, from: nat, to: nat)
    requires from <= to <= |recs|
    ensures Absorb(c, Absorb(c, c.start, Body(recs[..from])), Records(recs[from..to])) ==
            Absorb(c, c.start, Body(recs[..to]))
    ensures Records(recs[..from]) + Records(recs[from..to]) == Records(recs[..to])
  {
    RecordsInParts(recs[..from], recs[from..to]);
    assert recs[..from] + recs[from..to] == recs[..to];
    AbsorbInParts(c, c.start, Body(recs[..from]), Records(recs[from..to]));
    assert Body(recs[..from]) + Records(recs[from..to]) == Body(recs[..to]);
  }

  /** The end of the log, from the first record not yet sent. */
  function Rest(c: Checksum, recs: seq<uint32>, from: nat): seq<uint8>
    requires from <= |recs|
  {
    Records(recs[from..]) + Tail(c, recs)
  }

  lemma RestInParts(c: Checksum, recs: seq<uint32>, from: nat, to: nat)
    requires from <= to <= |recs|
    ensures Records(recs[from..to]) + Rest(c, recs, to) == Rest(c, recs, from)
  {
    RecordsInParts(recs[from..to], recs[to..]);
    assert recs[from..to] + recs[to..] == recs[from..];
  }

  lemma StartedWord(c: Checksum, recs: seq<uint32>, s: Log)
    requires s.items == 0 || PartSent(c, recs, s)
    ensures s.items <= |recs| && Started(c, |recs|, s).word == Absorb(c, c.start, Body(recs[..s.items]))
  {
    if s.items == 0 {
      assert recs[..0] == [] && Body([]) == [RC_OK];
    }
  }

  /** A call that leaves something for the next one. */
  lemma PartialCall(c: Checksum, recs: seq<uint32>, s: Log, taken: nat)
    requires s.items == 0 || PartSent(c, recs, s)
    requires 0 < s.items + taken < |recs|
    ensures var t := Call(c, recs, s, taken);
      && PartSent(c, recs, t) && t.items == s.items + taken
      && t.sent + Rest(c, recs, t.items) == Started(c, |recs|, s).sent + Rest(c, recs, s.items)
  {
    var sent, to := Started(c, |recs|, s).sent, s.items + taken;
    var bytes, rest := Records(recs[s.items..to]), Rest(c, recs, to);
    StartedWord(c, recs, s);
    BodyInParts(c, recs, s.items, to);
    RestInParts(c, recs, s.items, to);
    assert (sent + bytes) + rest == sent + (bytes + rest);
  }

  /** A call that sends the last record. */
  lemma LastCall(c: Checksum, recs: seq<uint32>, s: Log, taken: nat)
    requires s.items == 0 || PartSent(c, recs, s)
    requires s.items + taken == |recs|
    ensures var t := Call(c, recs, s, taken);
      t.items == 0 && t.sent == Started(c, |recs|, s).sent + Rest(c, recs, s.items)
  {
    var sent := Started(c, |recs|, s).sent;
    StartedWord(c, recs, s);
    BodyInParts(c, recs, s.items, |recs|);
    assert recs[..|recs|] == recs && recs[s.items..|recs|] == recs[s.items..];
    assert (sent + Records(recs[s.items..])) + Tail(c, recs) == sent + Rest(c, recs, s.items);
  }

  lemma {:induction false} Resumed(c: Checksum, recs: seq<uint32>, s: Log, takes: seq<nat>)
    requires PartSent(c, recs, s) && Completes(|recs|, s.items, takes)
    ensures Run(c, recs, s, takes).sent == s.sent + Rest(c, recs, s.items) && Run(c, recs, s, takes).items == 0
    decreases |takes|
  {
    if |takes| > 1 {
      PartialCall(c, recs, s, takes[0]);
      Resumed(c, recs, Call(c, recs, s, takes[0]), takes[1..]);
    } else {
      LastCall(c, recs, s, takes[0]);
    }
  }

  lemma EmptyCall(c: Checksum, recs: seq<uint32>, s: Log)
    requires s.items == 0 && |recs| > 0
    ensures Call(c, recs, s, 0).items == 0 && Call(c, recs, s, 0).sent == s.sent + Header(|recs|)
  {
    assert Records(recs[0..0]) == [];
  }

  /**
    Whatever the interruptions: the header, once for each call that found nothing sent, then every
    record once and in order, then the checksum of the return code and all the records.
  */
  lemma {:induction false} LogOnTheWire(c: Checksum, recs: seq<uint32>, s: Log, takes: seq<nat>)
    requires s.items == 0 && |recs| > 0 && Completes(|recs|, 0, takes)
    ensures Run(c, recs, s, takes).sent == s.sent + Headers(|recs|, Starts(takes)) + Rest(c, recs, 0)
    ensures Run(c, recs, s, takes).items == 0
    decreases |takes|
  {
    var header := Header(|recs|);
    assert Headers(|recs|, 1) == header;
    if takes[0] == 0 {
      EmptyCall(c, recs, s);
      LogOnTheWire(c, recs, Call(c, recs, s, 0), takes[1..]);
      assert Headers(|recs|, Starts(takes)) == header + Headers(|recs|, Starts(takes[1..]));
      assert s.sent + header + Headers(|recs|, Starts(takes[1..])) == s.sent + Headers(|recs|, Starts(takes));
    } else {
      if |takes| > 1 {
        PartialCall(c, recs, s, takes[0]);
        Resumed(c, recs, Call(c, recs, s, takes[0]), takes[1..]);
      } else {
        LastCall(c, recs, s, takes[0]);
      }
    }
  }

  lemma {:induction false} HeaderLength(n: nat, k: nat)
    ensures |Headers(n, k)| == 3 * k
    decreases k
  {
    if k > 0 {
      HeaderLength(n, k - 1);
    }
  }

  lemma HeaderAndRest(c: Checksum, recs: seq<uint32>)
    ensures Header(|recs|) + Rest(c, recs, 0) == Wire(c, Body(recs))
  {
    assert recs[0..] == recs;
    var size, records, tail := BigEndian(4 * |recs| + 1, 2), Records(recs), Tail(c, recs);
    assert (size + [RC_OK]) + (records + tail) == size + (([RC_OK] + records) + tail);
  }

  /** An uninterrupted log is one framed message, return code first. */
  lemma UninterruptedIsFramed(c: Checksum, recs: seq<uint32>, s: Log)
    requires s.items == 0 && |recs| > 0
    ensures Run(c, recs, s, [|recs|]).sent == s.sent + Wire(c, Body(recs))
  {
    LogOnTheWire(c, recs, s, [|recs|]);
    HeaderAndRest(c, recs);
    assert Headers(|recs|, 1) == Header(|recs|);
    assert s.sent + Header(|recs|) + Rest(c, recs, 0) == s.sent + (Header(|recs|) + Rest(c, recs, 0));
  }

  /** Interrupted or not, the same bytes go out exactly when the first call sends at least one record. */
  lemma SameBytesIff(c: Checksum, recs: seq<uint32>, s: Log, takes: seq<nat>)
    requires s.items == 0 && |recs| > 0 && Completes(|recs|, 0, takes)
    ensures Run(c, recs, s, takes).sent == s.sent + Wire(c, Body(recs)) <==> takes[0] > 0
  {
    LogOnTheWire(c, recs, s, takes);
    UninterruptedIsFramed(c, recs, s);
    LogOnTheWire(c, recs, s, [|recs|]);
    HeaderLength(|recs|, Starts(takes));
    HeaderLength(|recs|, 1);
  }

  /** The records of a log that goes out: those taken so far, and then zeros, or all of a full one. */
  lemma PaddedAt(history: seq<uint32>, index: nat, full: bool, k: nat)
    requires index <= |history| && k < |history|
    ensures Padded(history, index, full)[k] == if full || k < index then history[k] else 0
  {
  }
}
