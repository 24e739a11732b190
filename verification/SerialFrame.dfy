/** Bytes on the serial line: multi-byte numbers, an arbitrary running checksum, and framed messages. */
module SerialFrame {
  import opened Machine

  // ------------------------------------------------------------------ numbers as bytes

  function Pow256(k: nat): nat { if k == 0 then 1 else 256 * Pow256(k - 1) }

  /** The low `k` bytes of a number, most significant first. */
  function BigEndian(n: nat, k: nat): (bytes: seq<uint8>)
    ensures |bytes| == k
  {
    if k == 0 then [] else BigEndian(n / 256, k - 1) + [n % 256]
  }

  function BigValue(bytes: seq<uint8>): nat {
    if bytes == [] then 0 else 256 * BigValue(bytes[..|bytes| - 1]) + bytes[|bytes| - 1]
  }

  /** A number as it lies in the memory of the controller, least significant byte first. */
  function LittleEndian(n: nat, k: nat): (bytes: seq<uint8>)
    ensures |bytes| == k
  {
    if k == 0 then [] else [n % 256] + LittleEndian(n / 256, k - 1)
  }

  function LittleValue(bytes: seq<uint8>): nat {
    if bytes == [] then 0 else bytes[0] + 256 * LittleValue(bytes[1..])
  }

  function Reversed(s: seq<uint8>): (r: seq<uint8>)
    ensures |r| == |s| && forall i :: 0 <= i < |s| ==> r[i] == s[|s| - 1 - i]
  {
    if s == [] then [] else Reversed(s[1..]) + [s[0]]
  }

  lemma {:induction false} BigEndianIsInverted(n: nat, k: nat)
    requires n < Pow256(k)
    ensures BigValue(BigEndian(n, k)) == n
  {
    if k > 0 {
      BigEndianIsInverted(n / 256, k - 1);
      assert BigEndian(n, k)[..k - 1] == BigEndian(n / 256, k - 1);
    }
  }

  lemma {:induction false} BigValueIsInverted(bytes: seq<uint8>)
    ensures BigValue(bytes) < Pow256(|bytes|)
    ensures BigEndian(BigValue(bytes), |bytes|) == bytes
    decreases |bytes|
  {
    if bytes != [] {
      BigValueIsInverted(bytes[..|bytes| - 1]);
      assert BigValue(bytes) / 256 == BigValue(bytes[..|bytes| - 1]);
    }
  }

  /** Filling memory from the end reads the bytes as they came, most significant first. */
  lemma {:induction false} ReversedIsBigEndian(raw: seq<uint8>)
    ensures LittleValue(raw) == BigValue(Reversed(raw))
    decreases |raw|
  {
    if raw != [] {
      ReversedIsBigEndian(raw[1..]);
      assert Reversed(raw)[..|raw| - 1] == Reversed(raw[1..]);
    }
  }

  /** The byte swap done before a 32-bit number is sent. */
  function ReverseBytes(n: uint32): uint32 {
    n / 0x100_0000 % 256 + n / 0x1_0000 % 256 * 0x100 + n / 0x100 % 256 * 0x1_0000 + n % 256 * 0x100_0000
  }

  /** Sending the swapped number from low to high address puts the most significant byte first. */
  lemma SwappedIsBigEndian(n: uint32)
    ensures LittleEndian(ReverseBytes(n), 4) == BigEndian(n, 4)
  {
    var a, b, c, d := n / 0x100_0000, n / 0x1_0000 % 256, n / 0x100 % 256, n % 256;
    FourBytes(n);
    Bytes(ReverseBytes(n), d, c, b, a);
    Bytes(n, a, b, c, d);
  }

  lemma FourBytes(n: uint32)
    ensures 0 <= n / 0x100_0000 < 256
    ensures n == ((n / 0x100_0000 * 256 + n / 0x1_0000 % 256) * 256 + n / 0x100 % 256) * 256 + n % 256
  {
    assert n / 0x1_0000 == n / 0x100 / 256 && n / 0x100_0000 == n / 0x1_0000 / 256;
  }

  lemma Bytes(n: nat, a: uint8, b: uint8, c: uint8, d: uint8)
    requires n == ((a * 256 + b) * 256 + c) * 256 + d
    ensures BigEndian(n, 4) == [a, b, c, d] && LittleEndian(n, 4) == [d, c, b, a]
  {
    var n1, n2 := n / 256, n / 256 / 256;
    assert n1 == (a * 256 + b) * 256 + c && n2 == a * 256 + b && n2 / 256 == a;
    assert BigEndian(n2 / 256, 1) == [a];
    assert BigEndian(n2, 2) == [a, b];
    assert BigEndian(n1, 3) == [a, b, c];
    assert LittleEndian(n2 / 256, 1) == [a];
    assert LittleEndian(n2, 2) == [b, a];
    assert LittleEndian(n1, 3) == [c, b, a];
  }

  // ------------------------------------------------------------------ the checksum

  /** Any checksum that is computed byte by byte and can be resumed. */
  datatype Checksum = Checksum(start: uint32, step: (uint32, uint8) -> uint32, finish: uint32 -> uint32)

  function Absorb(c: Checksum, word: uint32, bytes: seq<uint8>): uint32
    decreases |bytes|
  {
    if bytes == [] then word else Absorb(c, c.step(word, bytes[0]), bytes[1..])
  }

  function Crc(c: Checksum, bytes: seq<uint8>): uint32 { c.finish(Absorb(c, c.start, bytes)) }

  lemma {:induction false} AbsorbInParts(c: Checksum, word: uint32, xs: seq<uint8>, ys: seq<uint8>)
    ensures Absorb(c, word, xs + ys) == Absorb(c, Absorb(c, word, xs), ys)
    decreases |xs|
  {
    if xs == [] {
      assert xs + ys == ys;
    } else {
      AbsorbInParts(c, c.step(word, xs[0]), xs[1..], ys);
      assert (xs + ys)[1..] == xs[1..] + ys;
    }
  }

  // ------------------------------------------------------------------ messages

  /** A message on the wire: its length, its bytes, its checksum. */
  function Wire(c: Checksum, payload: seq<uint8>): (bytes: seq<uint8>)
    ensures |bytes| == |payload| + 6
  {
    BigEndian(|payload|, 2) + (payload + BigEndian(Crc(c, payload), 4))
  }

  function WireAll(c: Checksum, payloads: seq<seq<uint8>>): seq<uint8> {
    if payloads == [] then []
    else WireAll(c, payloads[..|payloads| - 1]) + Wire(c, payloads[|payloads| - 1])
  }

  lemma WireOneMore(c: Checksum, payloads: seq<seq<uint8>>, payload: seq<uint8>)
    ensures WireAll(c, payloads + [payload]) == WireAll(c, payloads) + Wire(c, payload)
  {
    assert (payloads + [payload])[..|payloads|] == payloads;
  }
}
