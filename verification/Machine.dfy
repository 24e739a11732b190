/** The fixed-width unsigned arithmetic of the firmware, written out on unbounded integers. */
module Machine {
  const TWO8 := 0x100
  const TWO16 := 0x1_0000
  const TWO32 := 0x1_0000_0000

  type uint8 = n: int | 0 <= n < TWO8
  type uint16 = n: int | 0 <= n < TWO16
  type uint32 = n: int | 0 <= n < TWO32

  /** Increment of an 8-, 16- or 32-bit counter, wrapping at the top. */
  function Next8(n: uint8): uint8 { (n + 1) % TWO8 }

  function Next16(n: uint16): uint16 { (n + 1) % TWO16 }

  function Next32(n: uint32): uint32 { (n + 1) % TWO32 }

  /** Unsigned 32-bit subtraction, as used for every elapsed time in the firmware. */
  function Elapsed(now: uint32, start: uint32): uint32 { (now - start) % TWO32 }

  /** What the free-running 32-bit microsecond counter shows at true time `t`. */
  function Stamp(t: int): uint32 { t % TWO32 }

  /** Before the counter first rolls over, a stamp is the time. */
  lemma StampIsTrue(t: int)
    requires 0 <= t < TWO32
    ensures Stamp(t) == t
  {
  }

  /** Modular subtraction of two stamps is the true interval, across any rollover. */
  lemma StampDifference(later: int, earlier: int)
    requires 0 <= later - earlier < TWO32
    ensures Elapsed(Stamp(later), Stamp(earlier)) == later - earlier
  {
    var a, b := later / TWO32, earlier / TWO32;
    assert Stamp(later) - Stamp(earlier) == (later - earlier) - TWO32 * (a - b);
  }

  /** Further apart, it is the true interval modulo the period of the counter. */
  lemma StampDifferenceWraps(later: int, earlier: int)
    ensures Elapsed(Stamp(later), Stamp(earlier)) == Stamp(later - earlier)
  {
    var a, b := later / TWO32, earlier / TWO32;
    var difference := Stamp(later) - Stamp(earlier);
    assert difference == (later - earlier) - TWO32 * (a - b);
    WholePeriods(later - earlier, a - b);
  }

  lemma WholePeriods(t: int, k: int)
    ensures Stamp(t - TWO32 * k) == Stamp(t)
  {
    var q, r := t / TWO32, t % TWO32;
    assert t - TWO32 * k == TWO32 * (q - k) + r;
  }
}
