/** Types shared by the crank and cam decoders. */
module Decoders {
  import opened Machine

  datatype SyncStatus = None | Partial | Full

  const MICROS_PER_SEC: uint32 := 1_000_000
  const MAX_RPM: uint16 := 18_000
}
