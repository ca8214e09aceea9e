/** The fixed-width integers of the source. Assignments to them are checked not to wrap. */
module MachineInts {
  newtype uint32 = x: int | 0 <= x < 0x1_0000_0000

  newtype byte = x: int | 0 <= x < 256

  /** One past the largest `size_t` and `uint64_t`. */
  const TWO_64: int := 0x1_0000_0000_0000_0000
}
