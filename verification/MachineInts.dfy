/** The unsigned integer widths of the on-chain programs. */
module MachineInts {
  const U64_LIMIT: nat := 0x1_0000_0000_0000_0000

  type U64 = x: nat | x < U64_LIMIT
  type U16 = x: nat | x < 0x1_0000
}
