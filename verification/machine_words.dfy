/** Unsigned machine integers. */
module MachineWords {
  const TWO16: nat := 0x1_0000
  const TWO32: nat := 0x1_0000_0000

  type u8 = x: int | 0 <= x < 256
  type u16 = x: int | 0 <= x < 0x1_0000
  type u32 = x: int | 0 <= x < 0x1_0000_0000
}
