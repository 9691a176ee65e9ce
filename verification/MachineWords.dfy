/** The bounds of the machine's words. */
module MachineWords {

  const TWO_63: int := 0x8000_0000_0000_0000
  const TWO_64: int := 0x1_0000_0000_0000_0000

  /** `static_cast<size_t> (0) - 1` */
  const SIZE_MAX: nat := TWO_64 - 1
}
