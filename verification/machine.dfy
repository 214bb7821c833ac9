/** Integer widths and small wrappers shared by the whole model. */
module Machine {
  /** One octet of application data. */
  newtype byte = b: int | 0 <= b < 256

  /** Number of values of `std::uint32_t` and `std::size_t`. */
  const U32: int := 0x1_0000_0000
  const U64: int := 0x1_0000_0000_0000_0000

  datatype Option<+T> = None | Some(value: T)

  function Min(a: int, b: int): int {
    if a <= b then a else b
  }

  function Max(a: int, b: int): int {
    if a <= b then b else a
  }
}
