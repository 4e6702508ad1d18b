/** Machine words: bytes, and the ranges of the target's 32-bit unsigned int and size_t. */
module Words {
  const UINT_RANGE: int := 0x1_0000_0000
  const SIZE_RANGE: int := 0x1_0000_0000

  type Byte = b: int | 0 <= b < 256
  type Uint = x: int | 0 <= x < UINT_RANGE
}

/** A value that may be missing. */
module Options {
  datatype Option<T> = None | Some(value: T)
}
