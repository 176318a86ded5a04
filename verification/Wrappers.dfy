/** What every module uses. */
module Wrappers {
  datatype Option<+T> = None | Some(value: T)

  /** One past the largest 64-bit unsigned number. */
  const WORD: nat := 0x1_0000_0000_0000_0000
}
