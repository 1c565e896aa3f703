/** Small vocabulary shared by every module: optional values and bytes. */
module Prelude {

  datatype Option<+T> = None | Some(value: T)

  /** An octet. Widths are modelled explicitly, so this is an `int` with a range. */
  type Byte = b: int | 0 <= b < 256

  type Bytes = seq<Byte>

  const MAX_U16: nat := 0xFFFF
  const MAX_U32: nat := 0xFFFF_FFFF

  function Min(a: int, b: int): int {
    if a <= b then a else b
  }
}
