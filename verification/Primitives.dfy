/** Machine integers and small wrappers shared by the models. */
module Primitives {

  const U32_LIMIT: int := 0x1_0000_0000
  const U64_LIMIT: int := 0x1_0000_0000_0000_0000
  const U128_LIMIT: int := 0x1_0000_0000_0000_0000_0000_0000_0000_0000
  const U256_LIMIT: int :=
    0x1_0000_0000_0000_0000_0000_0000_0000_0000_0000_0000_0000_0000_0000_0000_0000_0000
  const ADDRESS_LIMIT: int := 0x1_0000_0000_0000_0000_0000_0000_0000_0000_0000_0000
  const USIZE_MAX: int := 0xFFFF_FFFF_FFFF_FFFF
  const ISIZE_MAX: int := 0x7FFF_FFFF_FFFF_FFFF
  const I32_MAX: int := 0x7FFF_FFFF
  const I64_MAX: int := 0x7FFF_FFFF_FFFF_FFFF

  newtype Byte = x: int | 0 <= x < 256
  newtype Address = x: int | 0 <= x < ADDRESS_LIMIT
  type U256 = x: int | 0 <= x < U256_LIMIT
  type U128 = x: int | 0 <= x < U128_LIMIT
  type Usize = x: int | 0 <= x <= USIZE_MAX

  datatype Option<+T> = None | Some(value: T)
  datatype Result<+T, +E> = Ok(value: T) | Err(error: E)

  function Max(a: int, b: int): int { if a < b then b else a }
  function Min(a: int, b: int): int { if a < b then a else b }
}
