/** Types shared by every component: octets, machine words, optional and fallible results. */
module Base {

  newtype byte = x: int | 0 <= x < 0x100

  newtype u32 = x: int | 0 <= x < 0x1_0000_0000

  const U64_MAX: nat := 0xFFFF_FFFF_FFFF_FFFF

  const NEWLINE: byte := 10

  datatype Option<+T> = None | Some(value: T)

  datatype Result<+T, +E> = Ok(value: T) | Err(error: E)

  function Min(a: int, b: int): int { if a <= b then a else b }

  function Max(a: int, b: int): int { if a >= b then a else b }

  /** `u64::saturating_add` / `usize::saturating_add`. */
  function SatAdd(a: nat, b: nat): nat { Min(a + b, U64_MAX) }

  /** `usize::saturating_sub`. */
  function SatSub(a: nat, b: nat): nat { if a <= b then 0 else a - b }
}
