/** Machine words and the optional value used throughout the model. */
module Prelude {

  datatype Option<+T> = None | Some(value: T)

  const MAX64: int := 0xFFFF_FFFF_FFFF_FFFF
  const MAX32: int := 0xFFFF_FFFF

  type uint64 = n: int | 0 <= n <= 0xFFFF_FFFF_FFFF_FFFF
  type uint32 = n: int | 0 <= n <= 0xFFFF_FFFF

  const MAX_INT64: int := 0x7FFF_FFFF_FFFF_FFFF

  type Address = nat

  /** Go's unsigned arithmetic keeps the low 64 bits of the true result. */
  function Wrap64(n: int): uint64 {
    if 0 <= n <= 0xFFFF_FFFF_FFFF_FFFF then n else n % 0x1_0000_0000_0000_0000
  }

  function Wrap32(n: int): uint32 {
    if 0 <= n <= 0xFFFF_FFFF then n else n % 0x1_0000_0000
  }

  /** Go's signed 64-bit arithmetic. */
  function Signed64(n: int): int {
    if -0x8000_0000_0000_0000 <= n <= 0x7FFF_FFFF_FFFF_FFFF then n
    else (n + 0x8000_0000_0000_0000) % 0x1_0000_0000_0000_0000 - 0x8000_0000_0000_0000
  }

  function Min(x: int, y: int): int {
    if x < y then x else y
  }

  /** Wrapping takes away whole multiples of the word size and nothing else. */
  lemma WrapsWholeWords(n: int)
    ensures (n - Wrap64(n)) % 0x1_0000_0000_0000_0000 == 0
    ensures (n - Wrap32(n)) % 0x1_0000_0000 == 0
    ensures (n - Signed64(n)) % 0x1_0000_0000_0000_0000 == 0
    ensures -0x8000_0000_0000_0000 <= Signed64(n) <= MAX_INT64
  {
  }
}
