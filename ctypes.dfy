/** C-level vocabulary shared by the sampler model: the fixed-width unsigned
    integer types the source computes with, their wrap-around, optional values
    standing for nullable pointers, and the pair of values a function writes
    through two out-pointers. */
module CTypes {

  const TWO_8: nat := 0x100
  const TWO_16: nat := 0x1_0000
  const TWO_32: nat := 0x1_0000_0000
  const TWO_64: nat := 0x1_0000_0000_0000_0000

  type u8 = x: nat | x < 0x100
  type u16 = x: nat | x < 0x1_0000
  type u32 = x: nat | x < 0x1_0000_0000
  /** `unsigned long long` (and the 64-bit `fsblkcnt_t`, `unsigned long`). */
  type u64 = x: nat | x < 0x1_0000_0000_0000_0000

  /** Result of an `unsigned long long` operation: reduced modulo 2^64. */
  function Wrap64(x: int): (r: u64)
    ensures 0 <= x < TWO_64 ==> r == x
    ensures (r - x) % TWO_64 == 0
  {
    x % TWO_64
  }

  /** The cast `(uint16_t)x`: keeps the low 16 bits. */
  function NarrowU16(x: nat): (r: u16)
    ensures x < TWO_16 ==> r == x
    ensures (x - r) % TWO_16 == 0
  {
    x % TWO_16
  }

  /** The cast `(uint32_t)x`: keeps the low 32 bits. */
  function NarrowU32(x: nat): (r: u32)
    ensures x < TWO_32 ==> r == x
    ensures (x - r) % TWO_32 == 0
  {
    x % TWO_32
  }

  /** A value that may be missing; `None` stands for a NULL pointer. */
  datatype Option<T> = None | Some(value: T)

  /** An out-pointer argument: NULL or pointing at storage. */
  datatype Ptr = Null | NonNull

  /** What a function with two out-pointers left in them: nothing at all, or a
      value in each. */
  datatype OutPair<T> = NothingWritten | Wrote(first: T, second: T)
}
