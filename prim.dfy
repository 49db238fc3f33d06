/** Rust primitive types used by the vault program and its backend, and the
    checked u64 arithmetic (`checked_add`, `checked_sub`) every balance update
    goes through. Integers are unbounded in Dafny; the u64 range is a subset type. */
module Prim {

  datatype Option<+T> = None | Some(value: T)

  datatype Result<+T, +E> = Ok(value: T) | Err(error: E)

  /** 2^64: the first value a u64 cannot hold. */
  const TWO_TO_THE_64: int := 0x1_0000_0000_0000_0000

  type Byte = x: int | 0 <= x < 256

  /** Rust `u8` (the PDA bump seeds). */
  type U8 = Byte

  /** Rust `u64`: every balance, counter and amount. */
  type U64 = x: int | 0 <= x < TWO_TO_THE_64

  /** Rust `i64`: the Unix timestamps taken from the clock sysvar. */
  type I64 = x: int | -0x8000_0000_0000_0000 <= x < 0x8000_0000_0000_0000

  /** A Solana public key: 32 opaque bytes. Program-derived addresses are also
      just keys here; how they are derived is not part of this model. */
  type Pubkey = s: seq<Byte> | |s| == 32 witness seq(32, _ => 0)

  /** `u64::checked_add`: `None` exactly when the sum does not fit in 64 bits. */
  function CheckedAdd(a: U64, b: U64): (r: Option<U64>)
    ensures r.Some? <==> a + b < TWO_TO_THE_64
    ensures r.Some? ==> r.value == a + b
  {
    if a + b < TWO_TO_THE_64 then Some(a + b) else None
  }

  /** `u64::checked_sub`: `None` exactly when the difference would be negative. */
  function CheckedSub(a: U64, b: U64): (r: Option<U64>)
    ensures r.Some? <==> b <= a
    ensures r.Some? ==> r.value == a - b
  {
    if b <= a then Some(a - b) else None
  }
}
