/** Unsigned 64-bit integers, and the two arithmetic operators the ledger uses.

    The ledger stores `u64` amounts. Dafny integers are unbounded, so the
    width is a subset type and every `+` / `-` the contract performs is
    written out: an operation whose mathematical result does not fit in 64
    bits panics under Rust's checked arithmetic, which is modelled as `None`. */
module Uint64 {
  import opened Wrappers

  const Modulus: nat := 0x1_0000_0000_0000_0000

  type U64 = x: nat | x < Modulus

  /** `a + b` on `u64`: `None` is the overflow panic. */
  function CheckedAdd(a: U64, b: U64): (r: Option<U64>)
    ensures r.Some? <==> a + b < Modulus
    ensures r.Some? ==> r.value - b == a
  {
    if a + b < Modulus then Some(a + b) else None
  }

  /** `a - b` on `u64`: `None` is the underflow panic, never a wrap-around. */
  function CheckedSub(a: U64, b: U64): (r: Option<U64>)
    ensures r.Some? <==> b <= a
    ensures r.Some? ==> r.value + b == a
  {
    if b <= a then Some(a - b) else None
  }
}
