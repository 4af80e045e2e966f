/** Result types and machine-word constants shared by every module of the model. */
module Prelude {

  datatype Option<+T> = None | Some(value: T)

  datatype Result<+T, +E> = Ok(value: T) | Err(error: E) {
    predicate IsFailure() { Err? }

    function PropagateFailure<U>(): Result<U, E>
      requires Err?
    {
      Err(error)
    }

    function Extract(): T
      requires Ok?
    {
      value
    }
  }

  /** Number of values of Rust's `u16`, `u32` and (64-bit) `usize`. */
  const U16: nat := 0x1_0000
  const U32: nat := 0x1_0000_0000
  const USIZE: nat := 0x1_0000_0000_0000_0000

  /** `NonZeroU16`, the type of packet identifiers and topic aliases. */
  type NonZeroU16 = n: nat | 0 < n < U16 witness 1

  /** `a - b` on `u32` as an optimised build computes it: modulo 2^32. */
  function WrapSub32(a: int, b: int): (r: nat)
  {
    (a - b) % U32
  }
}
