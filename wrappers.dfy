/** Rust's Option and Result, the unit type and the fixed-width integers, as the rest of the model uses them. */
module Wrappers {

  datatype Option<+T> = None | Some(value: T)

  /** `Result<T, E>` with Rust's constructor names. */
  datatype Result<+T, +E> = Ok(value: T) | Err(error: E)

  /** The unit type `()`. */
  datatype Unit = Unit

  type I16 = x: int | -0x8000 <= x < 0x8000
  type U16 = x: int | 0 <= x < 0x1_0000
  type I32 = x: int | -0x8000_0000 <= x < 0x8000_0000
  type U32 = x: int | 0 <= x < 0x1_0000_0000
  type U64 = x: int | 0 <= x < 0x1_0000_0000_0000_0000

  /** The panic message of `Option::unwrap` on `None`. */
  const OPTION_UNWRAP_PANIC: string := "called `Option::unwrap()` on a `None` value"
  /** The panic message of `Result::unwrap` on `Err`. */
  const RESULT_UNWRAP_PANIC: string := "called `Result::unwrap()` on an `Err` value"
}
