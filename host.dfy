/**
 * The vocabulary of the Soroban host that the contract is written against:
 * Rust's `u32`, the bytes of a Soroban `String`, `Address`, `Symbol` and `Option`.
 */
module Host {

  /** Rust's `u32`: the type of both counters and of the character limit. */
  newtype u32 = x: int | 0 <= x < 0x1_0000_0000

  const U32_MAX: u32 := 0xFFFF_FFFF

  /** One byte of a Soroban `String`; `String::len` counts these bytes, not characters. */
  newtype byte = b: int | 0 <= b < 0x100

  /** An account or contract address: an opaque handle that is only compared for equality. */
  datatype Address = Address(id: nat)

  /** A Soroban `Symbol`, a short identifier returned to the caller. */
  datatype Symbol = Symbol(name: string)

  datatype Option<T> = None | Some(value: T) {

    /** Rust's `Option::unwrap_or`. */
    function UnwrapOr(default: T): T {
      match this
      case Some(v) => v
      case None => default
    }
  }
}
