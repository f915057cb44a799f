/** Result shapes and machine counters shared by the other modules. */
module Wrappers {
  datatype Option<+T> = None | Some(value: T)

  datatype Result<+T, +E> = Success(value: T) | Failure(error: E)

  /** Width of the shared atomic counters, which wrap around. */
  const U64: nat := 0x1_0000_0000_0000_0000

  type u64 = x: nat | x < U64

  function Inc(x: u64): u64 { (x + 1) % U64 }

  function Dec(x: u64): u64 { (x + U64 - 1) % U64 }

  const U32: nat := 0x1_0000_0000

  type byte = x: int | 0 <= x < 256

  /** Clock readings are in nanoseconds. */
  const SECOND: nat := 1_000_000_000

  /** Whole seconds from `start` to `now`; the clock subtraction saturates at zero. */
  function WholeSeconds(start: nat, now: nat): nat {
    if now >= start then (now - start) / SECOND else 0
  }
}
