/** What a contract invocation can produce, as seen from the host that runs it.
    A contract function either returns a value or aborts (a Rust panic, or a
    failed `require_auth`); an abort rolls back every storage write and event
    of the invocation. */
module Host {

  /** The `Result<T, E>` a contract function returns to its caller. */
  datatype Result<+T, +E> = Ok(value: T) | Err(error: E)

  /** Why an invocation aborted. */
  datatype Abort =
    | AuthFailed   // `require_auth` rejected the invocation
    | Overflow     // a checked `u32` addition overflowed and panicked

  /** The outcome of one invocation: the function returned, or it aborted. */
  datatype Call<+T> = Returned(value: T) | Aborted(reason: Abort)
}
