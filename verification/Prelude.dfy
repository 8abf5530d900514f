/** Definitions shared by every module. */
module Prelude {
  datatype Option<+T> = None | Some(value: T)

  /** Instants and durations, in nanoseconds; instants are unbounded integers. */
  type Time = int
  type Duration = int

  const SECOND: Duration := 1_000_000_000
  const MINUTE: Duration := 60 * SECOND

  /** A positive duration as sent on the wire: whole seconds, rounded down. */
  function WholeSeconds(d: Duration): int {
    d / SECOND
  }

  function Min(x: real, y: real): real {
    if x <= y then x else y
  }
}
