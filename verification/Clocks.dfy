/** Instants and durations: Go's time.Time and time.Duration, in nanoseconds. */
module Clocks {
  type Time = int
  type Duration = int

  const NANOS_PER_SECOND: real := 1000000000.0

  function Seconds(d: Duration): (r: real) {
    d as real / NANOS_PER_SECOND
  }
}
