/** Durations and instants as integer nanoseconds, the unit of Go's time.Duration. */
module GoTime {
  const Millisecond: int := 1_000_000
  const Second: int := 1_000_000_000
}
