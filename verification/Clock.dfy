/** Times are nanoseconds; the sources configure timeouts in milliseconds. */
module Clock {
  const NANOS := 1_000_000
}
