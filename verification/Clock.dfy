/** Time is a count of milliseconds since the epoch. */
module Clock {
  const SECOND: int := 1000
  const DAY: int := 86400 * SECOND
}
