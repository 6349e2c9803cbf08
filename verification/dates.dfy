/**
 * Calendar arithmetic on instants (milliseconds since the epoch), in UTC.
 */
module Dates {

  const MsPerDay: int := 86_400_000

  /** Midnight at the start of the day containing `now` (`setHours(0, 0, 0, 0)`). */
  function StartOfDay(now: int): (m: int)
    ensures m <= now < m + MsPerDay
    ensures m % MsPerDay == 0
  {
    now - now % MsPerDay
  }
}
