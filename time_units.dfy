/** The units of time the dashboard converts between. Instants are epoch
    milliseconds, as `Date.getTime()` and dayjs yield them. */
module TimeUnits {
  const MillisPerSecond: int := 1000
  const SecondsPerMinute: int := 60
  const MillisPerMinute: int := 60000
  const MinutesPerHour: int := 60
  const MinutesPerDay: int := 1440
  const MillisPerDay: int := 86400000
}
