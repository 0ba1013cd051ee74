/** The parts of Go's time package the models need: instants in nanoseconds counted from
    the zero time (1 January of year 1), and durations in nanoseconds. */
module GoTime {

  const SECOND := 1_000_000_000
  const MINUTE := 60 * SECOND
  const DAY := 24 * 60 * MINUTE
  /** Seconds between the zero time and the Unix epoch. */
  const UNIX_EPOCH := 62_135_596_800
  const MAX_DURATION := 0x7FFF_FFFF_FFFF_FFFF

  type Instant = int
  type Duration = int

  const ZERO_TIME: Instant := 0

  /** Time.Sub saturates instead of wrapping around. */
  function Sub(t: Instant, u: Instant): Duration {
    if t - u > MAX_DURATION then MAX_DURATION
    else if t - u < -MAX_DURATION - 1 then -MAX_DURATION - 1
    else t - u
  }

  /** Time.Unix rounds down to a whole second. */
  function Unix(t: Instant): int {
    t / SECOND - UNIX_EPOCH
  }

  /** The difference of two instants is exact if it fits into 64 bits, otherwise the nearest end,
      and always has the right sign. */
  lemma SubIsNearest(t: Instant, u: Instant, d: Duration)
    requires -0x8000_0000_0000_0000 <= d <= 0x7FFF_FFFF_FFFF_FFFF
    ensures -0x8000_0000_0000_0000 <= Sub(t, u) <= 0x7FFF_FFFF_FFFF_FFFF
    ensures if d <= t - u then d <= Sub(t, u) <= t - u else t - u <= Sub(t, u) <= d
    ensures Sub(t, u) > 0 <==> t > u
  {
  }

  /** A Unix time stands for the second that begins with it. */
  lemma UnixIsSecond(t: Instant, n: int)
    ensures Unix(t) == n <==> (n + 62_135_596_800) * 1_000_000_000 <= t < (n + 62_135_596_801) * 1_000_000_000
  {
  }
}
