/** Instants and the 64-bit durations between them. */
module Clock {
  /** Nanoseconds after the zero time of the clock library, midnight of 1 January of the year 1. */
  type Instant = int

  const ZERO_TIME: Instant := 0
  const SECOND: int := 1_000_000_000
  const MINUTE: int := 60 * SECOND
  const UNIX_EPOCH: Instant := 62_135_596_800 * SECOND

  const MIN_DURATION: int := -0x8000_0000_0000_0000
  const MAX_DURATION: int := 0x7fff_ffff_ffff_ffff
  type Duration = d: int | MIN_DURATION <= d <= MAX_DURATION

  /** Two's complement negation: the least duration is its own negative. */
  function Negate(d: Duration): Duration {
    if d == MIN_DURATION then d else -d
  }

  /** The duration from `b` to `a`, saturating at the ends of the range. */
  function Until(a: Instant, b: Instant): Duration {
    if a - b < MIN_DURATION then MIN_DURATION
    else if a - b > MAX_DURATION then MAX_DURATION
    else a - b
  }

  /** What remains of an instant once it is serialized: whole seconds. */
  function Truncate(t: Instant): (r: Instant)
    ensures r <= t < r + SECOND && r % SECOND == 0
  {
    t - t % SECOND
  }

  lemma TruncateWhole(t: Instant, whole: Instant)
    requires whole % SECOND == 0
    ensures whole <= t <==> whole <= Truncate(t)
  {
    if whole <= t {
      assert t / SECOND >= whole / SECOND;
    }
  }
}
