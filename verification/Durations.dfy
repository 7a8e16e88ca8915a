/** time.Duration, in nanoseconds. */
module Durations {
  const SECOND: int := 1_000_000_000

  /** time.Duration.Round to the second, for non-negative durations. */
  function RoundToSecond(d: int): int {
    var r := d % SECOND;
    if r + r < SECOND then d - r else d + SECOND - r
  }

  /** Rounding yields whole seconds and moves a duration by half a second at most. */
  lemma RoundsToSeconds(d: int)
    ensures RoundToSecond(d) % SECOND == 0
    ensures d - SECOND / 2 <= RoundToSecond(d) <= d + SECOND / 2
  {
  }
}
