/**
 Wall-clock time: integer nanoseconds since the epoch, with the floor to whole seconds that Go's
 `time.Time.Unix` and SQLite's `datetime('now')` perform. Every bound of the login protocol
 depends on which side of a second an instant falls, so the truncation is kept.
 */
module Time {
  const SECOND := 1_000_000_000
  const MINUTE := 60 * SECOND
  const HOUR := 3600 * SECOND
  const DAY := 24 * HOUR

  function Unix(t: int): int {
    t / SECOND
  }

  /** The second that has begun but not ended. */
  lemma UnixIsTheFloor(t: int)
    ensures Unix(t) * 1_000_000_000 <= t < (Unix(t) + 1) * 1_000_000_000
  {
  }

  predicate WholeSeconds(d: int) {
    d % SECOND == 0
  }
}
