/** Instants: the values of PHP `new \DateTime()` and JavaScript `new Date()`. */
module Clock {

  /** Seconds on the server's local time line. */
  type Instant = int

  const SecondsPerDay: int := 86400

  /** The calendar day of an instant, the model of `format('Y-m-d')`. */
  function DayOf(t: Instant): int {
    t / SecondsPerDay
  }

  /** Later instants never fall on an earlier day, so comparing days agrees with
      comparing the `Y-m-d` strings. */
  lemma DayOfMonotone(a: Instant, b: Instant)
    requires a <= b
    ensures DayOf(a) <= DayOf(b)
  {
  }
}
