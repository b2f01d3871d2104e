/**
 * The request throttle: before each throttled call the scraper sleeps until
 * `Delay` has passed since the time stamped after the previous call returned.
 * Times and durations are integer nanoseconds; `None` stands for Go's zero
 * `time.Time`, the value before any request has been made.
 */
module Throttle {
  import opened Wrappers

  /** `Delay` set by `NewScraper`: 30 seconds. */
  const DefaultDelay := 30_000_000_000
  /** `Timeout` set by `NewScraper`: 10 seconds (read by no code of this model). */
  const DefaultTimeout := 10_000_000_000

  /**
   * How long the throttle sleeps when asked at `now`: never on the first
   * request; afterwards just long enough that `delay` has passed since
   * `lastRequest`, and not at all if it already has.
   */
  function Wait(lastRequest: Option<int>, now: int, delay: int): (wait: nat)
    ensures lastRequest == None ==> wait == 0
    ensures lastRequest.Some? ==> now + wait >= lastRequest.value + delay
    ensures wait > 0 ==> lastRequest.Some? && now + wait == lastRequest.value + delay
  {
    match lastRequest
    case None => 0
    case Some(last) =>
      var delta := delay - (now - last);
      if delta > 0 then delta else 0
  }

  /**
   * Two throttled calls in a row: the second one is issued at least `delay`
   * after the first, whatever the two clock readings, because the stamp
   * taken when the first call returns is never earlier than its issue time.
   */
  lemma ConsecutiveCallsSpaced(lastRequest: Option<int>, now1: int, latency1: nat, now2: int, delay: int)
    ensures var issued1 := now1 + Wait(lastRequest, now1, delay);
            var issued2 := now2 + Wait(Some(issued1 + latency1), now2, delay);
            issued2 >= issued1 + delay
  {
  }
}
