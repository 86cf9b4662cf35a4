/** The decision returned for one check: allowed or not, the limit, what is
    left, when the bucket resets (epoch seconds), and the optional
    identifier and reason that the policy fills in. */
module RateLimiterResponse {
  import opened Wrappers

  datatype Response = Response(
    allowed: bool,
    limit: int,
    remaining: int,
    resetAt: int,
    identifier: Option<string>,
    reason: Option<string>)

  /** The `allowed(limit, remaining, resetAt)` builder. */
  function Allowed(limit: int, remaining: int, resetAt: int): (r: Response)
    ensures r.allowed
    ensures r.limit == limit && r.remaining == remaining && r.resetAt == resetAt
    ensures r.identifier.None? && r.reason.None?
  {
    Response(true, limit, remaining, resetAt, None, None)
  }

  /** The `blocked(limit, resetAt, reason)` builder: nothing remains. */
  function Blocked(limit: int, resetAt: int, reason: string): (r: Response)
    ensures !r.allowed
    ensures r.limit == limit && r.remaining == 0 && r.resetAt == resetAt
    ensures r.reason == Some(reason) && r.identifier.None?
  {
    Response(false, limit, 0, resetAt, None, Some(reason))
  }

  /** Seconds a blocked caller should wait, measured from `now` (the clock
      reading the source takes itself): max(0, resetAt - now). It is the
      least non-negative wait that reaches resetAt. */
  function RetryAfterSeconds(r: Response, now: int): (secs: int)
    ensures secs >= 0
    ensures now + secs >= r.resetAt
    ensures secs == 0 || now + secs == r.resetAt
  {
    if r.resetAt - now > 0 then r.resetAt - now else 0
  }

  /** Once the clock has reached resetAt, no wait is reported; before
      that, the wait shrinks second by second. */
  lemma RetryAfterCountsDown(r: Response, now: int)
    ensures now >= r.resetAt ==> RetryAfterSeconds(r, now) == 0
    ensures now < r.resetAt ==> RetryAfterSeconds(r, now + 1) == RetryAfterSeconds(r, now) - 1
  {
  }
}
