/**
  The limiter of the resend-password-reset-email route: at most three
  resends per e-mail address per hour, in its own in-memory map.
 */
module ResetRateLimit {
  import ApiMiddleware

  const MaxAttempts: nat := 3
  const HourMs: nat := 60 * 60 * 1000

  datatype ResetDecision = ResetDecision(allowed: bool, remainingAttempts: int, resetAt: int)

  /** The route's `checkRateLimit(email)`. */
  function CheckResetLimit(limits: ApiMiddleware.Limits, email: string, now: int): (r: (ResetDecision, ApiMiddleware.Limits))
    ensures var (d, after) := r;
      ApiMiddleware.OpensWindow(limits, email, now) ==>
        d == ResetDecision(true, 2, now + 3600000) && after == limits[email := ApiMiddleware.Window(1, now + 3600000)]
    ensures var (d, after) := r;
      !ApiMiddleware.OpensWindow(limits, email, now) && limits[email].count >= 3 ==>
        d == ResetDecision(false, 0, limits[email].resetTime) && after == limits
    ensures var (d, after) := r;
      d.allowed ==> email in after && d.remainingAttempts == 3 - after[email].count
  {
    if email !in limits || now > limits[email].resetTime then
      (ResetDecision(true, 2, now + HourMs), limits[email := ApiMiddleware.Window(1, now + HourMs)])
    else if limits[email].count >= 3 then
      (ResetDecision(false, 0, limits[email].resetTime), limits)
    else
      var w := ApiMiddleware.Window(limits[email].count + 1, limits[email].resetTime);
      (ResetDecision(true, 3 - w.count, w.resetTime), limits[email := w])
  }

  /** The route's limiter is the general fixed-window limiter with three requests per hour. */
  lemma ResetIsGeneralLimiter(limits: ApiMiddleware.Limits, email: string, now: int)
    ensures var (d, after) := CheckResetLimit(limits, email, now);
      var (g, gAfter) := ApiMiddleware.CheckRateLimit(limits, email, ApiMiddleware.RateLimitOptions(MaxAttempts, HourMs), now);
      after == gAfter && d == ResetDecision(g.allowed, g.remaining, g.resetTime)
  {
  }

  /** At most three resends per address are allowed within one hour-long window. */
  lemma AtMostThreePerHour(limits: ApiMiddleware.Limits, email: string, times: seq<int>)
    requires |times| > 0 && ApiMiddleware.OpensWindow(limits, email, times[0])
    requires forall i :: 0 <= i < |times| ==> times[i] <= times[0] + HourMs
    ensures ApiMiddleware.Replay(limits, email, ApiMiddleware.RateLimitOptions(MaxAttempts, HourMs), times).0
      == ApiMiddleware.Min(|times|, 3)
  {
    ApiMiddleware.AtMostMaxPerWindow(limits, email, ApiMiddleware.RateLimitOptions(MaxAttempts, HourMs), times);
  }
}
