/** How long a limiter key lives after a call, to the second. */
module Lifetime {
  import opened Prelude
  import opened Arithmetic
  import opened Config
  import opened Limits
  import opened Runs
  import opened BucketBound

  /**
   * A bucket key is kept, on every call, for the time a full refill takes, rounded up to seconds, and a minute. A window
   * key is kept on admission until its content is stale, rounded up to seconds, and a minute; a denial leaves its
   * expiry alone.
   */
  lemma {:induction false} KeyLifetime(e: Entry, c: Call)
    ensures
      var cfg, now, x := c.cfg, c.now, After(e, c).expiresAt;
      match cfg
      case TokenBucket(capacity, rate, period) => KeptFor(x, now, capacity * period, rate)
      case LeakyBucket(capacity, rate, period) => KeptFor(x, now, capacity * period, rate)
      case FixedWindow(_, window) =>
        if Answer(e, c).allowed then
          && x.Some? && After(e, c).state.Window?
          && KeptPast(x.value, now, After(e, c).state.start + window)
        else x == Settle(e, c).expiresAt
      case SlidingWindow(_, window) =>
        if Answer(e, c).allowed then x.Some? && KeptPast(x.value, now, now + window)
        else x == (if Replaces(Settle(e, c), cfg) then None else Settle(e, c).expiresAt)
  {
    match c.cfg
    case TokenBucket(_, _, _) => BucketLifetime(e, c);
    case LeakyBucket(_, _, _) => BucketLifetime(e, c);
    case FixedWindow(_, _) =>
    case SlidingWindow(_, _) =>
  }

  lemma BucketLifetime(e: Entry, c: Call)
    requires c.cfg.TokenBucket? || c.cfg.LeakyBucket?
    ensures KeptFor(After(e, c).expiresAt, c.now, c.cfg.capacity * c.cfg.period, c.cfg.rate)
  {
    var ttl := BucketTtl(c.cfg);
    TtlIsExact(c.cfg);
    assert After(e, c).expiresAt == Some(c.now + 1000 * ttl) by { hide CeilDiv, Min; }
    hide After, BucketTtl;
    assert 1000 * ttl % 1000 == 0 by { MultipleHasNoRemainder(ttl, 1000); }
    assert 1000 * ttl - 60000 == 1000 * (ttl - 60) && 1000 * ttl - 61000 == 1000 * (ttl - 61);
  }

  /** Whole seconds from `now`: at least a minute more than `work / rate` milliseconds, and less than 61 s more. */
  predicate KeptFor(x: Option<int>, now: int, work: int, rate: int) {
    && x.Some? && (x.value - now) % 1000 == 0
    && (x.value - now - 61000) * rate < work <= (x.value - now - 60000) * rate
  }

  /** Whole seconds from `now`: at least a minute past `stale`, and less than 61 s past it. */
  predicate KeptPast(x: int, now: int, stale: int) {
    (x - now) % 1000 == 0 && stale + 60000 <= x < stale + 61000
  }

  /** The key holds the state of another configuration. */
  predicate Replaces(e: Entry, cfg: Policy) {
    !e.state.Fresh? && e.state.cfg != cfg
  }
}
