/** What each limiter script remembers about a key and how one call changes it: the specification of the scripts. */
module Limits {
  import opened Prelude
  import opened Config
  import opened RedisDb
  import opened Sums

  datatype Reply = Reply(allowed: bool, remaining: int, retryAfter: int)

  datatype State =
    | Fresh
    | Tokens(cfg: Algorithm, tokens: int, last: int)
    | Level(cfg: Algorithm, level: int, last: int)
    | Window(cfg: Algorithm, count: int, start: int)
    | Histogram(cfg: Algorithm, counts: map<int, int>)
  {
    predicate Matches() {
      match this
      case Fresh => true
      case Tokens(cfg, _, _) => cfg.TokenBucket?
      case Level(cfg, _, _) => cfg.LeakyBucket?
      case Window(cfg, _, _) => cfg.FixedWindow?
      case Histogram(cfg, _) => cfg.SlidingWindow?
    }
  }

  datatype Entry = Entry(state: State, expiresAt: Option<int>)

  const BLANK := Entry(Fresh, None)

  function OrZero(o: Option<int>): int { if o.Some? then o.value else 0 }

  /** The fields that belong to the stored configuration are there. */
  predicate Sound(slot: Slot<Fields>) {
    slot.Present? ==>
      var h := slot.hash;
      && h.configHash.Some?
      && h.configHash.value.Runnable()
      && match h.configHash.value {
           case TokenBucket(_, _, _) => h.tokens.Some? && h.lastRefill.Some?
           case LeakyBucket(_, _, _) => h.level.Some? && h.lastLeak.Some?
           case FixedWindow(_, _) => h.windowStart.Some?
           case SlidingWindow(_, _) => true
         }
  }

  /** Forgets every field that does not belong to the stored configuration. */
  function Recall(slot: Slot<Fields>): Entry
    requires Sound(slot)
  {
    match slot
    case Absent => BLANK
    case Present(h, e) =>
      var cfg := h.configHash.value;
      match cfg
      case TokenBucket(_, _, _) => Entry(Tokens(cfg, h.tokens.value, h.lastRefill.value), e)
      case LeakyBucket(_, _, _) => Entry(Level(cfg, h.level.value, h.lastLeak.value), e)
      case FixedWindow(_, _) => Entry(Window(cfg, OrZero(h.count), h.windowStart.value), e)
      case SlidingWindow(_, _) => Entry(Histogram(cfg, h.buckets), e)
  }

  // ----- token bucket -----

  /** Whole periods only; the remainder stays between `last` and `now`. */
  function Periods(last: int, now: int, period: int): (k: int)
    requires period >= 1
    ensures k >= 0
  {
    if now > last then (now - last) / period else 0
  }

  function BucketTtl(cfg: Policy): int
    requires cfg.TokenBucket? || cfg.LeakyBucket?
  {
    CeilDiv(cfg.capacity * cfg.period, cfg.rate * 1000) + 60
  }

  /** Tokens in the bucket at `now` and the instant up to which refills have been paid out. */
  function Refilled(cfg: Policy, e: Entry, now: nat): (int, int)
    requires cfg.TokenBucket?
  {
    if e.state.Tokens? && e.state.cfg == cfg then
      var k := Periods(e.state.last, now, cfg.period);
      (if k == 0 then e.state.tokens else Min(cfg.capacity, e.state.tokens + k * cfg.rate),
       e.state.last + k * cfg.period)
    else (cfg.capacity, now)
  }

  function TokenCheck(cfg: Policy, e: Entry, now: nat): (Entry, Reply)
    requires cfg.TokenBucket?
  {
    var (tokens, last) := Refilled(cfg, e, now);
    var expiry := Some(now + 1000 * BucketTtl(cfg));
    if tokens >= 1 then
      (Entry(Tokens(cfg, tokens - 1, last), expiry), Reply(true, tokens - 1, 0))
    else
      (Entry(Tokens(cfg, tokens, last), expiry), Reply(false, tokens, Max(0, last + cfg.period - now)))
  }

  // ----- leaky bucket -----

  /** Level of the bucket at `now` and the instant up to which leaks have been taken out. */
  function Leaked(cfg: Policy, e: Entry, now: nat): (int, int)
    requires cfg.LeakyBucket?
  {
    if e.state.Level? && e.state.cfg == cfg then
      var k := Periods(e.state.last, now, cfg.period);
      (if k == 0 then e.state.level else Max(0, e.state.level - k * cfg.rate),
       e.state.last + k * cfg.period)
    else (0, now)
  }

  function LeakyCheck(cfg: Policy, e: Entry, now: nat): (Entry, Reply)
    requires cfg.LeakyBucket?
  {
    var expiry := Some(now + 1000 * BucketTtl(cfg));
    if !e.state.Fresh? && e.state.cfg != cfg then
      // a configuration change admits without looking at the capacity
      (Entry(Level(cfg, 1, now), expiry), Reply(true, cfg.capacity - 1, 0))
    else
      var (level, last) := Leaked(cfg, e, now);
      if level < cfg.capacity then
        (Entry(Level(cfg, level + 1, last), expiry), Reply(true, cfg.capacity - (level + 1), 0))
      else
        (Entry(Level(cfg, level, last), expiry), Reply(false, 0, Max(0, last + cfg.period - now)))
  }

  // ----- fixed window -----

  function WindowStart(now: nat, window: int): int
    requires window >= 1
  {
    now / window * window
  }

  /** The count and start of the window that `now` is charged to; a clock that ran backwards keeps the later window. */
  function CurrentWindow(cfg: Policy, e: Entry, now: nat): (int, int)
    requires cfg.FixedWindow?
  {
    var begin := WindowStart(now, cfg.window);
    if e.state.Window? && e.state.cfg == cfg && e.state.start >= begin
    then (e.state.count, e.state.start)
    else (0, begin)
  }

  function FixedCheck(cfg: Policy, e: Entry, now: nat): (Entry, Reply)
    requires cfg.FixedWindow?
  {
    var (count, start) := CurrentWindow(cfg, e, now);
    var end := start + cfg.window;
    if count < cfg.limit then
      (Entry(Window(cfg, count + 1, start), Some(now + 1000 * (CeilDiv(end - now, 1000) + 60))),
       Reply(true, cfg.limit - (count + 1), 0))
    else
      (Entry(Window(cfg, count, start), e.expiresAt), Reply(false, 0, Max(0, end - now)))
  }

  // ----- sliding window -----

  function Bucket(t: int): int { t / 1000 * 1000 }

  /** `t` is the least of `now` and the keys of `m`. */
  ghost predicate IsOldest(m: map<int, int>, now: int, t: int) {
    && t <= now
    && (t == now || t in m)
    && forall b | b in m :: t <= b
  }

  lemma OldestExists(m: map<int, int>, now: int)
    ensures exists t :: IsOldest(m, now, t)
    decreases |m|
  {
    if m == map[] {
      assert IsOldest(m, now, now);
    } else {
      var k := Pick(m.Keys);
      OldestExists(m - {k}, now);
      var t :| IsOldest(m - {k}, now, t);
      assert forall b | b in m :: b == k || b in m - {k};
      assert IsOldest(m, now, if k < t then k else t);
    }
  }

  ghost function Oldest(m: map<int, int>, now: int): (t: int)
    ensures IsOldest(m, now, t)
  {
    OldestExists(m, now);
    var t :| IsOldest(m, now, t);
    t
  }

  ghost function SlidingCheck(cfg: Policy, e: Entry, now: nat): (Entry, Reply)
    requires cfg.SlidingWindow?
  {
    var counts := if e.state.Histogram? && e.state.cfg == cfg then e.state.counts else map[];
    var changed := !e.state.Fresh? && e.state.cfg != cfg;
    var kept := Recent(counts, now - cfg.window);
    var total := Total(kept);
    if total < cfg.limit then
      (Entry(Histogram(cfg, Bump(kept, Bucket(now))), Some(now + 1000 * (CeilDiv(cfg.window, 1000) + 60))),
       Reply(true, Max(0, cfg.limit - total - 1), 0))
    else
      (Entry(Histogram(cfg, kept), if changed then None else e.expiresAt),
       Reply(false, 0, Max(0, Oldest(kept, now) + cfg.window - now)))
  }

  // ----- dispatch -----

  ghost function Check(cfg: Policy, e: Entry, now: nat): (Entry, Reply)
  {
    match cfg
    case TokenBucket(_, _, _) => TokenCheck(cfg, e, now)
    case LeakyBucket(_, _, _) => LeakyCheck(cfg, e, now)
    case FixedWindow(_, _) => FixedCheck(cfg, e, now)
    case SlidingWindow(_, _) => SlidingCheck(cfg, e, now)
  }
}
