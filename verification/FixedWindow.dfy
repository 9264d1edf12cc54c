/** The fixed window script, command by command. */
module FixedWindowScript {
  import opened Prelude
  import opened Config
  import opened RedisDb
  import opened Limits

  /** Config check, rollover and initialisation: the hash now holds the window that counts for `now`. */
  method OpenWindow(redis: Redis, key: string, cfg: Policy, now: nat) returns (count: int, start: int)
    requires cfg.FixedWindow?
    requires Sound(At(redis.limits, key))
    modifies redis`limits
    ensures OnlyTouched(old(redis.limits), redis.limits, key)
    ensures At(redis.limits, key).Present? && Sound(At(redis.limits, key))
    ensures Recall(At(redis.limits, key))
            == Entry(Window(cfg, count, start), Recall(old(At(redis.limits, key))).expiresAt)
    ensures (count, start) == CurrentWindow(cfg, Recall(old(At(redis.limits, key))), now)
  {
    var windowStart := WindowStart(now, cfg.window);
    var bucket := redis.HGetAll(key);
    count, start := OrZero(bucket.count), OrZero(bucket.windowStart);
    var stored := bucket.configHash;

    if stored.Some? && stored.value != cfg {
      count, start := 0, windowStart;
      redis.HSet(key, redis.HGetAll(key).(count := Some(0), windowStart := Some(windowStart), configHash := Some(cfg)));
    }

    if start < windowStart {
      count, start := 0, windowStart;
      redis.HSet(key, redis.HGetAll(key).(count := Some(0), windowStart := Some(windowStart), configHash := Some(cfg)));
    }

    if start == 0 {
      start := windowStart;
      redis.HSet(key, redis.HGetAll(key).(windowStart := Some(windowStart)));
      if stored.None? {
        redis.HSet(key, redis.HGetAll(key).(configHash := Some(cfg)));
      }
    }
  }

  method Eval(redis: Redis, key: string, cfg: Policy, now: nat) returns (reply: Reply)
    requires cfg.FixedWindow?
    requires Sound(At(redis.limits, key))
    modifies redis`limits
    ensures OnlyTouched(old(redis.limits), redis.limits, key)
    ensures Sound(At(redis.limits, key))
    ensures (Recall(At(redis.limits, key)), reply) == FixedCheck(cfg, Recall(old(At(redis.limits, key))), now)
  {
    var count, start := OpenWindow(redis, key, cfg, now);
    var end := start + cfg.window;
    if count < cfg.limit {
      var newCount := OrZero(redis.HGetAll(key).count) + 1;
      redis.HSet(key, redis.HGetAll(key).(count := Some(newCount)));
      redis.Expire(key, CeilDiv(end - now, 1000) + 60, now);
      reply := Reply(true, cfg.limit - newCount, 0);
    } else {
      reply := Reply(false, 0, Max(0, end - now));
    }
  }
}
