/** The leaky bucket script, command by command. */
module LeakyBucketScript {
  import opened Prelude
  import opened Config
  import opened RedisDb
  import opened Limits

  method Eval(redis: Redis, key: string, cfg: Policy, now: nat) returns (reply: Reply)
    requires cfg.LeakyBucket?
    requires Sound(At(redis.limits, key))
    modifies redis`limits
    ensures OnlyTouched(old(redis.limits), redis.limits, key)
    ensures Sound(At(redis.limits, key))
    ensures (Recall(At(redis.limits, key)), reply) == LeakyCheck(cfg, Recall(old(At(redis.limits, key))), now)
  {
    var ttl := CeilDiv(cfg.capacity * cfg.period, cfg.rate * 1000) + 60;
    var stored := redis.HGetAll(key).configHash;

    if stored.Some? && stored.value != cfg {
      redis.Save(key, redis.HGetAll(key).(level := Some(1), lastLeak := Some(now), configHash := Some(cfg)),
                 ttl, now);
      return Reply(true, cfg.capacity - 1, 0);
    }

    var bucket := redis.HGetAll(key);
    var currentLevel, lastLeak := bucket.level, bucket.lastLeak;
    if currentLevel.None? || lastLeak.None? {
      currentLevel, lastLeak := Some(0), Some(now);
      redis.Save(key, redis.HGetAll(key).(level := currentLevel, lastLeak := lastLeak, configHash := Some(cfg)),
                 ttl, now);
    }

    var level, last := currentLevel.value, lastLeak.value;
    var elapsed := now - last;
    if elapsed > 0 {
      var periods := elapsed / cfg.period;
      if periods > 0 {
        level := Max(0, level - periods * cfg.rate);
        last := last + periods * cfg.period;
      }
    }

    if level < cfg.capacity {
      level := level + 1;
      redis.Save(key, redis.HGetAll(key).(level := Some(level), lastLeak := Some(last), configHash := Some(cfg)),
                 ttl, now);
      reply := Reply(true, cfg.capacity - level, 0);
    } else {
      redis.Save(key, redis.HGetAll(key).(level := Some(level), lastLeak := Some(last), configHash := Some(cfg)),
                 ttl, now);
      reply := Reply(false, 0, Max(0, last + cfg.period - now));
    }
  }
}
