/** The token bucket script, command by command. */
module TokenBucketScript {
  import opened Prelude
  import opened Config
  import opened RedisDb
  import opened Limits

  method Eval(redis: Redis, key: string, cfg: Policy, now: nat) returns (reply: Reply)
    requires cfg.TokenBucket?
    requires Sound(At(redis.limits, key))
    modifies redis`limits
    ensures OnlyTouched(old(redis.limits), redis.limits, key)
    ensures Sound(At(redis.limits, key))
    ensures (Recall(At(redis.limits, key)), reply) == TokenCheck(cfg, Recall(old(At(redis.limits, key))), now)
  {
    var ttl := CeilDiv(cfg.capacity * cfg.period, cfg.rate * 1000) + 60;
    var stored := redis.HGetAll(key).configHash;

    if stored.Some? && stored.value != cfg {
      redis.Save(key, redis.HGetAll(key).(tokens := Some(cfg.capacity), lastRefill := Some(now), configHash := Some(cfg)),
                 ttl, now);
      if cfg.capacity >= 1 {
        redis.HSet(key, redis.HGetAll(key).(tokens := Some(cfg.capacity - 1)));
        return Reply(true, cfg.capacity - 1, 0);
      } else {
        return Reply(false, 0, cfg.period);
      }
    }

    var bucket := redis.HGetAll(key);
    var currentTokens, lastRefill := bucket.tokens, bucket.lastRefill;
    if currentTokens.None? || lastRefill.None? {
      currentTokens, lastRefill := Some(cfg.capacity), Some(now);
      redis.Save(key, redis.HGetAll(key).(tokens := currentTokens, lastRefill := lastRefill, configHash := Some(cfg)),
                 ttl, now);
    }

    var tokens, last := currentTokens.value, lastRefill.value;
    var elapsed := now - last;
    if elapsed > 0 {
      var periods := elapsed / cfg.period;
      if periods > 0 {
        tokens := Min(cfg.capacity, tokens + periods * cfg.rate);
        last := last + periods * cfg.period;
      }
    }

    if tokens >= 1 {
      tokens := tokens - 1;
      redis.Save(key, redis.HGetAll(key).(tokens := Some(tokens), lastRefill := Some(last), configHash := Some(cfg)),
                 ttl, now);
      reply := Reply(true, tokens, 0);
    } else {
      redis.Save(key, redis.HGetAll(key).(tokens := Some(tokens), lastRefill := Some(last), configHash := Some(cfg)),
                 ttl, now);
      reply := Reply(false, tokens, Max(0, last + cfg.period - now));
    }
  }
}
