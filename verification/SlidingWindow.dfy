/** The sliding window script, command by command. */
module SlidingWindowScript {
  import opened Prelude
  import opened Config
  import opened RedisDb
  import opened Limits
  import opened Sums

  /**
   * HGETALL returns the fields in an order of Redis's choosing. Fields whose name is not a number are skipped,
   * so the loop ranges over the buckets alone.
   */
  method Scan(buckets: map<int, int>, windowStart: int, now: int)
    returns (total: int, oldest: int, stale: set<int>)
    ensures stale == set b | b in buckets && b < windowStart
    ensures buckets - stale == Recent(buckets, windowStart)
    ensures total == Total(Recent(buckets, windowStart))
    ensures IsOldest(Recent(buckets, windowStart), now, oldest)
  {
    total, oldest, stale := 0, now, {};
    var pending := buckets.Keys;
    ghost var seen: map<int, int> := map[];
    while pending != {}
      invariant pending <= buckets.Keys
      invariant stale == set b | b in buckets && b !in pending && b < windowStart
      invariant seen == map b | b in buckets && b !in pending && b >= windowStart :: buckets[b]
      invariant total == Total(seen)
      invariant IsOldest(seen, now, oldest)
      decreases pending
    {
      ghost var next: int := Pick(pending);
      assert next in pending;
      var field :| field in pending;
      pending := pending - {field};
      if field >= windowStart {
        TotalUpdate(seen, field, buckets[field]);
        seen := seen[field := buckets[field]];
        total := total + buckets[field];
        if field < oldest {
          oldest := field;
        }
      } else {
        stale := stale + {field};
      }
    }
    assert seen == Recent(buckets, windowStart);
  }

  lemma OldestUnique(m: map<int, int>, now: int, s: int, t: int)
    requires IsOldest(m, now, s) && IsOldest(m, now, t)
    ensures s == t
  {
  }

  /** The configuration check: on a change the whole hash goes, expiry included. */
  method OpenHistogram(redis: Redis, key: string, cfg: Policy) returns (buckets: map<int, int>)
    requires cfg.SlidingWindow?
    requires Sound(At(redis.limits, key))
    modifies redis`limits
    ensures OnlyTouched(old(redis.limits), redis.limits, key)
    ensures At(redis.limits, key).Present? && redis.HGetAll(key).configHash == Some(cfg)
            && redis.HGetAll(key).buckets == buckets
    ensures
      var e := Recall(old(At(redis.limits, key)));
      && buckets == (if e.state.Histogram? && e.state.cfg == cfg then e.state.counts else map[])
      && redis.ExpiresAt(key) == if !e.state.Fresh? && e.state.cfg != cfg then None else e.expiresAt
  {
    var stored := redis.HGetAll(key).configHash;
    if stored.Some? && stored.value != cfg {
      redis.Del(key);
      redis.HSet(key, redis.HGetAll(key).(configHash := Some(cfg)));
    }
    if stored.None? {
      redis.HSet(key, redis.HGetAll(key).(configHash := Some(cfg)));
    }
    buckets := redis.HGetAll(key).buckets;
  }

  method Eval(redis: Redis, key: string, cfg: Policy, now: nat) returns (reply: Reply)
    requires cfg.SlidingWindow?
    requires Sound(At(redis.limits, key))
    modifies redis`limits
    ensures OnlyTouched(old(redis.limits), redis.limits, key)
    ensures Sound(At(redis.limits, key))
    ensures (Recall(At(redis.limits, key)), reply) == SlidingCheck(cfg, Recall(old(At(redis.limits, key))), now)
  {
    hide Total, Recent, Bump, IsOldest;
    var currentBucket := now / 1000 * 1000;
    var windowStart := now - cfg.window;
    var buckets := OpenHistogram(redis, key, cfg);

    var total, oldest, stale := Scan(buckets, windowStart, now);
    ghost var kept := Recent(buckets, windowStart);
    OldestUnique(kept, now, oldest, Oldest(kept, now));
    if stale != {} {
      redis.HSet(key, redis.HGetAll(key).(buckets := buckets - stale));
    }
    assert stale == {} ==> buckets - stale == buckets;
    assert redis.HGetAll(key).buckets == kept;

    if total < cfg.limit {
      redis.HSet(key, redis.HGetAll(key).(buckets := Bump(redis.HGetAll(key).buckets, currentBucket)));
      redis.Expire(key, CeilDiv(cfg.window, 1000) + 60, now);
      reply := Reply(true, Max(0, cfg.limit - total - 1), 0);
    } else {
      reply := Reply(false, 0, Max(0, oldest + cfg.window - now));
    }
  }
}
