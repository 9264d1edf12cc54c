/** The Redis database: hashes with an optional expiry instant, and the commands the scripts use. */
module RedisDb {
  import opened Prelude
  import opened Config

  /** A limiter hash. Every named field may be present; `buckets` holds the fields whose name is a number. */
  datatype Fields = Fields(
    configHash: Option<Algorithm>,
    tokens: Option<int>, lastRefill: Option<int>,
    level: Option<int>, lastLeak: Option<int>,
    count: Option<int>, windowStart: Option<int>,
    buckets: map<int, int>)

  const EMPTY_HASH := Fields(None, None, None, None, None, None, None, map[])

  /** A reputation hash; the script always writes all fields but `last_violation` together. */
  datatype Record = Record(score: real, violations: nat, good: nat, lastViolation: Option<int>, lastActivity: int)

  datatype Slot<+H> = Absent | Present(hash: H, expiresAt: Option<int>)

  function At<H>(db: map<string, Slot<H>>, key: string): Slot<H> {
    if key in db then db[key] else Absent
  }

  /** A command has touched `key` and no other key. */
  ghost predicate OnlyTouched<H>(before: map<string, Slot<H>>, after: map<string, Slot<H>>, key: string) {
    && after.Keys == before.Keys + {key}
    && forall k | k != key :: At(after, k) == At(before, k)
  }

  class Redis {
    var limits: map<string, Slot<Fields>>
    var reputations: map<string, Slot<Record>>

    constructor ()
      ensures limits == map[] && reputations == map[]
    {
      limits, reputations := map[], map[];
    }

    /** HGET, HMGET and HGETALL read the empty hash from a missing key. */
    function HGetAll(key: string): Fields
      reads this
    {
      if At(limits, key).Present? then At(limits, key).hash else EMPTY_HASH
    }

    function ExpiresAt(key: string): Option<int>
      reads this
    {
      if At(limits, key).Present? then At(limits, key).expiresAt else None
    }

    /** HSET, HMSET, HINCRBY and HDEL rewrite fields and leave the expiry alone. */
    method HSet(key: string, h: Fields)
      modifies this`limits
      ensures At(limits, key) == Present(h, old(ExpiresAt(key)))
      ensures OnlyTouched(old(limits), limits, key)
    {
      limits := limits[key := Present(h, ExpiresAt(key))];
    }

    /** EXPIRE, which the scripts only use on a key they have just written. */
    method Expire(key: string, seconds: int, now: int)
      requires At(limits, key).Present?
      modifies this`limits
      ensures At(limits, key) == Present(old(HGetAll(key)), Some(now + 1000 * seconds))
      ensures OnlyTouched(old(limits), limits, key)
    {
      limits := limits[key := Present(HGetAll(key), Some(now + 1000 * seconds))];
    }

    /** The pair with which the bucket scripts save a hash: HMSET, then EXPIRE. */
    method Save(key: string, h: Fields, seconds: int, now: int)
      modifies this`limits
      ensures At(limits, key) == Present(h, Some(now + 1000 * seconds))
      ensures OnlyTouched(old(limits), limits, key)
    {
      HSet(key, h);
      Expire(key, seconds, now);
    }

    method Del(key: string)
      modifies this`limits
      ensures At(limits, key) == Absent
      ensures OnlyTouched(old(limits), limits, key)
    {
      limits := limits[key := Absent];
    }
  }
}
