/** The middlewares in their nesting order, each calling the next, over the Redis database. */
module Middleware {
  import opened Config
  import opened RedisDb
  import opened Limits
  import opened Reputation
  import opened Endpoints
  import opened Chain
  import TokenBucketScript
  import LeakyBucketScript
  import FixedWindowScript
  import SlidingWindowScript
  import ChainSafety

  ghost predicate AllSound(redis: Redis)
    reads redis
  {
    forall k :: Sound(At(redis.limits, k))
  }

  /** The database without the fields that no script will read again. */
  ghost function WorldOf(redis: Redis): World
    reads redis
    requires AllSound(redis)
  {
    World(map k | k in redis.limits :: Recall(At(redis.limits, k)), redis.reputations)
  }

  /** `checkLimit`: the script of the configured algorithm. */
  method EvalScript(redis: Redis, key: string, cfg: Policy, now: nat) returns (reply: Reply)
    requires Sound(At(redis.limits, key))
    modifies redis`limits
    ensures OnlyTouched(old(redis.limits), redis.limits, key)
    ensures Sound(At(redis.limits, key))
    ensures (Recall(At(redis.limits, key)), reply) == Check(cfg, Recall(old(At(redis.limits, key))), now)
  {
    match cfg
    case TokenBucket(_, _, _) => reply := TokenBucketScript.Eval(redis, key, cfg, now);
    case LeakyBucket(_, _, _) => reply := LeakyBucketScript.Eval(redis, key, cfg, now);
    case FixedWindow(_, _) => reply := FixedWindowScript.Eval(redis, key, cfg, now);
    case SlidingWindow(_, _) => reply := SlidingWindowScript.Eval(redis, key, cfg, now);
  }

  /** One limiter check, with everything that can happen to it. */
  method CheckLimit(redis: Redis, key: string, algo: AlgoSpec, env: Env) returns (r: CheckResult)
    requires AllSound(redis)
    modifies redis`limits
    ensures AllSound(redis)
    ensures (WorldOf(redis), r) == CheckKey(old(WorldOf(redis)), key, algo, env)
  {
    if algo.Unnamed? {
      return Failed;
    }
    if algo.Incomplete? {
      return Panicked;
    }
    if env.fault.Refused? {
      return Failed;
    }
    if env.lapsed {
      redis.Del(key);
    }
    var reply := EvalScript(redis, key, algo.cfg, env.now);
    assert WorldOf(redis).limits == old(WorldOf(redis)).limits[key := Recall(At(redis.limits, key))];
    r := if env.fault.ReplyLost? then Failed else if reply.allowed then Allowed else Denied;
  }

  /** `UpdateReputation`, whose errors the callers only log. */
  method UpdateReputation(redis: Redis, tenant: string, violation: bool, env: Env)
    requires AllSound(redis)
    modifies redis`reputations
    ensures AllSound(redis)
    ensures WorldOf(redis) == Rated(old(WorldOf(redis)), tenant, violation, env)
  {
    if !env.fault.Refused? {
      if env.lapsed {
        redis.reputations := redis.reputations[RecordKey(tenant) := Absent];
      }
      Reputation.Eval(redis, RecordKey(tenant), violation, env.now, env.root);
      forall k | k in redis.reputations && k != RecordKey(tenant)
        ensures k in old(redis.reputations) && redis.reputations[k] == old(redis.reputations)[k]
      {
        assert At(redis.reputations, k) == At(old(redis.reputations), k);
      }
    }
  }

  /** The reverse proxy serves the request; a panic in it is left to the recovery handler. */
  method Proxy(env: Env, before: nat, recovered: bool) returns (end: Phase)
    ensures end == if env.proxyPanics && !recovered then Forwarding(true, before + 1) else Done(Forwarded(before + 1))
  {
    end := if env.proxyPanics && !recovered then Forwarding(true, before + 1) else Done(Forwarded(before + 1));
  }

  method EndpointLimit(redis: Redis, s: Settings, req: Request, bypass: bool, plan: Phase -> Env) returns (end: Phase)
    requires AllSound(redis) && (!bypass ==> Classify(s, req).Limited?)
    modifies redis
    ensures AllSound(redis)
    ensures (WorldOf(redis), end)
            == Until(s, req, old(WorldOf(redis)), if bypass then Forwarding(false, 0) else AtEndpoint, plan)
  {
    hide CheckKey, Rated, Classify, EndpointId, TenantId, GlobalId, WorldOf;
    if bypass {
      end := Proxy(plan(Forwarding(false, 0)), 0, false);
      return;
    }
    var route := Classify(s, req);
    var r := CheckLimit(redis, EndpointId(route), route.rule.algo, plan(AtEndpoint));
    if r.Panicked? {
      return PANIC;
    }
    if r.Failed? {
      end := Proxy(plan(Forwarding(false, 0)), 0, false);
      return;
    }
    if r.Denied? {
      UpdateReputation(redis, route.tenant, true, plan(Punishing(EndpointTier)));
      return Done(Rejected(EndpointTier));
    }
    UpdateReputation(redis, route.tenant, false, plan(Rewarding(EndpointTier)));
    end := Proxy(plan(Forwarding(false, 0)), 0, false);
  }

  method TenantLimit(redis: Redis, s: Settings, req: Request, bypass: bool, plan: Phase -> Env) returns (end: Phase)
    requires AllSound(redis) && (!bypass ==> Classify(s, req).Limited?)
    modifies redis
    ensures AllSound(redis)
    ensures (WorldOf(redis), end)
            == Until(s, req, old(WorldOf(redis)), if bypass then Forwarding(false, 0) else TenantEntry(s), plan)
  {
    hide CheckKey, Rated, Classify, EndpointId, TenantId, GlobalId, WorldOf;
    if bypass || !s.tenantLayer.enabled {
      end := EndpointLimit(redis, s, req, bypass, plan);
      return;
    }
    var route := Classify(s, req);
    var r := CheckLimit(redis, TenantId(route), s.tenantLayer.algo, plan(AtTenant));
    if r.Panicked? {
      return PANIC;
    }
    if r.Denied? {
      UpdateReputation(redis, route.tenant, true, plan(Punishing(TenantTier)));
      return Done(Rejected(TenantTier));
    }
    if r.Allowed? {
      UpdateReputation(redis, route.tenant, false, plan(Rewarding(TenantTier)));
    }
    end := EndpointLimit(redis, s, req, bypass, plan);
  }

  method GlobalLimit(redis: Redis, s: Settings, req: Request, bypass: bool, plan: Phase -> Env) returns (end: Phase)
    requires AllSound(redis) && (!bypass ==> Classify(s, req).Limited?)
    modifies redis
    ensures AllSound(redis)
    ensures (WorldOf(redis), end) ==
            Until(s, req, old(WorldOf(redis)),
                  if bypass then Forwarding(false, 0)
                  else if s.globalLayer.enabled then AtGlobal else TenantEntry(s), plan)
  {
    hide CheckKey, Rated, Classify, EndpointId, TenantId, GlobalId;
    if bypass || !s.globalLayer.enabled {
      end := TenantLimit(redis, s, req, bypass, plan);
      return;
    }
    var route := Classify(s, req);
    var r := CheckLimit(redis, GlobalId(), s.globalLayer.algo, plan(AtGlobal));
    if r.Panicked? {
      return PANIC;
    }
    if !r.Failed? {
      var env := plan(AtReputation(r.Denied?));
      var record := if env.lapsed then Absent else At(redis.reputations, RecordKey(route.tenant));
      var score := if env.fault.Works? then ScoreOf(record) else 1.0;
      if r.Denied? && score <= THRESHOLD {
        return Done(Rejected(GlobalTier));
      }
    }
    end := TenantLimit(redis, s, req, bypass, plan);
  }

  method DryRun(redis: Redis, s: Settings, req: Request, bypass: bool, plan: Phase -> Env) returns (end: Phase)
    requires AllSound(redis) && (!bypass ==> Classify(s, req).Limited?)
    modifies redis
    ensures AllSound(redis)
    ensures (WorldOf(redis), end) ==
            Until(s, req, old(WorldOf(redis)), if bypass then Forwarding(false, 0) else Entrance(s, req), plan)
  {
    hide CheckKey, Rated, Classify, EndpointId, TenantId, GlobalId, WorldOf;
    if bypass || !s.dryRun {
      end := GlobalLimit(redis, s, req, bypass, plan);
      return;
    }
    var route := Classify(s, req);
    var g := CheckLimit(redis, GlobalId(), s.globalLayer.algo, plan(DryGlobal));
    if g.Panicked? {
      return PANIC;
    }
    var t := CheckLimit(redis, TenantId(route), s.tenantLayer.algo, plan(DryTenant(g.Failed?)));
    if t.Panicked? {
      return PANIC;
    }
    var e := CheckLimit(redis, EndpointId(route), route.rule.algo, plan(DryEndpoint(g.Failed? || t.Failed?)));
    if e.Panicked? || g.Failed? || t.Failed? || e.Failed? {
      return PANIC;
    }
    end := GlobalLimit(redis, s, req, true, plan);
  }

  /** The classifier sets the bypass flag for requests outside every rule. */
  method Classifier(redis: Redis, s: Settings, req: Request, plan: Phase -> Env) returns (end: Phase)
    requires AllSound(redis)
    modifies redis
    ensures AllSound(redis)
    ensures (WorldOf(redis), end) == Until(s, req, old(WorldOf(redis)), Arrived, plan)
  {
    hide LimitedStep, WorldOf;
    var rule := MapRequestToEndpointConfig(s.rules, req.path, req.method_);
    var bypass := rule.None? || rule.value.bypass || req.tenant.None?;
    end := DryRun(redis, s, req, bypass, plan);
  }

  /** The whole handler: what the middlewares panic on is forwarded by the recovery handler. */
  method Serve(redis: Redis, s: Settings, req: Request, plan: Phase -> Env) returns (outcome: Outcome)
    requires AllSound(redis)
    modifies redis
    ensures AllSound(redis)
    ensures (WorldOf(redis), outcome) == Served(s, req, old(WorldOf(redis)), plan)
    ensures s.dryRun && (forall p :: !plan(p).proxyPanics) ==> outcome == Forwarded(1)
    ensures (forall p :: !plan(p).fault.Works?) ==> outcome.Forwarded?
  {
    hide Until, Advance, WorldOf, AllSound;
    if s.dryRun && forall p :: !plan(p).proxyPanics {
      ChainSafety.DryRunServesOnce(s, req, WorldOf(redis), plan);
    }
    if forall p :: !plan(p).fault.Works? {
      ChainSafety.StoreDownServes(s, req, WorldOf(redis), plan);
    }
    UntilSettles(s, req, WorldOf(redis), Arrived, plan);
    var end := Classifier(redis, s, req, plan);
    if end.Forwarding? {
      end := Proxy(plan(end), end.passes, true);
    }
    outcome := end.outcome;
  }
}
