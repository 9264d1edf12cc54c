/** The load that reaches the backend: each limiter key has one configuration, whose law the forwarded requests obey. */
module BackendLoad {
  import opened Prelude
  import opened Config
  import opened Limits
  import opened Runs
  import opened Keys
  import opened Endpoints
  import opened Chain
  import opened Interleaving
  import opened Conservation
  import opened AdmissionLaw
  import opened ForwardBound

  // ----- endpoint keys -----

  /** The first match is determined by the path and the methods of the rule it finds. */
  lemma {:induction false} SameMatcherSameRule(rules: seq<Rule>, path1: string, method1: string, path2: string,
                                               method2: string)
    requires FirstMatch(rules, path1, method1).Some? && FirstMatch(rules, path2, method2).Some?
    requires
      var rule1, rule2 := FirstMatch(rules, path1, method1).value, FirstMatch(rules, path2, method2).value;
      rule1.path == rule2.path && rule1.methods == rule2.methods
    ensures FirstMatch(rules, path1, method1) == FirstMatch(rules, path2, method2)
  {
    FirstMatchMatches(rules, path1, method1);
    FirstMatchMatches(rules, path2, method2);
    hide PathMatches, MethodMatches;
    if !Matches(rules[0], path1, method1) && !Matches(rules[0], path2, method2) {
      SameMatcherSameRule(rules[1..], path1, method1, path2, method2);
    }
  }

  lemma {:induction false} FirstMatchMatches(rules: seq<Rule>, path: string, method_: string)
    requires FirstMatch(rules, path, method_).Some?
    ensures Matches(FirstMatch(rules, path, method_).value, path, method_)
  {
    hide PathMatches, MethodMatches;
    if !Matches(rules[0], path, method_) {
      FirstMatchMatches(rules[1..], path, method_);
    }
  }

  lemma LimitedRuleIsClean(s: Settings, req: Request)
    requires CleanRules(s) && Classify(s, req).Limited?
    ensures
      var route := Classify(s, req);
      Clean(EndpointKey(route.rule.methods, route.rule.path, route.tenant))
  {
    MatchedRuleIsConfigured(s.rules, req.path, req.method_);
    var i :| 0 <= i < |s.rules| && s.rules[i] == Classify(s, req).rule;
    assert Clean(EndpointKey(s.rules[i].methods, s.rules[i].path, ""));
  }

  /** Among clean rules an endpoint key determines the whole rule, its algorithm included. */
  lemma {:induction false} EndpointKeyDeterminesRule(s: Settings, req1: Request, req2: Request)
    requires CleanRules(s) && Classify(s, req1).Limited? && Classify(s, req2).Limited?
    requires EndpointId(Classify(s, req1)) == EndpointId(Classify(s, req2))
    ensures Classify(s, req1) == Classify(s, req2)
  {
    var r1, r2 := Classify(s, req1), Classify(s, req2);
    LimitedRuleIsClean(s, req1);
    LimitedRuleIsClean(s, req2);
    KeyDeterminesId(EndpointKey(r1.rule.methods, r1.rule.path, r1.tenant));
    KeyDeterminesId(EndpointKey(r2.rule.methods, r2.rule.path, r2.tenant));
    hide ConstructKey, Deconstruct, FirstMatch;
    SameMatcherSameRule(s.rules, req1.path, req1.method_, req2.path, req2.method_);
  }

  /** A call on an endpoint key comes from the endpoint layer, under the key's rule. */
  lemma CallOnEndpointKey(s: Settings, reqs: Requests, sys: System, ev: Event, req: Request)
    requires CleanRules(s) && Classify(s, req).Limited? && Classify(s, req).rule.algo.Known?
    requires Touches(s, reqs, sys, ev, EndpointId(Classify(s, req)))
    ensures CallOf(s, reqs, sys, ev).cfg == Classify(s, req).rule.algo.cfg
  {
    hide Classify, ConstructKey, GlobalId;
    var mine, theirs := Classify(s, req), Classify(s, reqs(ev.id));
    TenantKeysStandApart(theirs.tenant, mine.rule.methods, mine.rule.path, mine.tenant);
    if EndpointId(theirs) == EndpointId(mine) {
      EndpointKeyDeterminesRule(s, req, reqs(ev.id));
    }
  }

  /**
   * On an endpoint key every call is made under one rule, so that rule's configuration is the only one the key
   * sees.
   */
  lemma {:induction false} EndpointKeySeesOneConfig(s: Settings, reqs: Requests, sys: System, trace: seq<Event>,
                                                    req: Request)
    requires CleanRules(s) && Classify(s, req).Limited? && Classify(s, req).rule.algo.Known?
    ensures Uses(Classify(s, req).rule.algo.cfg, CallsOn(s, reqs, sys, trace, EndpointId(Classify(s, req))))
    decreases |trace|
  {
    hide Step, Touches, CallOf, Classify, EndpointId;
    if trace != [] {
      EndpointKeySeesOneConfig(s, reqs, Step(s, reqs, sys, trace[0]), trace[1..], req);
      if Touches(s, reqs, sys, trace[0], EndpointId(Classify(s, req))) {
        CallOnEndpointKey(s, reqs, sys, trace[0], req);
      }
    }
  }

  // ----- load by the instant of forwarding -----

  /** Requests under a key of `tier` that make a pass to the backend at an instant in `[from, to]`. */
  ghost function DeliveredIn(s: Settings, reqs: Requests, sys: System, trace: seq<Event>,
                             tier: Tier, key: string, from: int, to: int): set<nat>
    decreases |trace|
  {
    if trace == [] then {}
    else
      var ev := trace[0];
      (if PhaseOf(sys, ev.id).Forwarding? && OnKey(s, reqs, tier, key, ev.id) && from <= ev.env.now <= to
       then {ev.id} else {})
      + DeliveredIn(s, reqs, Step(s, reqs, sys, ev), trace[1..], tier, key, from, to)
  }

  /** Each pass to the backend comes at most `lag` after the tier's admission of the request. */
  ghost predicate Prompt(s: Settings, reqs: Requests, sys: System, trace: seq<Event>, tier: Tier, lag: nat)
    decreases |trace|
  {
    trace == [] ||
    var ev := trace[0];
    && (PhaseOf(sys, ev.id).Forwarding? && (tier, ev.id) in sys.stamps ==>
          sys.stamps[(tier, ev.id)] <= ev.env.now <= sys.stamps[(tier, ev.id)] + lag)
    && Prompt(s, reqs, Step(s, reqs, sys, ev), trace[1..], tier, lag)
  }

  lemma {:induction false} PassedGrows(s: Settings, reqs: Requests, sys: System, trace: seq<Event>, tier: Tier,
                                       key: string, from: int, to: int)
    requires Orderly(s, reqs, sys)
    ensures Passed(s, reqs, sys, tier, key, from, to) <= Passed(s, reqs, Play(s, reqs, sys, trace), tier, key, from, to)
    decreases |trace|
  {
    if trace != [] {
      hide Step, Orderly, Passed, Touches, Answer, CallOf;
      StepOrderly(s, reqs, sys, trace[0]);
      StepPassed(s, reqs, sys, trace[0], tier, key, from, to);
      PassedGrows(s, reqs, Step(s, reqs, sys, trace[0]), trace[1..], tier, key, from, to);
    }
  }

  /** A request on its way to the backend has been admitted by the tier, in good time, or has failed open. */
  lemma DeliveryIsPassed(s: Settings, reqs: Requests, sys: System, ev: Event, tier: Tier, key: string,
                         from: nat, to: nat, lag: nat, past: set<nat>)
    requires Cleared(s, reqs, sys, tier, past) && InForce(s, tier) && PhaseOf(sys, ev.id).Forwarding?
    requires OnKey(s, reqs, tier, key, ev.id) && from <= ev.env.now <= to
    requires (tier, ev.id) in sys.stamps ==> sys.stamps[(tier, ev.id)] <= ev.env.now <= sys.stamps[(tier, ev.id)] + lag
    ensures ev.id in past || ev.id in Passed(s, reqs, sys, tier, key, Max(0, from - lag), to)
  {
    hide Classify, KeyFor;
    assert Onward(PhaseOf(sys, ev.id), tier);
    PassedIs(s, reqs, sys, tier, key, Max(0, from - lag), to, ev.id);
  }

  lemma {:induction false} DeliveredArePassed(s: Settings, reqs: Requests, sys: System, trace: seq<Event>,
                                              tier: Tier, key: string, from: nat, to: nat, lag: nat, past: set<nat>)
    requires Orderly(s, reqs, sys) && !s.dryRun && InForce(s, tier) && Cleared(s, reqs, sys, tier, past)
    requires Prompt(s, reqs, sys, trace, tier, lag)
    ensures
      var end := Play(s, reqs, sys, trace);
      DeliveredIn(s, reqs, sys, trace, tier, key, from, to) - (past + Excused(s, reqs, sys, trace, tier))
      <= Passed(s, reqs, end, tier, key, Max(0, from - lag), to)
    decreases |trace|
  {
    if trace != [] {
      hide Step, Orderly, Cleared, Excuses, Passed, OnKey, InForce;
      var ev := trace[0];
      var more := past + if Excuses(s, reqs, sys, ev, tier) then {ev.id} else {};
      StepOrderly(s, reqs, sys, ev);
      StepCleared(s, reqs, sys, ev, tier, past);
      DeliveredArePassed(s, reqs, Step(s, reqs, sys, ev), trace[1..], tier, key, from, to, lag, more);
      assert past + Excused(s, reqs, sys, trace, tier)
             == more + Excused(s, reqs, Step(s, reqs, sys, ev), trace[1..], tier);
      if PhaseOf(sys, ev.id).Forwarding? && OnKey(s, reqs, tier, key, ev.id) && from <= ev.env.now <= to {
        DeliveryIsPassed(s, reqs, sys, ev, tier, key, from, to, lag, past);
        PassedGrows(s, reqs, sys, trace, tier, key, Max(0, from - lag), to);
      }
    }
  }

  /**
   * Both ways of counting the requests of a key in [from, to], by admission and by a pass to the backend. The second
   * leaves out what failed open, and is within the law for the interval stretched by the delay of forwarding.
   */
  ghost predicate LoadIsLawful(s: Settings, reqs: Requests, w: World, trace: seq<Event>,
                               tier: Tier, key: string, cfg: Policy, from: nat, to: nat)
    requires from <= to
  {
    var end, failedOpen := Play(s, reqs, Quiet(w), trace), Excused(s, reqs, Quiet(w), trace, tier);
    && Lawful(cfg, |ForwardedIn(s, reqs, end, tier, key, from, to)|, from, to)
    && (forall id | id in ForwardedOn(s, reqs, end, tier, key) :: (tier, id) in end.stamps || id in failedOpen)
    && (forall lag: nat | Prompt(s, reqs, Quiet(w), trace, tier, lag) ::
          Lawful(cfg, |DeliveredIn(s, reqs, Quiet(w), trace, tier, key, from, to) - failedOpen|,
                 Max(0, from - lag), to))
    && (Enforcing(s) && StoreUp(s, reqs, trace, tier, key) ==>
        forall id | id in failedOpen :: !OnKey(s, reqs, tier, key, id))
  }

  /** Forwarding late can only bring together what was admitted in the interval stretched by the delay. */
  lemma {:induction false} KeyLoadIsLawful(s: Settings, reqs: Requests, w: World, trace: seq<Event>,
                                           tier: Tier, key: string, cfg: Policy, from: nat, to: nat)
    requires !s.dryRun && InForce(s, tier) && from <= to && key !in w.limits
    requires var calls := CallsOn(s, reqs, Quiet(w), trace, key);
             cfg.Valid() && Uses(cfg, calls) && Ordered(0, calls) && Feasible(BLANK, calls)
    ensures LoadIsLawful(s, reqs, w, trace, tier, key, cfg, from, to)
  {
    ForwardedIsLawful(s, reqs, w, trace, tier, key, cfg, from, to);
    ForwardedAreAdmitted(s, reqs, w, trace, tier, key);
    StandingStart(s, reqs, w, tier, key, from, to);
    forall lag: nat | Prompt(s, reqs, Quiet(w), trace, tier, lag)
      ensures Lawful(cfg, |DeliveredIn(s, reqs, Quiet(w), trace, tier, key, from, to) -
                           Excused(s, reqs, Quiet(w), trace, tier)|,
                     Max(0, from - lag), to)
    {
      DeliveredIsLawful(s, reqs, w, trace, tier, key, cfg, from, to, lag);
    }
    hide Play, CallsOn, Quiet, Lawful, Prompt, DeliveredIn, ForwardedIn, ForwardedOn, Excused, Enforcing, StoreUp,
        OnKey;
    hide Orderly, AsksInUse, Cleared;
    if Enforcing(s) && StoreUp(s, reqs, trace, tier, key) {
      NoExcuseWhileAnswered(s, reqs, Quiet(w), trace, tier, key);
    }
  }

  lemma {:induction false} DeliveredIsLawful(s: Settings, reqs: Requests, w: World, trace: seq<Event>,
                                             tier: Tier, key: string, cfg: Policy, from: nat, to: nat, lag: nat)
    requires !s.dryRun && InForce(s, tier) && from <= to && key !in w.limits
    requires var calls := CallsOn(s, reqs, Quiet(w), trace, key);
             cfg.Valid() && Uses(cfg, calls) && Ordered(0, calls) && Feasible(BLANK, calls)
    requires Prompt(s, reqs, Quiet(w), trace, tier, lag)
    ensures Lawful(cfg, |DeliveredIn(s, reqs, Quiet(w), trace, tier, key, from, to) -
                         Excused(s, reqs, Quiet(w), trace, tier)|,
                   Max(0, from - lag), to)
  {
    hide Play, CallsOn, Orderly, Cleared, Passed, DeliveredIn, Prompt, Excused;
    hide Lawful, Feasible, Ordered, Uses, Admitted, Quiet, EntryAt, InForce;
    var start: nat := Max(0, from - lag);
    var end, failedOpen := Play(s, reqs, Quiet(w), trace), Excused(s, reqs, Quiet(w), trace, tier);
    var delivered := DeliveredIn(s, reqs, Quiet(w), trace, tier, key, from, to) - failedOpen;
    StandingStart(s, reqs, w, tier, key, start, to);
    DeliveredArePassed(s, reqs, Quiet(w), trace, tier, key, from, to, lag, {});
    assert {} + failedOpen == failedOpen;
    SubsetSize(delivered, Passed(s, reqs, end, tier, key, start, to));
    PassedWithinLog(s, reqs, Quiet(w), trace, tier, key, start, to);
    var calls := CallsOn(s, reqs, Quiet(w), trace, key);
    EveryAlgorithmIsLawful(cfg, calls, start, to);
    FewerIsLawful(cfg, |delivered|, Admitted(BLANK, calls, start, to), start, to);
  }

  /** With per-tenant limiting on, a tenant's load obeys the tenant layer's law. */
  lemma {:induction false} TenantLoadIsLawful(s: Settings, reqs: Requests, w: World, trace: seq<Event>,
                                              tenant: string, from: nat, to: nat)
    requires !s.dryRun && s.tenantLayer.enabled && s.tenantLayer.algo.Known? && s.tenantLayer.algo.cfg.Valid()
             && from <= to
    requires var key := ConstructKey(TenantKey(tenant));
             key !in w.limits
             && var calls := CallsOn(s, reqs, Quiet(w), trace, key);
                Ordered(0, calls) && Feasible(BLANK, calls)
    ensures LoadIsLawful(s, reqs, w, trace, TenantTier, ConstructKey(TenantKey(tenant)),
                         s.tenantLayer.algo.cfg, from, to)
  {
    hide Play, CallsOn, Feasible, Ordered, LoadIsLawful, ConstructKey;
    TenantKeySeesOneConfig(s, reqs, Quiet(w), trace, tenant);
    KeyLoadIsLawful(s, reqs, w, trace, TenantTier, ConstructKey(TenantKey(tenant)), s.tenantLayer.algo.cfg, from, to);
  }

  /** A tenant's load on the endpoints of a rule obeys that rule's law, for every rule that some request falls under. */
  lemma {:induction false} EndpointLoadIsLawful(s: Settings, reqs: Requests, w: World, trace: seq<Event>,
                                                req: Request, from: nat, to: nat)
    requires !s.dryRun && CleanRules(s) && from <= to
    requires Classify(s, req).Limited? && Classify(s, req).rule.algo.Known? && Classify(s, req).rule.algo.cfg.Valid()
    requires var key := EndpointId(Classify(s, req));
             key !in w.limits
             && var calls := CallsOn(s, reqs, Quiet(w), trace, key);
                Ordered(0, calls) && Feasible(BLANK, calls)
    ensures LoadIsLawful(s, reqs, w, trace, EndpointTier, EndpointId(Classify(s, req)),
                         Classify(s, req).rule.algo.cfg, from, to)
  {
    hide Play, CallsOn, Feasible, Ordered, LoadIsLawful, EndpointId, Classify;
    EndpointKeySeesOneConfig(s, reqs, Quiet(w), trace, req);
    KeyLoadIsLawful(s, reqs, w, trace, EndpointTier, EndpointId(Classify(s, req)), Classify(s, req).rule.algo.cfg,
        from, to);
  }
}
