/** Which limiters a request is put before, in which order, and that in dry run it is put before all of them. */
module ChainPlan {
  import opened Prelude
  import opened Config
  import opened Runs
  import opened Keys
  import opened Endpoints
  import opened Chain
  import opened Interleaving
  import opened Conservation
  import opened ForwardBound

  // ----- classification -----

  /** A request is limited exactly when the first rule it matches does not bypass and its tenant is known. */
  lemma {:induction false} ClassifiedIff(s: Settings, req: Request)
    ensures Classify(s, req).Limited? <==>
            req.tenant.Some? && exists i :: IsFirst(s.rules, i, req.path, req.method_) && !s.rules[i].bypass
    ensures forall i | IsFirst(s.rules, i, req.path, req.method_) && !s.rules[i].bypass && req.tenant.Some? ::
              Classify(s, req) == Limited(s.rules[i], req.tenant.value)
  {
    hide Matches;
    forall i | IsFirst(s.rules, i, req.path, req.method_)
      ensures FirstMatch(s.rules, req.path, req.method_) == Some(s.rules[i])
    {
      FirstIsFound(s.rules, i, req.path, req.method_);
    }
    if FirstMatch(s.rules, req.path, req.method_).Some? {
      var i := FoundIsFirst(s.rules, req.path, req.method_);
      assert IsFirst(s.rules, i, req.path, req.method_);
    }
  }

  lemma {:induction false} FirstIsFound(rules: seq<Rule>, i: int, path: string, method_: string)
    requires IsFirst(rules, i, path, method_)
    ensures FirstMatch(rules, path, method_) == Some(rules[i])
  {
    hide Matches;
    if i > 0 {
      assert !Matches(rules[0], path, method_);
      assert forall j | 0 <= j < i - 1 :: rules[1..][j] == rules[j + 1];
      FirstIsFound(rules[1..], i - 1, path, method_);
    }
  }

  lemma {:induction false} FoundIsFirst(rules: seq<Rule>, path: string, method_: string) returns (i: int)
    requires FirstMatch(rules, path, method_).Some?
    ensures IsFirst(rules, i, path, method_) && FirstMatch(rules, path, method_) == Some(rules[i])
  {
    hide Matches;
    if Matches(rules[0], path, method_) {
      i := 0;
    } else {
      var j := FoundIsFirst(rules[1..], path, method_);
      i := j + 1;
      assert forall k | 0 < k < i :: rules[k] == rules[1..][k - 1];
    }
  }

  // ----- the plan -----

  type Check = (string, AlgoSpec)

  function CheckOf(s: Settings, tier: Tier, route: Route): Check
    requires route.Limited?
  {
    (KeyFor(tier, route), AlgoFor(s, tier, route))
  }

  function When(b: bool, check: Check): seq<Check> { if b then [check] else [] }

  /** The checks below the global tier. */
  function Inner(s: Settings, route: Route): seq<Check>
    requires route.Limited?
  {
    When(s.tenantLayer.enabled, CheckOf(s, TenantTier, route)) + [CheckOf(s, EndpointTier, route)]
  }

  /** All three checks in dry run; otherwise those of the layers that are switched on, and the rule's. */
  function Planned(s: Settings, route: Route): seq<Check>
    requires route.Limited?
  {
    if s.dryRun
    then [CheckOf(s, GlobalTier, route), CheckOf(s, TenantTier, route), CheckOf(s, EndpointTier, route)]
    else When(s.globalLayer.enabled, CheckOf(s, GlobalTier, route)) + Inner(s, route)
  }

  predicate Sturdy(checks: seq<Check>) {
    forall i | 0 <= i < |checks| :: !checks[i].1.Incomplete?
  }

  /** The checks up to and including the first that panics for want of parameters. */
  function UntilPanic(checks: seq<Check>): seq<Check> {
    if checks == [] then [] else if checks[0].1.Incomplete? then [checks[0]] else [checks[0]] + UntilPanic(checks[1..])
  }

  lemma {:induction false} PanicStops(done: seq<Check>, check: Check, rest: seq<Check>)
    requires Sturdy(done) && check.1.Incomplete?
    ensures UntilPanic(done + [check] + rest) == done + [check]
  {
    var all := done + [check] + rest;
    if done == [] {
      assert all[0] == check;
    } else {
      assert all[0] == done[0] && all[1..] == done[1..] + [check] + rest;
      PanicStops(done[1..], check, rest);
    }
  }

  lemma {:induction false} SturdyRuns(checks: seq<Check>)
    requires Sturdy(checks)
    ensures UntilPanic(checks) == checks
  {
    if checks != [] {
      SturdyRuns(checks[1..]);
    }
  }

  /** The checks that a request in this phase still has before it, if none rejects it or panics. */
  function Remaining(s: Settings, route: Route, p: Phase): seq<Check>
    requires route.Limited?
  {
    match p
    case Arrived => Planned(s, route)
    case DryGlobal => Planned(s, route)
    case DryTenant(_) => [CheckOf(s, TenantTier, route), CheckOf(s, EndpointTier, route)]
    case AtGlobal => [CheckOf(s, GlobalTier, route)] + Inner(s, route)
    case AtReputation(_) => Inner(s, route)
    case AtTenant => [CheckOf(s, TenantTier, route), CheckOf(s, EndpointTier, route)]
    case DryEndpoint(_) => [CheckOf(s, EndpointTier, route)]
    case AtEndpoint => [CheckOf(s, EndpointTier, route)]
    case Rewarding(tier) => if tier.TenantTier? then [CheckOf(s, EndpointTier, route)] else []
    case _ => []
  }

  /** The checks that a rejection at `tier` leaves undone. */
  function Spared(s: Settings, route: Route, tier: Tier): seq<Check>
    requires route.Limited?
  {
    match tier
    case GlobalTier => Inner(s, route)
    case TenantTier => [CheckOf(s, EndpointTier, route)]
    case EndpointTier => []
  }

  /** `done` is a history that leads a limited request to this phase. */
  predicate OnPlan(s: Settings, route: Route, p: Phase, done: seq<Check>)
    requires route.Limited?
  {
    if p.Forwarding? || (p.Done? && p.outcome.Forwarded?) then done == UntilPanic(Planned(s, route))
    else if p.Punishing? then StoppedAt(s, route, p.tier, done)
    else if p.Done? then StoppedAt(s, route, p.outcome.tier, done)
    else
      && done + Remaining(s, route, p) == Planned(s, route) && Sturdy(done)
      && (p.AtReputation? ==> done == [CheckOf(s, GlobalTier, route)])
      && ModeFits(s, p)
  }

  /** Dry-run phases in dry run only, the global gate otherwise only; the global tier never rewards. */
  predicate ModeFits(s: Settings, p: Phase) {
    && (p.DryGlobal? || p.DryTenant? || p.DryEndpoint? ==> s.dryRun)
    && (p.AtGlobal? ==> !s.dryRun)
    && (p.Rewarding? ==> !p.tier.GlobalTier?)
  }

  /** The history ends with the check of `tier`, and the plan goes on from there with what is spared. */
  predicate StoppedAt(s: Settings, route: Route, tier: Tier, done: seq<Check>)
    requires route.Limited?
  {
    && done != [] && done[|done| - 1] == CheckOf(s, tier, route)
    && done + Spared(s, route, tier) == Planned(s, route) && Sturdy(done)
  }

  lemma PanicsIff(w: World, key: string, algo: AlgoSpec, env: Env)
    ensures CheckKey(w, key, algo, env).1.Panicked? <==> algo.Incomplete?
    ensures algo.Unnamed? ==> CheckKey(w, key, algo, env) == (w, Failed)
  {
    hide After, Answer;
  }

  function Asked(s: Settings, req: Request, p: Phase): seq<Check> {
    var probe := Probe(s, req, p);
    if probe.Some? then [probe.value] else []
  }

  /** One more check of a plan that has not panicked. */
  lemma OneCheckMore(plan: seq<Check>, done: seq<Check>, check: Check, rest: seq<Check>)
    requires done + ([check] + rest) == plan && Sturdy(done)
    ensures done + [check] + rest == plan
    ensures !check.1.Incomplete? ==> Sturdy(done + [check])
    ensures check.1.Incomplete? || rest == [] ==> UntilPanic(plan) == done + [check]
  {
    assert done + [check] + rest == done + ([check] + rest);
    if check.1.Incomplete? {
      PanicStops(done, check, rest);
    } else if rest == [] {
      assert done + [check] + rest == done + [check];
      SturdyRuns(done + [check]);
    }
  }

  /** The tier that a request in this phase is about to be checked by, in dry run or not. */
  function TierOf(p: Phase): Option<Tier> {
    match p
    case DryGlobal => Some(GlobalTier)
    case DryTenant(_) => Some(TenantTier)
    case DryEndpoint(_) => Some(EndpointTier)
    case _ => GateOf(p)
  }

  /** The checks after the next one. */
  function Later(s: Settings, route: Route, p: Phase): seq<Check>
    requires route.Limited?
  {
    match p
    case DryGlobal => [CheckOf(s, TenantTier, route), CheckOf(s, EndpointTier, route)]
    case AtGlobal => Inner(s, route)
    case DryTenant(_) => [CheckOf(s, EndpointTier, route)]
    case AtTenant => [CheckOf(s, EndpointTier, route)]
    case _ => []
  }

  lemma GateShape(s: Settings, req: Request, p: Phase)
    requires Classify(s, req).Limited? && TierOf(p).Some? && ModeFits(s, p)
    ensures
      var route := Classify(s, req);
      var check := CheckOf(s, TierOf(p).value, route);
      Asked(s, req, p) == [check] && Remaining(s, route, p) == [check] + Later(s, route, p)
  {
    hide Classify, GlobalId, TenantId, EndpointId;
  }

  /** Neither on the way out nor turned away. */
  predicate Active(p: Phase) {
    !p.Forwarding? && !p.Punishing? && !p.Done?
  }

  /** Past its next check a request has panicked, is punished by that tier, or goes on to the later ones. */
  ghost predicate Moves(s: Settings, req: Request, w: World, p: Phase, env: Env)
    requires Classify(s, req).Limited? && TierOf(p).Some?
  {
    var route, p' := Classify(s, req), Advance(s, req, w, p, env).1;
    var tier, later := TierOf(p).value, Later(s, route, p);
    if AlgoFor(s, tier, route).Incomplete? then p'.Forwarding?
    else
      || (p'.Forwarding? && later == [])
      || (p' == Punishing(tier) && Spared(s, route, tier) == later)
      || (Active(p') && Remaining(s, route, p') == later && ModeFits(s, p') && (p'.AtReputation? ==> p.AtGlobal?))
  }

  lemma DryMoves(s: Settings, req: Request, w: World, p: Phase, env: Env)
    requires Classify(s, req).Limited? && ModeFits(s, p) && (p.DryGlobal? || p.DryTenant? || p.DryEndpoint?)
    ensures Moves(s, req, w, p, env)
  {
    hide CheckKey, Rated, ScoreRead, Classify, GlobalId, TenantId, EndpointId;
    var route := Classify(s, req);
    PanicsIff(w, KeyFor(TierOf(p).value, route), AlgoFor(s, TierOf(p).value, route), env);
  }

  lemma InnerMoves(s: Settings, req: Request, w: World, p: Phase, env: Env)
    requires Classify(s, req).Limited? && ModeFits(s, p) && (p.AtTenant? || p.AtEndpoint?)
    ensures Moves(s, req, w, p, env)
  {
    hide CheckKey, Rated, ScoreRead, Classify, GlobalId, TenantId, EndpointId;
    var route := Classify(s, req);
    PanicsIff(w, KeyFor(TierOf(p).value, route), AlgoFor(s, TierOf(p).value, route), env);
  }

  lemma GlobalMoves(s: Settings, req: Request, w: World, p: Phase, env: Env)
    requires Classify(s, req).Limited? && ModeFits(s, p) && p.AtGlobal?
    ensures Moves(s, req, w, p, env)
  {
    hide CheckKey, Rated, ScoreRead, Classify, GlobalId, TenantId, EndpointId;
    var route := Classify(s, req);
    PanicsIff(w, KeyFor(GlobalTier, route), AlgoFor(s, GlobalTier, route), env);
    InnerFollows(s, route);
    hide Inner;
  }

  lemma InnerFollows(s: Settings, route: Route)
    requires route.Limited?
    ensures Remaining(s, route, TenantEntry(s)) == Inner(s, route)
  {
  }

  lemma CheckOnPlan(s: Settings, req: Request, w: World, p: Phase, env: Env, done: seq<Check>)
    requires Classify(s, req).Limited? && OnPlan(s, Classify(s, req), p, done) && TierOf(p).Some? && ModeFits(s, p)
    ensures OnPlan(s, Classify(s, req), Advance(s, req, w, p, env).1, done + Asked(s, req, p))
  {
    hide Advance, Classify, KeyFor, UntilPanic, Sturdy, Planned, Asked, Later;
    var route := Classify(s, req);
    var check := CheckOf(s, TierOf(p).value, route);
    GateShape(s, req, p);
    if p.AtGlobal? {
      GlobalMoves(s, req, w, p, env);
      GlobalIsFirst(s, route, done);
    } else if p.AtTenant? || p.AtEndpoint? {
      InnerMoves(s, req, w, p, env);
    } else {
      DryMoves(s, req, w, p, env);
    }
    OneCheckMore(Planned(s, route), done, check, Later(s, route, p));
    var p' := Advance(s, req, w, p, env).1;
    assert (done + [check])[|done|] == check;
    hide Remaining, Spared;
  }

  lemma GlobalIsFirst(s: Settings, route: Route, done: seq<Check>)
    requires route.Limited? && !s.dryRun && done + Remaining(s, route, AtGlobal) == Planned(s, route)
    ensures done == []
  {
    var n := |Inner(s, route)|;
    assert |Planned(s, route)| == |done| + 1 + n;
  }

  lemma ArrivalOnPlan(s: Settings, req: Request, w: World, env: Env, done: seq<Check>)
    requires Classify(s, req).Limited? && OnPlan(s, Classify(s, req), Arrived, done)
    ensures OnPlan(s, Classify(s, req), Advance(s, req, w, Arrived, env).1, done)
  {
    hide Classify, LimitedStep, KeyFor, UntilPanic, Sturdy;
    InnerFollows(s, Classify(s, req));
    hide Inner;
  }

  lemma ReputationOnPlan(s: Settings, req: Request, w: World, p: Phase, env: Env, done: seq<Check>)
    requires Classify(s, req).Limited? && OnPlan(s, Classify(s, req), p, done) && p.AtReputation?
    ensures OnPlan(s, Classify(s, req), Advance(s, req, w, p, env).1, done)
  {
    hide Classify, CheckKey, Rated, ScoreRead, KeyFor, UntilPanic, Sturdy, Planned;
    InnerFollows(s, Classify(s, req));
    hide Inner;
  }

  /** Rating a request makes no check; nor does passing it on, once nothing remains. */
  lemma TailOnPlan(s: Settings, req: Request, w: World, p: Phase, env: Env, done: seq<Check>)
    requires Classify(s, req).Limited? && OnPlan(s, Classify(s, req), p, done)
    requires p.Rewarding? || p.Punishing? || p.Forwarding? || p.Done?
    ensures OnPlan(s, Classify(s, req), Advance(s, req, w, p, env).1, done)
  {
    hide Classify, CheckKey, Rated, ScoreRead, KeyFor, UntilPanic, Sturdy, Planned;
    if p.Rewarding? && p.tier.EndpointTier? {
      assert done + [] == done;
      SturdyRuns(done);
    }
  }

  lemma StepOnPlan(s: Settings, req: Request, w: World, p: Phase, env: Env, done: seq<Check>)
    requires Classify(s, req).Limited? && OnPlan(s, Classify(s, req), p, done)
    ensures OnPlan(s, Classify(s, req), Advance(s, req, w, p, env).1, done + Asked(s, req, p))
  {
    if TierOf(p).Some? {
      assert ModeFits(s, p);
      CheckOnPlan(s, req, w, p, env, done);
    } else {
      assert Asked(s, req, p) == [] && done + [] == done;
      hide Advance, OnPlan, Classify, Asked;
      if p.Arrived? {
        ArrivalOnPlan(s, req, w, env, done);
      } else if p.AtReputation? {
        ReputationOnPlan(s, req, w, p, env, done);
      } else {
        TailOnPlan(s, req, w, p, env, done);
      }
    }
  }

  // ----- over every interleaving -----

  /** The checks that request `id` makes along the trace, in order. */
  ghost function ChecksBy(s: Settings, reqs: Requests, sys: System, trace: seq<Event>, id: nat): seq<Check>
    decreases |trace|
  {
    if trace == [] then []
    else (if trace[0].id == id then Asked(s, reqs(id), PhaseOf(sys, id)) else [])
         + ChecksBy(s, reqs, Step(s, reqs, sys, trace[0]), trace[1..], id)
  }

  lemma {:induction false} TraceOnPlan(s: Settings, reqs: Requests, sys: System, trace: seq<Event>, id: nat,
                                       done: seq<Check>)
    requires Classify(s, reqs(id)).Limited? && OnPlan(s, Classify(s, reqs(id)), PhaseOf(sys, id), done)
    ensures OnPlan(s, Classify(s, reqs(id)), PhaseOf(Play(s, reqs, sys, trace), id),
                   done + ChecksBy(s, reqs, sys, trace, id))
    decreases |trace|
  {
    hide Advance, OnPlan, Classify, Asked;
    if trace == [] {
      assert done + ChecksBy(s, reqs, sys, trace, id) == done;
    } else {
      var ev := trace[0];
      var next, asked := Step(s, reqs, sys, ev), if ev.id == id then Asked(s, reqs(id), PhaseOf(sys, id)) else [];
      DoneStays(s, reqs, sys, ev);
      if ev.id == id {
        StepOnPlan(s, reqs(id), sys.world, PhaseOf(sys, id), ev.env, done);
      } else {
        assert done + asked == done;
      }
      TraceOnPlan(s, reqs, next, trace[1..], id, done + asked);
      assert done + ChecksBy(s, reqs, sys, trace, id) == done + asked + ChecksBy(s, reqs, next, trace[1..], id);
    }
  }

  /**
   * However requests interleave and whatever fails: a limited request that is forwarded has been put before exactly the
   * planned limiters, once each and in order, up to the first whose parameters are missing; one that is turned away by
   * a tier has been put before the planned ones up to that tier.
   */
  lemma {:induction false} RequestsFollowThePlan(s: Settings, reqs: Requests, w: World, trace: seq<Event>, id: nat)
    requires Classify(s, reqs(id)).Limited?
    ensures
      var route, end := Classify(s, reqs(id)), PhaseOf(Play(s, reqs, Quiet(w), trace), id);
      var done := ChecksBy(s, reqs, Quiet(w), trace, id);
      end.Done? ==>
        if end.outcome.Forwarded? then done == UntilPanic(Planned(s, route))
        else
          && done != [] && done[|done| - 1] == CheckOf(s, end.outcome.tier, route)
          && done + Spared(s, route, end.outcome.tier) == Planned(s, route)
  {
    hide Play, Classify, Planned, UntilPanic;
    StartOnPlan(s, Classify(s, reqs(id)), w, id);
    TraceOnPlan(s, reqs, Quiet(w), trace, id, []);
    assert [] + ChecksBy(s, reqs, Quiet(w), trace, id) == ChecksBy(s, reqs, Quiet(w), trace, id);
  }

  lemma StartOnPlan(s: Settings, route: Route, w: World, id: nat)
    requires route.Limited?
    ensures OnPlan(s, route, PhaseOf(Quiet(w), id), [])
  {
    assert [] + Planned(s, route) == Planned(s, route);
  }

  /** A request outside every rule makes no check, changes nothing and is never turned away. */
  lemma {:induction false} UnlimitedPass(s: Settings, reqs: Requests, sys: System, ev: Event)
    requires Classify(s, reqs(ev.id)).Unlimited? && Loose(PhaseOf(sys, ev.id))
    ensures
      var next := Step(s, reqs, sys, ev);
      && next.world == sys.world && Asked(s, reqs(ev.id), PhaseOf(sys, ev.id)) == []
      && Loose(PhaseOf(next, ev.id))
  {
    hide LimitedStep, Classify;
  }

  predicate Loose(p: Phase) {
    p.Arrived? || p.Forwarding? || (p.Done? && p.outcome.Forwarded?)
  }

  // ----- dry run -----

  /** What a request can be doing in dry run. */
  predicate Dry(p: Phase) {
    p.Arrived? || p.DryGlobal? || p.DryTenant? || p.DryEndpoint? || p.Forwarding? || (p.Done? && p.outcome.Forwarded?)
  }

  lemma StepDry(s: Settings, req: Request, w: World, p: Phase, env: Env)
    requires s.dryRun && Dry(p)
    ensures Dry(Advance(s, req, w, p, env).1) && Advance(s, req, w, p, env).0.reputations == w.reputations
  {
    CheckKeepsRecords(w, env);
    hide CheckKey, Rated, ScoreRead, Classify, GlobalId, TenantId, EndpointId;
  }

  ghost predicate AllDry(sys: System) {
    forall id: nat :: Dry(PhaseOf(sys, id))
  }

  /** Dry run touches no reputation record, whatever the checks say. */
  lemma {:induction false} DryRunKeepsRecords(s: Settings, reqs: Requests, sys: System, trace: seq<Event>)
    requires s.dryRun && AllDry(sys)
    ensures AllDry(Play(s, reqs, sys, trace)) && Play(s, reqs, sys, trace).world.reputations == sys.world.reputations
    decreases |trace|
  {
    if trace != [] {
      hide Advance, Dry;
      var ev := trace[0];
      assert Dry(PhaseOf(sys, ev.id));
      StepDry(s, reqs(ev.id), sys.world, PhaseOf(sys, ev.id), ev.env);
      DoneStays(s, reqs, sys, ev);
      DryRunKeepsRecords(s, reqs, Step(s, reqs, sys, ev), trace[1..]);
    }
  }

  /**
   * In dry run, over every interleaving and whatever fails: a finished limited request has been put before its global,
   * tenant and endpoint limiter, once each, also after an earlier check failed, unless parameters are missing. No
   * reputation record has changed.
   */
  lemma {:induction false} DryRunChecksAll(s: Settings, reqs: Requests, w: World, trace: seq<Event>, id: nat)
    requires s.dryRun && Classify(s, reqs(id)).Limited? && Sturdy(Planned(s, Classify(s, reqs(id))))
    requires PhaseOf(Play(s, reqs, Quiet(w), trace), id).Done?
    ensures
      var route := Classify(s, reqs(id));
      ChecksBy(s, reqs, Quiet(w), trace, id) ==
        [(GlobalId(), s.globalLayer.algo), (TenantId(route), s.tenantLayer.algo), (EndpointId(route), route.rule.algo)]
    ensures Play(s, reqs, Quiet(w), trace).world.reputations == w.reputations
  {
    hide Play, Classify, UntilPanic, Sturdy, GlobalId, TenantId, EndpointId, ChecksBy;
    DryRunKeepsRecords(s, reqs, Quiet(w), trace);
    assert Dry(PhaseOf(Play(s, reqs, Quiet(w), trace), id));
    RequestsFollowThePlan(s, reqs, w, trace, id);
    SturdyRuns(Planned(s, Classify(s, reqs(id))));
  }

  // ----- what the checks charge -----

  /** The store works for the request. */
  ghost predicate Reaches(trace: seq<Event>, id: nat) {
    forall i | 0 <= i < |trace| && trace[i].id == id :: trace[i].env.fault.Works?
  }

  /** The configurations under which request `id` runs a script on the key, in order. */
  ghost function ChargesOn(s: Settings, reqs: Requests, sys: System, trace: seq<Event>, key: string,
                           id: nat): seq<Policy>
    decreases |trace|
  {
    if trace == [] then []
    else (if trace[0].id == id && Touches(s, reqs, sys, trace[0], key)
          then [CallOf(s, reqs, sys, trace[0]).cfg] else [])
         + ChargesOn(s, reqs, Step(s, reqs, sys, trace[0]), trace[1..], key, id)
  }

  function ChargedBy(checks: seq<Check>, key: string): seq<Policy> {
    if checks == [] then []
    else (if checks[0].0 == key && checks[0].1.Known? then [checks[0].1.cfg] else []) + ChargedBy(checks[1..], key)
  }

  lemma {:induction false} ChargedByBoth(a: seq<Check>, b: seq<Check>, key: string)
    ensures ChargedBy(a + b, key) == ChargedBy(a, key) + ChargedBy(b, key)
  {
    if a == [] {
      assert a + b == b;
    } else {
      assert (a + b)[0] == a[0] && (a + b)[1..] == a[1..] + b;
      ChargedByBoth(a[1..], b, key);
    }
  }

  lemma {:induction false} ChargesAreChecks(s: Settings, reqs: Requests, sys: System, trace: seq<Event>, key: string,
                                            id: nat)
    requires Reaches(trace, id)
    ensures ChargesOn(s, reqs, sys, trace, key, id) == ChargedBy(ChecksBy(s, reqs, sys, trace, id), key)
    decreases |trace|
  {
    if trace != [] {
      hide Step, Probe;
      var ev := trace[0];
      var asked := if ev.id == id then Asked(s, reqs(id), PhaseOf(sys, id)) else [];
      ChargesAreChecks(s, reqs, Step(s, reqs, sys, ev), trace[1..], key, id);
      ChargedByBoth(asked, ChecksBy(s, reqs, Step(s, reqs, sys, ev), trace[1..], id), key);
      assert asked != [] ==> asked[1..] == [];
    }
  }

  /**
   * With the store up, a finished dry-run request has run each of its three scripts once, under that layer's
   * configuration.
   */
  lemma {:induction false} DryRunChargesAll(s: Settings, reqs: Requests, w: World, trace: seq<Event>, id: nat)
    requires s.dryRun && Classify(s, reqs(id)).Limited? && Reaches(trace, id)
    requires s.globalLayer.algo.Known? && s.tenantLayer.algo.Known? && Classify(s, reqs(id)).rule.algo.Known?
    requires PhaseOf(Play(s, reqs, Quiet(w), trace), id).Done?
    ensures
      var route := Classify(s, reqs(id));
      && ChargesOn(s, reqs, Quiet(w), trace, GlobalId(), id) == [s.globalLayer.algo.cfg]
      && ChargesOn(s, reqs, Quiet(w), trace, TenantId(route), id) == [s.tenantLayer.algo.cfg]
      && ChargesOn(s, reqs, Quiet(w), trace, EndpointId(route), id) == [route.rule.algo.cfg]
  {
    hide Play, Classify, ConstructKey, ChecksBy, ChargesOn;
    var route := Classify(s, reqs(id));
    DryRunChecksAll(s, reqs, w, trace, id);
    ChargesAreChecks(s, reqs, Quiet(w), trace, GlobalId(), id);
    ChargesAreChecks(s, reqs, Quiet(w), trace, TenantId(route), id);
    ChargesAreChecks(s, reqs, Quiet(w), trace, EndpointId(route), id);
    TenantKeysStandApart(route.tenant, route.rule.methods, route.rule.path, route.tenant);
    OfThree((GlobalId(), s.globalLayer.algo), (TenantId(route), s.tenantLayer.algo),
        (EndpointId(route), route.rule.algo));
  }

  lemma OfThree(a: Check, b: Check, c: Check)
    requires a.0 != b.0 && b.0 != c.0 && a.0 != c.0 && a.1.Known? && b.1.Known? && c.1.Known?
    ensures ChargedBy([a, b, c], a.0) == [a.1.cfg]
    ensures ChargedBy([a, b, c], b.0) == [b.1.cfg]
    ensures ChargedBy([a, b, c], c.0) == [c.1.cfg]
  {
    assert [a, b, c][1..] == [b, c] && [b, c][1..] == [c] && [c][1..] == [];
    assert forall key :: ChargedBy([c], key) == (if c.0 == key then [c.1.cfg] else []) + ChargedBy([], key);
    assert forall key :: ChargedBy([b, c], key) == (if b.0 == key then [b.1.cfg] else []) + ChargedBy([c], key);
  }
}
