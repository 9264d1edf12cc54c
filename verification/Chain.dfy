/**
 * The admission chain as a state machine: one step per store call, so that the calls of concurrent requests can
 * interleave, and so that any store call can fail.
 */
module Chain {
  import opened Prelude
  import opened RedisDb
  import opened Limits
  import opened Runs
  import opened Reputation
  import opened Keys
  import opened Endpoints

  datatype Tier = GlobalTier | TenantTier | EndpointTier

  datatype Layer = Layer(enabled: bool, algo: AlgoSpec)

  datatype Settings = Settings(dryRun: bool, globalLayer: Layer, tenantLayer: Layer, rules: seq<Rule>)

  /** `tenant` is what the tenant strategy of the matched rule extracts, if it can. */
  datatype Request = Request(path: string, method_: string, tenant: Option<string>)

  datatype Route = Unlimited | Limited(rule: Rule, tenant: string)

  /** No rule, a bypass rule or no tenant key: the request goes through unchecked. */
  function Classify(s: Settings, req: Request): Route {
    var rule := FirstMatch(s.rules, req.path, req.method_);
    if rule.None? || rule.value.bypass || req.tenant.None? then Unlimited
    else Limited(rule.value, req.tenant.value)
  }

  /**
   * What the world does to one step: the clock, the store call's fate, an expired key, the script's root, the
   * proxy.
   */
  datatype Env = Env(now: nat, fault: Fault, lapsed: bool, root: Root, proxyPanics: bool)

  /** A call may work, never reach the store, or run with its reply lost. */
  datatype Fault = Works | Refused | ReplyLost

  datatype World = World(limits: map<string, Entry>, reputations: map<string, Slot<Record>>)

  function EntryAt(limits: map<string, Entry>, key: string): Entry {
    if key in limits then limits[key] else BLANK
  }

  datatype CheckResult = Allowed | Denied | Failed | Panicked

  /** One limiter check as its caller sees it. */
  ghost function CheckKey(w: World, key: string, algo: AlgoSpec, env: Env): (World, CheckResult) {
    match algo
    case Unnamed => (w, Failed)
    case Incomplete => (w, Panicked)
    case Known(cfg) =>
      if env.fault.Refused? then (w, Failed)
      else
        var c := Call(cfg, env.now, env.lapsed);
        var e := EntryAt(w.limits, key);
        var w' := w.(limits := w.limits[key := After(e, c)]);
        (w', if env.fault.ReplyLost? then Failed else if Answer(e, c).allowed then Allowed else Denied)
  }

  function RecordKey(tenant: string): string { "ctrl:reputation:" + tenant }

  function RecordAt(w: World, tenant: string, lapsed: bool): Slot<Record> {
    if lapsed then Absent else At(w.reputations, RecordKey(tenant))
  }

  /** `UpdateReputation`; its callers ignore errors. */
  function Rated(w: World, tenant: string, violation: bool, env: Env): World {
    if env.fault.Refused? then w
    else w.(reputations := w.reputations[RecordKey(tenant) :=
              Updated(RecordAt(w, tenant, env.lapsed), violation, env.now, env.root)])
  }

  /** `GetTenantReputation` turns a failed read into a perfect score. */
  function ScoreRead(w: World, tenant: string, env: Env): real {
    if env.fault.Works? then ScoreOf(RecordAt(w, tenant, env.lapsed)) else 1.0
  }

  datatype Outcome = Rejected(tier: Tier) | Forwarded(passes: nat)

  /** What a request does next. `Forwarding(true, n)` is the recovery handler's fallback after a panic. */
  datatype Phase =
    | Arrived
    | DryGlobal | DryTenant(failed: bool) | DryEndpoint(failed: bool)
    | AtGlobal | AtReputation(overload: bool)
    | AtTenant | AtEndpoint
    | Rewarding(tier: Tier) | Punishing(tier: Tier)
    | Forwarding(recovered: bool, passes: nat)
    | Done(outcome: Outcome)

  function TenantEntry(s: Settings): Phase {
    if s.tenantLayer.enabled then AtTenant else AtEndpoint
  }

  function Entrance(s: Settings, req: Request): Phase {
    if Classify(s, req).Unlimited? then Forwarding(false, 0)
    else if s.dryRun then DryGlobal
    else if s.globalLayer.enabled then AtGlobal
    else TenantEntry(s)
  }

  function GlobalId(): string { ConstructKey(GlobalKey) }

  function TenantId(r: Route): string
    requires r.Limited?
  {
    ConstructKey(TenantKey(r.tenant))
  }

  function EndpointId(r: Route): string
    requires r.Limited?
  {
    ConstructKey(EndpointKey(r.rule.methods, r.rule.path, r.tenant))
  }

  const PANIC := Forwarding(true, 0)

  /** One step of one request. Requests that bypass the limiter have no store calls to make. */
  ghost function Advance(s: Settings, req: Request, w: World, p: Phase, env: Env): (World, Phase) {
    var route := Classify(s, req);
    match p
    case Arrived => (w, Entrance(s, req))
    case Forwarding(recovered, n) =>
      (w, if env.proxyPanics && !recovered then Forwarding(true, n + 1) else Done(Forwarded(n + 1)))
    case Done(_) => (w, p)
    case _ =>
      if route.Unlimited? then (w, Forwarding(false, 0))
      else LimitedStep(s, route, w, p, env)
  }

  ghost function LimitedStep(s: Settings, route: Route, w: World, p: Phase, env: Env): (World, Phase)
    requires route.Limited? && !p.Arrived? && !p.Forwarding? && !p.Done?
  {
    match p
    case DryGlobal =>
      var (w', r) := CheckKey(w, GlobalId(), s.globalLayer.algo, env);
      (w', if r.Panicked? then PANIC else DryTenant(r.Failed?))
    case DryTenant(failed) =>
      var (w', r) := CheckKey(w, TenantId(route), s.tenantLayer.algo, env);
      (w', if r.Panicked? then PANIC else DryEndpoint(failed || r.Failed?))
    case DryEndpoint(failed) =>
      // the three results are read whether or not their checks failed: a missing one is a nil dereference
      var (w', r) := CheckKey(w, EndpointId(route), route.rule.algo, env);
      (w', if r.Panicked? || failed || r.Failed? then PANIC else Forwarding(false, 0))
    case AtGlobal =>
      var (w', r) := CheckKey(w, GlobalId(), s.globalLayer.algo, env);
      (w', if r.Panicked? then PANIC else if r.Failed? then TenantEntry(s) else AtReputation(r.Denied?))
    case AtReputation(overload) =>
      (w, if overload && ScoreRead(w, route.tenant, env) <= THRESHOLD
          then Done(Rejected(GlobalTier)) else TenantEntry(s))
    case AtTenant =>
      var (w', r) := CheckKey(w, TenantId(route), s.tenantLayer.algo, env);
      (w', match r
           case Panicked => PANIC
           case Failed => AtEndpoint
           case Denied => Punishing(TenantTier)
           case Allowed => Rewarding(TenantTier))
    case AtEndpoint =>
      var (w', r) := CheckKey(w, EndpointId(route), route.rule.algo, env);
      (w', match r
           case Panicked => PANIC
           case Failed => Forwarding(false, 0)
           case Denied => Punishing(EndpointTier)
           case Allowed => Rewarding(EndpointTier))
    case Rewarding(tier) =>
      (Rated(w, route.tenant, false, env), if tier.TenantTier? then AtEndpoint else Forwarding(false, 0))
    case Punishing(tier) =>
      (Rated(w, route.tenant, true, env), Done(Rejected(tier)))
  }

  /** Steps a request still has to take, at most. */
  function Rank(p: Phase): nat {
    match p
    case Arrived => 9
    case DryGlobal => 5
    case DryTenant(_) => 4
    case DryEndpoint(_) => 3
    case AtGlobal => 8
    case AtReputation(_) => 7
    case AtTenant => 6
    case AtEndpoint => 4
    case Rewarding(tier) => if tier.TenantTier? then 5 else 3
    case Punishing(_) => 3
    case Forwarding(recovered, _) => if recovered then 1 else 2
    case Done(_) => 0
  }

  lemma EveryStepProgresses(s: Settings, req: Request, w: World, p: Phase, env: Env)
    ensures Rank(Advance(s, req, w, p, env).1) < Rank(p) || p.Done?
  {
    hide CheckKey, Rated, ScoreRead, Classify, TenantId, EndpointId, GlobalId;
  }

  /** The middlewares hand over to the recovery handler when they are done or have panicked. */
  predicate Settled(p: Phase) {
    p.Done? || (p.Forwarding? && p.recovered)
  }

  /** One request played alone until the middlewares are done; `plan` says what the world does at each phase. */
  ghost function Until(s: Settings, req: Request, w: World, p: Phase, plan: Phase -> Env): (World, Phase)
    decreases Rank(p)
  {
    if Settled(p) then (w, p)
    else
      EveryStepProgresses(s, req, w, p, plan(p));
      var (w', p') := Advance(s, req, w, p, plan(p));
      Until(s, req, w', p', plan)
  }

  lemma {:induction false} UntilSettles(s: Settings, req: Request, w: World, p: Phase, plan: Phase -> Env)
    ensures Settled(Until(s, req, w, p, plan).1)
    decreases Rank(p)
  {
    hide Advance;
    if !Settled(p) {
      EveryStepProgresses(s, req, w, p, plan(p));
      var (w', p') := Advance(s, req, w, p, plan(p));
      UntilSettles(s, req, w', p', plan);
    }
  }

  /** One request played alone to the end. */
  ghost function Served(s: Settings, req: Request, w: World, plan: Phase -> Env): (World, Outcome) {
    UntilSettles(s, req, w, Arrived, plan);
    var (w', p) := Until(s, req, w, Arrived, plan);
    (w', if p.Done? then p.outcome else Forwarded(p.passes + 1))
  }
}
