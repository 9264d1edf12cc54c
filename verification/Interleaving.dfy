/** Many requests in flight: every interleaving of their steps, with every pattern of store failures. */
module Interleaving {
  import opened RedisDb
  import opened Runs
  import opened Reputation
  import opened Endpoints
  import opened Chain

  datatype Event = Event(id: nat, env: Env)

  /** `stamps` remembers when a tier admitted a request. */
  datatype System = System(world: World, phases: map<nat, Phase>, stamps: map<(Tier, nat), nat>)

  type Requests = nat -> Request

  function PhaseOf(sys: System, id: nat): Phase {
    if id in sys.phases then sys.phases[id] else Arrived
  }

  ghost function Step(s: Settings, reqs: Requests, sys: System, ev: Event): System {
    var (w, p) := Advance(s, reqs(ev.id), sys.world, PhaseOf(sys, ev.id), ev.env);
    System(w, sys.phases[ev.id := p],
           if p.Rewarding? then sys.stamps[(p.tier, ev.id) := ev.env.now] else sys.stamps)
  }

  ghost function Play(s: Settings, reqs: Requests, sys: System, trace: seq<Event>): System
    decreases |trace|
  {
    if trace == [] then sys else Play(s, reqs, Step(s, reqs, sys, trace[0]), trace[1..])
  }

  function Quiet(w: World): System { System(w, map[], map[]) }

  // ----- progress -----

  function OwnEvents(trace: seq<Event>, id: nat): nat {
    if trace == [] then 0 else (if trace[0].id == id then 1 else 0) + OwnEvents(trace[1..], id)
  }

  /** However the steps interleave, a request is finished after as many of its own steps as its rank. */
  lemma {:induction false} RequestsFinish(s: Settings, reqs: Requests, sys: System, trace: seq<Event>, id: nat)
    requires OwnEvents(trace, id) >= Rank(PhaseOf(sys, id))
    ensures PhaseOf(Play(s, reqs, sys, trace), id).Done?
    decreases |trace|
  {
    if trace != [] {
      hide Advance;
      var ev := trace[0];
      EveryStepProgresses(s, reqs(ev.id), sys.world, PhaseOf(sys, ev.id), ev.env);
      DoneStays(s, reqs, sys, ev);
      RequestsFinish(s, reqs, Step(s, reqs, sys, ev), trace[1..], id);
    }
  }

  lemma DoneStays(s: Settings, reqs: Requests, sys: System, ev: Event)
    ensures PhaseOf(sys, ev.id).Done? ==> PhaseOf(Step(s, reqs, sys, ev), ev.id) == PhaseOf(sys, ev.id)
    ensures forall id | id != ev.id :: PhaseOf(Step(s, reqs, sys, ev), id) == PhaseOf(sys, id)
  {
    hide LimitedStep, Classify;
  }

  // ----- only a limiter that said no can reject -----

  function Gate(tier: Tier): Phase {
    match tier
    case GlobalTier => AtGlobal
    case TenantTier => AtTenant
    case EndpointTier => AtEndpoint
  }

  function KeyFor(tier: Tier, route: Route): string
    requires route.Limited?
  {
    match tier
    case GlobalTier => GlobalId()
    case TenantTier => TenantId(route)
    case EndpointTier => EndpointId(route)
  }

  function AlgoFor(s: Settings, tier: Tier, route: Route): AlgoSpec
    requires route.Limited?
  {
    match tier
    case GlobalTier => s.globalLayer.algo
    case TenantTier => s.tenantLayer.algo
    case EndpointTier => route.rule.algo
  }

  /** In this step the script of `tier` ran for the request, its reply arrived, and it was 0. */
  ghost predicate SaysNo(s: Settings, reqs: Requests, sys: System, ev: Event, tier: Tier) {
    var route := Classify(s, reqs(ev.id));
    && route.Limited? && PhaseOf(sys, ev.id) == Gate(tier)
    && var algo := AlgoFor(s, tier, route);
       && algo.Known? && ev.env.fault.Works?
       && !Answer(EntryAt(sys.world.limits, KeyFor(tier, route)), Call(algo.cfg, ev.env.now, ev.env.lapsed)).allowed
  }

  /** In this step the reputation read worked and returned a stored score at or below the threshold. */
  ghost predicate ReadsBad(s: Settings, reqs: Requests, sys: System, ev: Event) {
    var route := Classify(s, reqs(ev.id));
    && route.Limited? && PhaseOf(sys, ev.id) == AtReputation(true)
    && ev.env.fault.Works? && !ev.env.lapsed
    && At(sys.world.reputations, RecordKey(route.tenant)).Present?
    && At(sys.world.reputations, RecordKey(route.tenant)).hash.score <= THRESHOLD
  }

  ghost predicate TurnedAway(s: Settings, reqs: Requests, sys: System, trace: seq<Event>, id: nat, tier: Tier)
    decreases |trace|
  {
    trace != [] &&
    ((trace[0].id == id && SaysNo(s, reqs, sys, trace[0], tier))
     || TurnedAway(s, reqs, Step(s, reqs, sys, trace[0]), trace[1..], id, tier))
  }

  ghost predicate Distrusted(s: Settings, reqs: Requests, sys: System, trace: seq<Event>, id: nat)
    decreases |trace|
  {
    trace != [] &&
    ((trace[0].id == id && ReadsBad(s, reqs, sys, trace[0]))
     || Distrusted(s, reqs, Step(s, reqs, sys, trace[0]), trace[1..], id))
  }

  /** The phases from which a rejection at `tier` is already settled. */
  predicate Doomed(p: Phase, tier: Tier) {
    p == Punishing(tier) || p == Done(Rejected(tier)) || (tier.GlobalTier? && p == AtReputation(true))
  }

  lemma DoomIsEarned(s: Settings, reqs: Requests, sys: System, ev: Event, tier: Tier)
    requires Doomed(PhaseOf(Step(s, reqs, sys, ev), ev.id), tier)
    ensures Doomed(PhaseOf(sys, ev.id), tier) || SaysNo(s, reqs, sys, ev, tier)
    ensures tier.GlobalTier? && PhaseOf(Step(s, reqs, sys, ev), ev.id).Done? ==>
              PhaseOf(sys, ev.id).Done? || PhaseOf(sys, ev.id) == Punishing(tier) || ReadsBad(s, reqs, sys, ev)
  {
    hide Classify, Rated, Answer, After, GlobalId, TenantId, EndpointId;
  }
}
