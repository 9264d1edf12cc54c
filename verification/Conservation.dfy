/** Reputation bookkeeping over every interleaving: what the record counts is what the tenant was told. */
module Conservation {
  import opened RedisDb
  import opened Runs
  import opened Keys
  import opened Reputation
  import opened Chain
  import opened Endpoints
  import opened Interleaving

  ghost predicate OfTenant(s: Settings, req: Request, tenant: string) {
    Classify(s, req).Limited? && Classify(s, req).tenant == tenant
  }

  lemma RecordKeysDiffer(a: string, b: string)
    requires RecordKey(a) == RecordKey(b)
    ensures a == b
  {
    assert RecordKey(a)[|"ctrl:reputation:"|..] == a;
    assert RecordKey(b)[|"ctrl:reputation:"|..] == b;
  }

  /** Limiter keys and reputation keys share one keyspace and never meet in it. */
  lemma {:induction false} KeyspacesAreDisjoint(id: KeyId, tenant: string)
    ensures ConstructKey(id) != RecordKey(tenant)
    ensures tenant == "u" ==> RecordKey(tenant) == "ctrl:reputation:u"
  {
    assert ConstructKey(id)[5] == PREFIX[5] == 'l' && RecordKey(tenant)[5] == "ctrl:reputation:"[5] == 'r';
  }

  lemma CheckKeepsRecords(w: World, env: Env)
    ensures forall key, algo :: CheckKey(w, key, algo, env).0.reputations == w.reputations
  {
    hide After, Answer;
  }

  /** A tenant's record changes only when one of its own requests is punished or rewarded. */
  lemma RecordFrame(s: Settings, req: Request, w: World, p: Phase, env: Env, tenant: string)
    ensures
      var w' := Advance(s, req, w, p, env).0;
      At(w'.reputations, RecordKey(tenant)) ==
        if (p.Rewarding? || p.Punishing?) && OfTenant(s, req, tenant) && !env.fault.Refused?
        then Updated(RecordAt(w, tenant, env.lapsed), p.Punishing?, env.now, env.root)
        else At(w.reputations, RecordKey(tenant))
  {
    hide CheckKey, Updated, ScoreRead, Classify, GlobalId, TenantId, EndpointId, RecordKey;
    CheckKeepsRecords(w, env);
    var route := Classify(s, req);
    if route.Limited? && RecordKey(route.tenant) == RecordKey(tenant) {
      RecordKeysDiffer(route.tenant, tenant);
    }
  }

  /** Phases a request can really be in. */
  ghost predicate Proper(s: Settings, req: Request, p: Phase) {
    && (p.Arrived? || p.Forwarding? || p.Done? || Classify(s, req).Limited?)
    && (p.Rewarding? || p.Punishing? ==> !p.tier.GlobalTier?)
    && (p.Done? && p.outcome.Rejected? ==> Classify(s, req).Limited?)
  }

  lemma StepProper(s: Settings, req: Request, w: World, p: Phase, env: Env)
    requires Proper(s, req, p)
    ensures Proper(s, req, Advance(s, req, w, p, env).1)
  {
    hide CheckKey, Rated, ScoreRead, FirstMatch, GlobalId, TenantId, EndpointId;
  }

  /** Answered 429 by the tenant or the endpoint limiter. */
  predicate ToldOff(p: Phase) {
    p == Done(Rejected(TenantTier)) || p == Done(Rejected(EndpointTier))
  }

  /** How a request comes to be rewarded and punished. */
  lemma StepOutcome(s: Settings, req: Request, w: World, p: Phase, env: Env)
    requires Proper(s, req, p)
    ensures
      var p' := Advance(s, req, w, p, env).1;
      && (p'.Rewarding? ==> p == Gate(p'.tier))
      && (ToldOff(p') <==> ToldOff(p) || p.Punishing?)
  {
    hide CheckKey, Rated, ScoreRead, Classify, GlobalId, TenantId, EndpointId;
  }

  /** Every request is in a proper phase, and a stamp is only held by a request past the gate that gave it. */
  ghost predicate Orderly(s: Settings, reqs: Requests, sys: System) {
    && (forall id: nat :: Proper(s, reqs(id), PhaseOf(sys, id)))
    && (forall id: nat :: PhaseOf(sys, id).Rewarding? ==> (PhaseOf(sys, id).tier, id) in sys.stamps)
    && (forall t: (Tier, nat) | t in sys.stamps :: Rank(PhaseOf(sys, t.1)) < Rank(Gate(t.0)))
  }

  lemma StepOrderly(s: Settings, reqs: Requests, sys: System, ev: Event)
    requires Orderly(s, reqs, sys)
    ensures Orderly(s, reqs, Step(s, reqs, sys, ev))
  {
    var p := PhaseOf(sys, ev.id);
    EveryStepProgresses(s, reqs(ev.id), sys.world, p, ev.env);
    StepProper(s, reqs(ev.id), sys.world, p, ev.env);
    StepOutcome(s, reqs(ev.id), sys.world, p, ev.env);
    DoneStays(s, reqs, sys, ev);
    hide Advance, Proper;
  }

  /** Requests of the tenant that were told off. */
  ghost function Rejections(s: Settings, reqs: Requests, sys: System, tenant: string): set<nat> {
    set id | id in sys.phases && OfTenant(s, reqs(id), tenant) && ToldOff(sys.phases[id])
  }

  /** Admissions of the tenant's requests, at either tier, that have been credited to its record. */
  ghost function Credits(s: Settings, reqs: Requests, sys: System, tenant: string): set<(Tier, nat)> {
    set t | t in sys.stamps && OfTenant(s, reqs(t.1), tenant) && PhaseOf(sys, t.1) != Rewarding(t.0)
  }

  /** An update that this step makes to the tenant's record reaches the store and finds the record unexpired. */
  ghost predicate Recorded(s: Settings, reqs: Requests, sys: System, ev: Event, tenant: string) {
    var p := PhaseOf(sys, ev.id);
    (p.Rewarding? || p.Punishing?) && OfTenant(s, reqs(ev.id), tenant) ==> !ev.env.fault.Refused? && !ev.env.lapsed
  }

  function RecordOf(w: World, tenant: string): Slot<Record> { At(w.reputations, RecordKey(tenant)) }

  lemma OnePhaseMoves(s: Settings, reqs: Requests, sys: System, next: System, id: nat, p: Phase, tenant: string)
    requires next.phases == sys.phases[id := p]
    ensures
      var before, after := Rejections(s, reqs, sys, tenant), Rejections(s, reqs, next, tenant);
      if OfTenant(s, reqs(id), tenant) && ToldOff(p) then after == before + {id}
      else after == before - {id}
    ensures id in Rejections(s, reqs, sys, tenant) <==> OfTenant(s, reqs(id), tenant) && ToldOff(PhaseOf(sys, id))
  {
    hide OfTenant;
  }

  lemma StepRejections(s: Settings, reqs: Requests, sys: System, ev: Event, tenant: string)
    requires Orderly(s, reqs, sys)
    ensures
      var p := PhaseOf(sys, ev.id);
      var before, after := Rejections(s, reqs, sys, tenant), Rejections(s, reqs, Step(s, reqs, sys, ev), tenant);
      if p.Punishing? && OfTenant(s, reqs(ev.id), tenant)
      then after == before + {ev.id} && ev.id !in before
      else after == before
  {
    var p, next := PhaseOf(sys, ev.id), Step(s, reqs, sys, ev);
    assert Proper(s, reqs(ev.id), p);
    hide OfTenant, Rejections, Orderly, LimitedStep, Proper;
    StepOutcome(s, reqs(ev.id), sys.world, p, ev.env);
    OnePhaseMoves(s, reqs, sys, next, ev.id, PhaseOf(next, ev.id), tenant);
  }

  lemma StampIsNew(s: Settings, reqs: Requests, sys: System, ev: Event)
    requires Orderly(s, reqs, sys)
    ensures forall tier: Tier | PhaseOf(sys, ev.id) == Gate(tier) :: (tier, ev.id) !in sys.stamps
  {
  }

  /** Leaving the rewarding phase turns a stamp into a credit; being stamped does not yet. */
  lemma CreditsMove(s: Settings, reqs: Requests, sys: System, next: System, id: nat, tenant: string)
    requires next.phases == sys.phases[id := PhaseOf(next, id)]
    requires var p' := PhaseOf(next, id);
             next.stamps.Keys == sys.stamps.Keys + (if p'.Rewarding? then {(p'.tier, id)} else {})
             && (p'.Rewarding? ==> !PhaseOf(sys, id).Rewarding? && (p'.tier, id) !in sys.stamps)
    requires PhaseOf(sys, id).Rewarding? ==> (PhaseOf(sys, id).tier, id) in sys.stamps
    ensures
      var p := PhaseOf(sys, id);
      var before, after := Credits(s, reqs, sys, tenant), Credits(s, reqs, next, tenant);
      if p.Rewarding? && OfTenant(s, reqs(id), tenant) then after == before + {(p.tier, id)} && (p.tier, id) !in before
      else after == before
  {
    hide OfTenant;
    forall t: (Tier, nat) | t.1 != id
      ensures PhaseOf(next, t.1) == PhaseOf(sys, t.1) && (t in next.stamps <==> t in sys.stamps)
    {
    }
    forall t: (Tier, nat) | t.1 == id
      ensures t == (t.0, id)
    {
    }
  }

  lemma StepCredits(s: Settings, reqs: Requests, sys: System, ev: Event, tenant: string)
    requires Orderly(s, reqs, sys)
    ensures
      var p := PhaseOf(sys, ev.id);
      var before, after := Credits(s, reqs, sys, tenant), Credits(s, reqs, Step(s, reqs, sys, ev), tenant);
      if p.Rewarding? && OfTenant(s, reqs(ev.id), tenant)
      then after == before + {(p.tier, ev.id)} && (p.tier, ev.id) !in before
      else after == before
  {
    hide Advance, OfTenant, Proper, Credits;
    var p, next := PhaseOf(sys, ev.id), Step(s, reqs, sys, ev);
    assert Proper(s, reqs(ev.id), p);
    StepOutcome(s, reqs(ev.id), sys.world, p, ev.env);
    StampIsNew(s, reqs, sys, ev);
    CreditsMove(s, reqs, sys, next, ev.id, tenant);
  }

  ghost predicate AllRecorded(s: Settings, reqs: Requests, sys: System, trace: seq<Event>, tenant: string)
    decreases |trace|
  {
    trace == [] ||
    (&& Recorded(s, reqs, sys, trace[0], tenant)
     && AllRecorded(s, reqs, Step(s, reqs, sys, trace[0]), trace[1..], tenant))
  }

  /** Each step moves the record and the tally together. */
  lemma StepBalances(s: Settings, reqs: Requests, sys: System, ev: Event, tenant: string)
    requires Orderly(s, reqs, sys) && Recorded(s, reqs, sys, ev, tenant)
    ensures
      var next := Step(s, reqs, sys, ev);
      && Violations(RecordOf(next.world, tenant)) - |Rejections(s, reqs, next, tenant)|
         == Violations(RecordOf(sys.world, tenant)) - |Rejections(s, reqs, sys, tenant)|
      && Goods(RecordOf(next.world, tenant)) - |Credits(s, reqs, next, tenant)|
         == Goods(RecordOf(sys.world, tenant)) - |Credits(s, reqs, sys, tenant)|
  {
    hide Advance, Orderly, Rejections, Credits, OfTenant, RecordKey, Updated, Violations, Goods;
    StepRejections(s, reqs, sys, ev, tenant);
    StepCredits(s, reqs, sys, ev, tenant);
    RecordFrame(s, reqs(ev.id), sys.world, PhaseOf(sys, ev.id), ev.env, tenant);
    UpdateCounts(RecordAt(sys.world, tenant, false), PhaseOf(sys, ev.id).Punishing?, ev.env.now, ev.env.root);
  }

  lemma UpdateCounts(slot: Slot<Record>, violation: bool, now: nat, root: Root)
    ensures Violations(Updated(slot, violation, now, root)) == Violations(slot) + (if violation then 1 else 0)
    ensures Goods(Updated(slot, violation, now, root)) == Goods(slot) + (if violation then 0 else 1)
  {
  }

  /**
   * Over every interleaving in which the updates of this tenant reach the store and find its record unexpired: its
   * violation count grows by one for each 429 of the tenant and endpoint tiers, its good-request count by one for
   * each admission credited, and by nothing else.
   */
  lemma {:induction false} BooksBalance(s: Settings, reqs: Requests, sys: System, trace: seq<Event>, tenant: string)
    requires Orderly(s, reqs, sys) && AllRecorded(s, reqs, sys, trace, tenant)
    ensures
      var end := Play(s, reqs, sys, trace);
      && Orderly(s, reqs, end)
      && Violations(RecordOf(end.world, tenant)) - |Rejections(s, reqs, end, tenant)|
         == Violations(RecordOf(sys.world, tenant)) - |Rejections(s, reqs, sys, tenant)|
      && Goods(RecordOf(end.world, tenant)) - |Credits(s, reqs, end, tenant)|
         == Goods(RecordOf(sys.world, tenant)) - |Credits(s, reqs, sys, tenant)|
    decreases |trace|
  {
    hide Advance, Orderly, Rejections, Credits, Violations, Goods;
    if trace != [] {
      StepOrderly(s, reqs, sys, trace[0]);
      StepBalances(s, reqs, sys, trace[0], tenant);
      BooksBalance(s, reqs, Step(s, reqs, sys, trace[0]), trace[1..], tenant);
    }
  }

  /** Admissions of the tenant's requests at either tier. */
  ghost function Admissions(s: Settings, reqs: Requests, sys: System, tenant: string): set<(Tier, nat)> {
    set t | t in sys.stamps && OfTenant(s, reqs(t.1), tenant)
  }

  /** From a standing start, once every request is answered: the record is exactly the tally. */
  lemma {:induction false} RecordIsTally(s: Settings, reqs: Requests, w: World, trace: seq<Event>, tenant: string)
    requires AllRecorded(s, reqs, Quiet(w), trace, tenant)
    requires var end := Play(s, reqs, Quiet(w), trace); forall id | id in end.phases :: end.phases[id].Done?
    ensures
      var end := Play(s, reqs, Quiet(w), trace);
      && Violations(RecordOf(end.world, tenant)) == Violations(RecordOf(w, tenant)) + |Rejections(s, reqs, end, tenant)|
      && Goods(RecordOf(end.world, tenant)) == Goods(RecordOf(w, tenant)) + |Admissions(s, reqs, end, tenant)|
  {
    var end := Play(s, reqs, Quiet(w), trace);
    assert Orderly(s, reqs, Quiet(w));
    BooksBalance(s, reqs, Quiet(w), trace, tenant);
    hide Advance, Violations, Goods, OfTenant;
    assert Rejections(s, reqs, Quiet(w), tenant) == {};
    assert Credits(s, reqs, Quiet(w), tenant) == {};
    assert Credits(s, reqs, end, tenant) == Admissions(s, reqs, end, tenant);
  }
}
