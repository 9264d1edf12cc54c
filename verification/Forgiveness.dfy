/** How many requests a banished tenant must get through before its ban heals, counted at the backend. */
module Forgiveness {
  import opened Prelude
  import opened RedisDb
  import opened Reputation
  import opened Chain
  import opened Interleaving
  import opened Conservation
  import opened ForwardBound
  import ReputationRuns

  const GAIN := 0.001 / 3.0

  ghost predicate StampsLead(sys: System) {
    forall t: (Tier, nat) | t in sys.stamps :: Onward(PhaseOf(sys, t.1), t.0)
  }

  lemma StepOnward(s: Settings, req: Request, w: World, p: Phase, env: Env, tier: Tier)
    requires Proper(s, req, p) && (Onward(p, tier) || Advance(s, req, w, p, env).1 == Rewarding(tier))
    ensures Onward(Advance(s, req, w, p, env).1, tier)
  {
    StepProper(s, req, w, p, env);
    hide CheckKey, Rated, ScoreRead, Classify, GlobalId, TenantId, EndpointId;
  }

  lemma StepStampsLead(s: Settings, reqs: Requests, sys: System, ev: Event)
    requires Orderly(s, reqs, sys) && StampsLead(sys)
    ensures StampsLead(Step(s, reqs, sys, ev))
  {
    var p := PhaseOf(sys, ev.id);
    assert Proper(s, reqs(ev.id), p);
    DoneStays(s, reqs, sys, ev);
    var next := Step(s, reqs, sys, ev);
    hide Advance, Orderly, Proper;
    forall t: (Tier, nat) | t in next.stamps
      ensures Onward(PhaseOf(next, t.1), t.0)
    {
      if t.1 == ev.id {
        StepOnward(s, reqs(ev.id), sys.world, p, ev.env, t.0);
      } else {
        assert t in sys.stamps;
      }
    }
  }

  /** Marks whose request has not been told off by the endpoint limiter. */
  ghost function Lasting(marks: set<(Tier, nat)>, sys: System): (r: set<(Tier, nat)>)
    ensures r <= marks
  {
    set t | t in marks && PhaseOf(sys, t.1) != Done(Rejected(EndpointTier))
  }

  /** Credits of the tenant whose request has not been told off since. */
  ghost function Standing(s: Settings, reqs: Requests, sys: System, tenant: string): set<(Tier, nat)> {
    Lasting(Credits(s, reqs, sys, tenant), sys)
  }

  lemma OnlyPunishmentTellsOff(s: Settings, reqs: Requests, sys: System, ev: Event)
    ensures
      var p, p' := PhaseOf(sys, ev.id), PhaseOf(Step(s, reqs, sys, ev), ev.id);
      && (p.Rewarding? ==> p' != Done(Rejected(EndpointTier)))
      && (!p.Punishing? ==> (p' == Done(Rejected(EndpointTier)) <==> p == Done(Rejected(EndpointTier))))
  {
    hide CheckKey, Rated, ScoreRead, Classify, GlobalId, TenantId, EndpointId;
  }

  /** A step of request `id` touches the marks of no other request. */
  lemma LastingMoves(marks: set<(Tier, nat)>, sys: System, next: System, id: nat)
    requires next.phases == sys.phases[id := PhaseOf(next, id)]
    ensures
      var before, after := Lasting(marks, sys), Lasting(marks, next);
      && before - {(GlobalTier, id), (TenantTier, id), (EndpointTier, id)} <= after
      && ((PhaseOf(next, id) == Done(Rejected(EndpointTier)) <==>
          PhaseOf(sys, id) == Done(Rejected(EndpointTier))) ==> after == before)
  {
    forall t: (Tier, nat) | t.1 != id
      ensures PhaseOf(next, t.1) == PhaseOf(sys, t.1)
    {
    }
    forall t: (Tier, nat) | t.1 == id
      ensures t in {(GlobalTier, id), (TenantTier, id), (EndpointTier, id)}
    {
      match t.0
      case GlobalTier => assert t == (GlobalTier, id);
      case TenantTier => assert t == (TenantTier, id);
      case EndpointTier => assert t == (EndpointTier, id);
    }
  }

  lemma LastingAdds(marks: set<(Tier, nat)>, sys: System, x: (Tier, nat))
    requires PhaseOf(sys, x.1) != Done(Rejected(EndpointTier))
    ensures Lasting(marks + {x}, sys) == Lasting(marks, sys) + {x}
  {
  }

  lemma LastingElsewhere(marks: set<(Tier, nat)>, sys: System, next: System, id: nat)
    requires next.phases == sys.phases[id := PhaseOf(next, id)] && forall t | t in marks :: t.1 != id
    ensures Lasting(marks, next) == Lasting(marks, sys)
  {
    forall t: (Tier, nat) | t.1 != id
      ensures PhaseOf(next, t.1) == PhaseOf(sys, t.1)
    {
    }
  }

  /** A credit is added by a reward and at most one is lost by a punishment. */
  lemma StepStanding(s: Settings, reqs: Requests, sys: System, ev: Event, tenant: string)
    requires Orderly(s, reqs, sys) && StampsLead(sys)
    ensures
      var p := PhaseOf(sys, ev.id);
      var before, after := Standing(s, reqs, sys, tenant), Standing(s, reqs, Step(s, reqs, sys, ev), tenant);
      if OfTenant(s, reqs(ev.id), tenant) && p.Rewarding?
      then after == before + {(p.tier, ev.id)} && (p.tier, ev.id) !in before
      else if OfTenant(s, reqs(ev.id), tenant) && p.Punishing? then before - {(TenantTier, ev.id)} <= after
      else after == before
  {
    hide Advance, OfTenant, Orderly, Credits, StampsLead, Lasting;
    var p, next := PhaseOf(sys, ev.id), Step(s, reqs, sys, ev);
    var marks := Credits(s, reqs, sys, tenant);
    StepCredits(s, reqs, sys, ev, tenant);
    OnlyPunishmentTellsOff(s, reqs, sys, ev);
    StrangersHaveNoCredits(s, reqs, sys, tenant, ev.id);
    CreditsAreStamps(s, reqs, sys, tenant);
    assert next.phases == sys.phases[ev.id := PhaseOf(next, ev.id)];
    LastingMoves(marks, sys, next, ev.id);
    if OfTenant(s, reqs(ev.id), tenant) && p.Rewarding? {
      LastingAdds(marks, next, (p.tier, ev.id));
    } else if OfTenant(s, reqs(ev.id), tenant) && p.Punishing? {
      assert (GlobalTier, ev.id) !in marks && (EndpointTier, ev.id) !in marks;
    } else if p.Punishing? {
      LastingElsewhere(marks, sys, next, ev.id);
    }
  }

  lemma StrangersHaveNoCredits(s: Settings, reqs: Requests, sys: System, tenant: string, id: nat)
    ensures !OfTenant(s, reqs(id), tenant) ==> forall t | t in Credits(s, reqs, sys, tenant) :: t.1 != id
  {
  }

  lemma CreditsAreStamps(s: Settings, reqs: Requests, sys: System, tenant: string)
    requires StampsLead(sys)
    ensures forall t | t in Credits(s, reqs, sys, tenant) :: Onward(PhaseOf(sys, t.1), t.0)
  {
  }

  /** A record of a repeat offender whose score is at most `n` gains. */
  ghost predicate Earned(slot: Slot<Record>, n: nat) {
    slot.Present? && slot.hash.violations >= 9 && 0.0 <= slot.hash.score <= n as real * GAIN
  }

  /** The tenant is a repeat offender and its score is no more than its standing credits have earned. */
  ghost predicate Owed(s: Settings, reqs: Requests, sys: System, tenant: string) {
    Earned(RecordOf(sys.world, tenant), |Standing(s, reqs, sys, tenant)|)
  }

  /** At a reward of this tenant the script's square root is the square root of the count it is applied to. */
  ghost predicate TrueRoot(s: Settings, reqs: Requests, sys: System, ev: Event, tenant: string) {
    var slot := RecordOf(sys.world, tenant);
    PhaseOf(sys, ev.id).Rewarding? && OfTenant(s, reqs(ev.id), tenant) && Violations(slot) > 0
    ==> IsRoot(ev.env.root, Violations(slot))
  }

  lemma EarnedOffends(slot: Slot<Record>, n: nat)
    requires Earned(slot, n)
    ensures Violations(slot) >= 9
  {
  }

  lemma RewardEarns(slot: Slot<Record>, now: nat, root: Root, n: nat)
    requires Earned(slot, n) && IsRoot(root, Violations(slot))
    ensures Earned(Updated(slot, false, now, root), n + 1)
  {
    ReputationRuns.RewardIsTiny(slot.hash, now, root);
    assert 0.001 / root >= 0.0;
    assert (n + 1) as real * GAIN == n as real * GAIN + GAIN;
  }

  lemma PunishmentForfeits(slot: Slot<Record>, now: nat, root: Root, n: nat, left: nat)
    requires Earned(slot, n) && left + 1 >= n
    ensures Earned(Updated(slot, true, now, root), left)
  {
    assert BaseImpact(slot.hash.good) * 2.0 >= 0.1;
    assert (left + 1) as real * GAIN == left as real * GAIN + GAIN;
    assert n as real * GAIN <= (left + 1) as real * GAIN;
    assert left as real * GAIN >= 0.0;
  }

  lemma OneAtMost<T>(before: set<T>, after: set<T>, x: T)
    requires before - {x} <= after
    ensures |after| + 1 >= |before|
  {
    SubsetSize(before - {x}, after);
    assert |before - {x}| >= |before| - 1;
  }

  lemma StepOwed(s: Settings, reqs: Requests, sys: System, ev: Event, tenant: string)
    requires Orderly(s, reqs, sys) && StampsLead(sys) && Owed(s, reqs, sys, tenant)
    requires Recorded(s, reqs, sys, ev, tenant) && TrueRoot(s, reqs, sys, ev, tenant)
    ensures Owed(s, reqs, Step(s, reqs, sys, ev), tenant)
  {
    hide Advance, Standing, Orderly, StampsLead, Updated, RecordKey, Classify, Earned;
    var p := PhaseOf(sys, ev.id);
    var next := Step(s, reqs, sys, ev);
    StepStanding(s, reqs, sys, ev, tenant);
    RecordFrame(s, reqs(ev.id), sys.world, p, ev.env, tenant);
    var before, after := Standing(s, reqs, sys, tenant), Standing(s, reqs, next, tenant);
    var slot := RecordOf(sys.world, tenant);
    if OfTenant(s, reqs(ev.id), tenant) && p.Rewarding? {
      EarnedOffends(slot, |before|);
      RewardEarns(slot, ev.env.now, ev.env.root, |before|);
      assert |after| == |before| + 1;
    } else if OfTenant(s, reqs(ev.id), tenant) && p.Punishing? {
      OneAtMost(before, after, (TenantTier, ev.id));
      PunishmentForfeits(slot, ev.env.now, ev.env.root, |before|, |after|);
    }
  }

  ghost predicate AllTrueRoots(s: Settings, reqs: Requests, sys: System, trace: seq<Event>, tenant: string)
    decreases |trace|
  {
    trace == [] ||
    (&& TrueRoot(s, reqs, sys, trace[0], tenant)
     && AllTrueRoots(s, reqs, Step(s, reqs, sys, trace[0]), trace[1..], tenant))
  }

  lemma {:induction false} ScoreIsOwed(s: Settings, reqs: Requests, sys: System, trace: seq<Event>, tenant: string)
    requires Orderly(s, reqs, sys) && StampsLead(sys) && Owed(s, reqs, sys, tenant)
    requires AllRecorded(s, reqs, sys, trace, tenant) && AllTrueRoots(s, reqs, sys, trace, tenant)
    ensures
      var end := Play(s, reqs, sys, trace);
      StampsLead(end) && Owed(s, reqs, end, tenant)
    decreases |trace|
  {
    hide Advance, Orderly, StampsLead, Owed, Recorded, TrueRoot;
    if trace != [] {
      StepOrderly(s, reqs, sys, trace[0]);
      StepStampsLead(s, reqs, sys, trace[0]);
      StepOwed(s, reqs, sys, trace[0], tenant);
      ScoreIsOwed(s, reqs, Step(s, reqs, sys, trace[0]), trace[1..], tenant);
    }
  }

  /** The tenant's limited requests that reached the backend. */
  ghost function ForwardedOf(s: Settings, reqs: Requests, sys: System, tenant: string): set<nat> {
    set id | id in sys.phases && OfTenant(s, reqs(id), tenant) && sys.phases[id].Done?
        && sys.phases[id].outcome.Forwarded?
  }

  function Tagged(ids: set<nat>, tier: Tier): set<(Tier, nat)> {
    set id | id in ids :: (tier, id)
  }

  lemma {:induction false} TaggedSize(ids: set<nat>, tier: Tier)
    ensures |Tagged(ids, tier)| == |ids|
  {
    if ids != {} {
      var x: nat := Pick(ids);
      TaggedSize(ids - {x}, tier);
      assert Tagged(ids, tier) == Tagged(ids - {x}, tier) + {(tier, x)};
    } else {
      assert Tagged(ids, tier) == {};
    }
  }

  /** Once everything is answered, each forwarded request stands for at most two credits. */
  lemma StandingAtRest(s: Settings, reqs: Requests, sys: System, tenant: string)
    requires StampsLead(sys) && forall id | id in sys.phases :: sys.phases[id].Done?
    ensures |Standing(s, reqs, sys, tenant)| <= 2 * |ForwardedOf(s, reqs, sys, tenant)|
  {
    var sent := ForwardedOf(s, reqs, sys, tenant);
    var most := Tagged(sent, TenantTier) + Tagged(sent, EndpointTier);
    hide OfTenant;
    forall t | t in Standing(s, reqs, sys, tenant)
      ensures t in most
    {
      assert t in sys.stamps && Onward(PhaseOf(sys, t.1), t.0);
    }
    SubsetSize(Standing(s, reqs, sys, tenant), most);
    TaggedSize(sent, TenantTier);
    TaggedSize(sent, EndpointTier);
    UnionSize(Tagged(sent, TenantTier), Tagged(sent, EndpointTier));
  }

  lemma UnionSize<T>(a: set<T>, b: set<T>)
    ensures |a + b| <= |a| + |b|
  {
    assert |a + b| + |a * b| == |a| + |b|;
  }

  /**
   * The chain rewards a forwarded request once per tier in force. So under every interleaving, and with any number
   * of 429s in between, a tenant at score 0 with nine violations is still at or below the threshold after up to 450
   * forwarded requests.
   */
  lemma {:induction false} BanOutlasts450Forwards(s: Settings, reqs: Requests, w: World, trace: seq<Event>,
                                                  tenant: string)
    requires ReputationRuns.Banished(RecordOf(w, tenant))
    requires AllRecorded(s, reqs, Quiet(w), trace, tenant) && AllTrueRoots(s, reqs, Quiet(w), trace, tenant)
    requires var end := Play(s, reqs, Quiet(w), trace);
             && (forall id | id in end.phases :: end.phases[id].Done?)
             && |ForwardedOf(s, reqs, end, tenant)| <= 450
    ensures ScoreOf(RecordOf(Play(s, reqs, Quiet(w), trace).world, tenant)) <= THRESHOLD
  {
    var end := Play(s, reqs, Quiet(w), trace);
    assert Orderly(s, reqs, Quiet(w)) && StampsLead(Quiet(w));
    hide Advance, Orderly, StampsLead, OfTenant;
    assert Standing(s, reqs, Quiet(w), tenant) == {};
    ScoreIsOwed(s, reqs, Quiet(w), trace, tenant);
    StandingAtRest(s, reqs, end, tenant);
    assert |Standing(s, reqs, end, tenant)| as real * GAIN <= 900.0 * GAIN;
  }
}
