/** Fail-open and dry-run safety over every interleaving. */
module ChainSafety {
  import opened Chain
  import opened Interleaving

  lemma {:induction false} RejectionTrail(s: Settings, reqs: Requests, sys: System, trace: seq<Event>, id: nat,
                                          tier: Tier)
    requires PhaseOf(Play(s, reqs, sys, trace), id) == Done(Rejected(tier)) && PhaseOf(sys, id) != Punishing(GlobalTier)
    ensures Doomed(PhaseOf(sys, id), tier) || TurnedAway(s, reqs, sys, trace, id, tier)
    ensures tier.GlobalTier? ==> PhaseOf(sys, id).Done? || Distrusted(s, reqs, sys, trace, id)
    decreases |trace|
  {
    if trace != [] {
      hide Advance, SaysNo, ReadsBad;
      var ev := trace[0];
      var next := Step(s, reqs, sys, ev);
      DoneStays(s, reqs, sys, ev);
      NoGlobalPunishment(s, reqs, sys, ev);
      RejectionTrail(s, reqs, next, trace[1..], id, tier);
      if ev.id == id && Doomed(PhaseOf(next, id), tier) {
        DoomIsEarned(s, reqs, sys, ev, tier);
      }
      if ev.id == id && PhaseOf(next, id).Done? && tier.GlobalTier? {
        DoneStaysDone(s, reqs, next, trace[1..], id);
        DoomIsEarned(s, reqs, sys, ev, tier);
      }
    }
  }

  lemma NoGlobalPunishment(s: Settings, reqs: Requests, sys: System, ev: Event)
    ensures PhaseOf(Step(s, reqs, sys, ev), ev.id) != Punishing(GlobalTier)
  {
    hide CheckKey, Rated, ScoreRead, Classify, GlobalId, TenantId, EndpointId;
  }

  lemma {:induction false} DoneStaysDone(s: Settings, reqs: Requests, sys: System, trace: seq<Event>, id: nat)
    requires PhaseOf(sys, id).Done?
    ensures PhaseOf(Play(s, reqs, sys, trace), id) == PhaseOf(sys, id)
    decreases |trace|
  {
    if trace != [] {
      hide Advance;
      DoneStays(s, reqs, sys, trace[0]);
      DoneStaysDone(s, reqs, Step(s, reqs, sys, trace[0]), trace[1..], id);
    }
  }

  /**
   * Whatever store calls fail and however requests interleave: a request is rejected at a tier only if that tier's
   * script ran for it and answered 0, and at the global tier only if its stored score was also read as 0.3 or less.
   */
  lemma {:induction false} RejectionIsEarned(s: Settings, reqs: Requests, w: World, trace: seq<Event>, id: nat,
                                             tier: Tier)
    requires PhaseOf(Play(s, reqs, Quiet(w), trace), id) == Done(Rejected(tier))
    ensures TurnedAway(s, reqs, Quiet(w), trace, id, tier)
    ensures tier.GlobalTier? ==> Distrusted(s, reqs, Quiet(w), trace, id)
  {
    RejectionTrail(s, reqs, Quiet(w), trace, id, tier);
  }

  ghost predicate StoreDownFor(trace: seq<Event>, id: nat) {
    forall i | 0 <= i < |trace| && trace[i].id == id :: !trace[i].env.fault.Works?
  }

  lemma {:induction false} NoAnswerNoRefusal(s: Settings, reqs: Requests, sys: System, trace: seq<Event>, id: nat,
                                             tier: Tier)
    requires StoreDownFor(trace, id)
    ensures !TurnedAway(s, reqs, sys, trace, id, tier)
    decreases |trace|
  {
    if trace != [] {
      hide Advance;
      NoAnswerNoRefusal(s, reqs, Step(s, reqs, sys, trace[0]), trace[1..], id, tier);
    }
  }

  /** A request for which the store never answers is forwarded. */
  lemma {:induction false} FailOpen(s: Settings, reqs: Requests, w: World, trace: seq<Event>, id: nat)
    requires StoreDownFor(trace, id) && OwnEvents(trace, id) >= 9
    ensures PhaseOf(Play(s, reqs, Quiet(w), trace), id).Done?
    ensures PhaseOf(Play(s, reqs, Quiet(w), trace), id).outcome.Forwarded?
  {
    RequestsFinish(s, reqs, Quiet(w), trace, id);
    var p := PhaseOf(Play(s, reqs, Quiet(w), trace), id);
    if p.outcome.Rejected? {
      RejectionIsEarned(s, reqs, w, trace, id, p.outcome.tier);
      NoAnswerNoRefusal(s, reqs, Quiet(w), trace, id, p.outcome.tier);
    }
  }

  // ----- dry run -----

  /** The phases of a request that is never judged, and is passed on once unless the proxy itself panics. */
  predicate Unjudged(p: Phase) {
    || p.Arrived? || p.DryGlobal? || p.DryTenant? || p.DryEndpoint?
    || (p.Forwarding? && p.passes == 0)
    || p == Done(Forwarded(1))
  }

  predicate ProxyHolds(trace: seq<Event>, id: nat) {
    forall i | 0 <= i < |trace| && trace[i].id == id :: !trace[i].env.proxyPanics
  }

  lemma StepUnjudged(s: Settings, reqs: Requests, sys: System, ev: Event)
    requires s.dryRun && Unjudged(PhaseOf(sys, ev.id)) && !ev.env.proxyPanics
    ensures Unjudged(PhaseOf(Step(s, reqs, sys, ev), ev.id))
  {
    hide CheckKey, Rated, ScoreRead, Classify, GlobalId, TenantId, EndpointId;
  }

  lemma {:induction false} DryRunTrail(s: Settings, reqs: Requests, sys: System, trace: seq<Event>, id: nat)
    requires s.dryRun && Unjudged(PhaseOf(sys, id)) && ProxyHolds(trace, id)
    ensures Unjudged(PhaseOf(Play(s, reqs, sys, trace), id))
    decreases |trace|
  {
    if trace != [] {
      hide Advance;
      DoneStays(s, reqs, sys, trace[0]);
      if trace[0].id == id {
        StepUnjudged(s, reqs, sys, trace[0]);
      }
      DryRunTrail(s, reqs, Step(s, reqs, sys, trace[0]), trace[1..], id);
    }
  }

  /**
   * Dry-run mode never rejects: every request is passed to the backend exactly once, also when a failed check
   * leads to a nil dereference and the recovery handler has to step in.
   */
  lemma {:induction false} DryRunForwardsOnce(s: Settings, reqs: Requests, w: World, trace: seq<Event>, id: nat)
    requires s.dryRun && ProxyHolds(trace, id) && OwnEvents(trace, id) >= 9
    ensures PhaseOf(Play(s, reqs, Quiet(w), trace), id) == Done(Forwarded(1))
  {
    RequestsFinish(s, reqs, Quiet(w), trace, id);
    DryRunTrail(s, reqs, Quiet(w), trace, id);
  }

  /** In any mode: the backend sees a request once, or twice if and only if the first pass panicked in the proxy. */
  ghost predicate Counted(p: Phase, panicked: bool) {
    match p
    case Forwarding(recovered, n) => n == (if panicked then 1 else 0) && (panicked ==> recovered)
    case Done(Forwarded(n)) => n == (if panicked then 2 else 1)
    case Done(Rejected(_)) => !panicked
    case _ => !panicked
  }

  ghost predicate FirstPassPanics(s: Settings, reqs: Requests, sys: System, trace: seq<Event>, id: nat)
    decreases |trace|
  {
    trace != [] &&
    ((trace[0].id == id && trace[0].env.proxyPanics && PhaseOf(sys, id).Forwarding? && !PhaseOf(sys, id).recovered)
     || FirstPassPanics(s, reqs, Step(s, reqs, sys, trace[0]), trace[1..], id))
  }

  lemma StepCounted(s: Settings, reqs: Requests, sys: System, ev: Event, panicked: bool)
    requires Counted(PhaseOf(sys, ev.id), panicked)
    ensures
      var p := PhaseOf(sys, ev.id);
      Counted(PhaseOf(Step(s, reqs, sys, ev), ev.id), panicked || (ev.env.proxyPanics && p.Forwarding? && !p.recovered))
  {
    hide CheckKey, Rated, ScoreRead, Classify, GlobalId, TenantId, EndpointId;
  }

  lemma {:induction false} PassesAreCounted(s: Settings, reqs: Requests, sys: System, trace: seq<Event>, id: nat,
                                            panicked: bool)
    requires Counted(PhaseOf(sys, id), panicked)
    ensures Counted(PhaseOf(Play(s, reqs, sys, trace), id), panicked || FirstPassPanics(s, reqs, sys, trace, id))
    decreases |trace|
  {
    if trace != [] {
      hide Advance, Counted;
      var ev := trace[0];
      DoneStays(s, reqs, sys, ev);
      var p := PhaseOf(sys, id);
      var now := ev.id == id && ev.env.proxyPanics && p.Forwarding? && !p.recovered;
      if ev.id == id {
        StepCounted(s, reqs, sys, ev, panicked);
      }
      PassesAreCounted(s, reqs, Step(s, reqs, sys, ev), trace[1..], id, panicked || now);
    }
  }

  lemma {:induction false} ForwardedOnceIff(s: Settings, reqs: Requests, w: World, trace: seq<Event>, id: nat)
    requires PhaseOf(Play(s, reqs, Quiet(w), trace), id).Done?
    requires PhaseOf(Play(s, reqs, Quiet(w), trace), id).outcome.Forwarded?
    ensures PhaseOf(Play(s, reqs, Quiet(w), trace), id).outcome
         == Forwarded(if FirstPassPanics(s, reqs, Quiet(w), trace, id) then 2 else 1)
  {
    PassesAreCounted(s, reqs, Quiet(w), trace, id, false);
  }

  // ----- one request at a time -----

  /** The steps of a request that has the proxy to itself. */
  ghost function SoloTrace(s: Settings, req: Request, w: World, p: Phase, plan: Phase -> Env): seq<Event>
    decreases Rank(p)
  {
    if p.Done? then []
    else
      EveryStepProgresses(s, req, w, p, plan(p));
      var (w', p') := Advance(s, req, w, p, plan(p));
      [Event(0, plan(p))] + SoloTrace(s, req, w', p', plan)
  }

  /** The recovery handler's fallback finishes what the middlewares panicked on. */
  function Landed(p: Phase): Phase {
    if p.Forwarding? then Done(Forwarded(p.passes + 1)) else p
  }

  ghost predicate FinishesAs(s: Settings, req: Request, sys: System, plan: Phase -> Env, trace: seq<Event>) {
    var end := Play(s, _ => req, sys, trace);
    var (w', p) := Until(s, req, sys.world, PhaseOf(sys, 0), plan);
    && end.world == w'
    && PhaseOf(end, 0) == Landed(p)
  }

  /** The nested middlewares are one of the interleavings. */
  lemma {:induction false} SoloRun(s: Settings, req: Request, sys: System, plan: Phase -> Env)
    ensures FinishesAs(s, req, sys, plan, SoloTrace(s, req, sys.world, PhaseOf(sys, 0), plan))
    ensures forall i | 0 <= i < |SoloTrace(s, req, sys.world, PhaseOf(sys, 0), plan)| ::
              exists p :: SoloTrace(s, req, sys.world, PhaseOf(sys, 0), plan)[i] == Event(0, plan(p))
    decreases Rank(PhaseOf(sys, 0))
  {
    hide LimitedStep, Classify;
    UntilSettles(s, req, sys.world, PhaseOf(sys, 0), plan);
    var p := PhaseOf(sys, 0);
    if !p.Done? {
      var ev := Event(0, plan(p));
      var next := Step(s, _ => req, sys, ev);
      EveryStepProgresses(s, req, sys.world, p, plan(p));
      SoloRun(s, req, next, plan);
      var trace := SoloTrace(s, req, sys.world, p, plan);
      assert trace[0] == ev && trace[1..] == SoloTrace(s, req, next.world, PhaseOf(next, 0), plan);
    }
  }

  /** Served alone in dry-run mode, a request is passed on once. */
  lemma {:induction false} DryRunServesOnce(s: Settings, req: Request, w: World, plan: Phase -> Env)
    requires s.dryRun && forall p :: !plan(p).proxyPanics
    ensures Served(s, req, w, plan).1 == Forwarded(1)
  {
    hide LimitedStep;
    var trace := SoloTrace(s, req, w, Arrived, plan);
    SoloRun(s, req, Quiet(w), plan);
    assert ProxyHolds(trace, 0);
    DryRunTrail(s, _ => req, Quiet(w), trace, 0);
    UntilSettles(s, req, w, Arrived, plan);
  }

  /** Served alone with the store down, a request is forwarded. */
  lemma {:induction false} StoreDownServes(s: Settings, req: Request, w: World, plan: Phase -> Env)
    requires forall p :: !plan(p).fault.Works?
    ensures Served(s, req, w, plan).1.Forwarded?
  {
    hide LimitedStep;
    var trace := SoloTrace(s, req, w, Arrived, plan);
    SoloRun(s, req, Quiet(w), plan);
    assert StoreDownFor(trace, 0);
    var outcome := Served(s, req, w, plan).1;
    if outcome.Rejected? {
      RejectionIsEarned(s, _ => req, w, trace, 0, outcome.tier);
      NoAnswerNoRefusal(s, _ => req, Quiet(w), trace, 0, outcome.tier);
    }
  }
}
