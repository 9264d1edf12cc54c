/** End to end: what reaches the backend obeys the limiters' bounds, under every interleaving. */
module ForwardBound {
  import opened Prelude
  import opened Config
  import opened Limits
  import opened Runs
  import opened Keys
  import opened Endpoints
  import opened Chain
  import opened Interleaving
  import opened Conservation
  import opened AdmissionLaw

  /** The limiter key and algorithm that a request consults in a phase, if any. */
  function Probe(s: Settings, req: Request, p: Phase): Option<(string, AlgoSpec)> {
    var route := Classify(s, req);
    if route.Unlimited? then None
    else
      match p
      case DryGlobal => Some((GlobalId(), s.globalLayer.algo))
      case AtGlobal => Some((GlobalId(), s.globalLayer.algo))
      case DryTenant(_) => Some((TenantId(route), s.tenantLayer.algo))
      case AtTenant => Some((TenantId(route), s.tenantLayer.algo))
      case DryEndpoint(_) => Some((EndpointId(route), route.rule.algo))
      case AtEndpoint => Some((EndpointId(route), route.rule.algo))
      case _ => None
  }

  /** This step runs a script on `key`. */
  predicate Touches(s: Settings, reqs: Requests, sys: System, ev: Event, key: string) {
    var probe := Probe(s, reqs(ev.id), PhaseOf(sys, ev.id));
    probe.Some? && probe.value.0 == key && probe.value.1.Known? && !ev.env.fault.Refused?
  }

  function CallOf(s: Settings, reqs: Requests, sys: System, ev: Event): Call
    requires Probe(s, reqs(ev.id), PhaseOf(sys, ev.id)).Some?
    requires Probe(s, reqs(ev.id), PhaseOf(sys, ev.id)).value.1.Known?
  {
    Call(Probe(s, reqs(ev.id), PhaseOf(sys, ev.id)).value.1.cfg, ev.env.now, ev.env.lapsed)
  }

  /** The calls that the trace makes on one key, in order. */
  ghost function CallsOn(s: Settings, reqs: Requests, sys: System, trace: seq<Event>, key: string): seq<Call>
    decreases |trace|
  {
    if trace == [] then []
    else (if Touches(s, reqs, sys, trace[0], key) then [CallOf(s, reqs, sys, trace[0])] else [])
         + CallsOn(s, reqs, Step(s, reqs, sys, trace[0]), trace[1..], key)
  }

  lemma RatingKeepsLimits(w: World, env: Env)
    ensures forall tenant, violation :: Rated(w, tenant, violation, env).limits == w.limits
  {
  }

  /** A step changes the limiter keys only through the check of its phase. */
  lemma LimitsFrame(s: Settings, req: Request, w: World, p: Phase, env: Env)
    ensures
      var probe := Probe(s, req, p);
      Advance(s, req, w, p, env).0.limits
        == if probe.Some? then CheckKey(w, probe.value.0, probe.value.1, env).0.limits else w.limits
  {
    hide CheckKey, Rated, ScoreRead, Classify, GlobalId, TenantId, EndpointId, TenantEntry, Entrance;
    RatingKeepsLimits(w, env);
  }

  /** One key sees exactly its own calls. */
  lemma KeyFrame(s: Settings, reqs: Requests, sys: System, ev: Event, key: string)
    ensures
      EntryAt(Step(s, reqs, sys, ev).world.limits, key) ==
        if Touches(s, reqs, sys, ev, key) then After(EntryAt(sys.world.limits, key), CallOf(s, reqs, sys, ev))
        else EntryAt(sys.world.limits, key)
  {
    hide Advance, After, Answer, Probe;
    LimitsFrame(s, reqs(ev.id), sys.world, PhaseOf(sys, ev.id), ev.env);
  }

  /** A tier rewards a request only when its limiter has just answered with 1. */
  lemma RewardIsEarned(s: Settings, req: Request, w: World, p: Phase, env: Env)
    requires Proper(s, req, p)
    ensures
      var p', route := Advance(s, req, w, p, env).1, Classify(s, req);
      p'.Rewarding? ==>
        && p == Gate(p'.tier) && !p'.tier.GlobalTier? && route.Limited?
        && CheckKey(w, KeyFor(p'.tier, route), AlgoFor(s, p'.tier, route), env).1.Allowed?
  {
    hide CheckKey, Rated, ScoreRead, FirstMatch, GlobalId, TenantId, EndpointId;
  }

  /** A stamp is only given to a request that its tier's script has just answered with 1. */
  lemma StampFrame(s: Settings, reqs: Requests, sys: System, ev: Event)
    requires Orderly(s, reqs, sys)
    ensures
      var next := Step(s, reqs, sys, ev);
      var p, route := PhaseOf(next, ev.id), Classify(s, reqs(ev.id));
      next.stamps == sys.stamps ||
      (&& p.Rewarding? && !p.tier.GlobalTier? && route.Limited?
       && (p.tier, ev.id) !in sys.stamps && next.stamps == sys.stamps[(p.tier, ev.id) := ev.env.now]
       && Touches(s, reqs, sys, ev, KeyFor(p.tier, route))
       && Answer(EntryAt(sys.world.limits, KeyFor(p.tier, route)), CallOf(s, reqs, sys, ev)).allowed)
  {
    hide Advance, After, Answer, Classify, GlobalId, TenantId, EndpointId, EntryAt;
    var p := PhaseOf(sys, ev.id);
    assert Proper(s, reqs(ev.id), p);
    RewardIsEarned(s, reqs(ev.id), sys.world, p, ev.env);
    StampIsNew(s, reqs, sys, ev);
  }

  /** Interleaving is invisible to a key: it ends up as its own calls alone would leave it. */
  lemma {:induction false} KeyIsIsolated(s: Settings, reqs: Requests, sys: System, trace: seq<Event>, key: string)
    ensures EntryAt(Play(s, reqs, sys, trace).world.limits, key)
         == Final(EntryAt(sys.world.limits, key), CallsOn(s, reqs, sys, trace, key))
    decreases |trace|
  {
    if trace != [] {
      var ev := trace[0];
      var next := Step(s, reqs, sys, ev);
      KeyFrame(s, reqs, sys, ev, key);
      CallsStep(s, reqs, sys, trace, key);
      hide Step, After, Touches, CallOf;
      KeyIsIsolated(s, reqs, next, trace[1..], key);
    }
  }

  /** What the chain is told by each check that runs a script on the key, in order; it branches on nothing else. */
  ghost function VerdictsOn(s: Settings, reqs: Requests, sys: System, trace: seq<Event>, key: string): seq<CheckResult>
    decreases |trace|
  {
    if trace == [] then []
    else (if Touches(s, reqs, sys, trace[0], key) then [Verdict(s, reqs, sys, trace[0])] else [])
         + VerdictsOn(s, reqs, Step(s, reqs, sys, trace[0]), trace[1..], key)
  }

  ghost function Verdict(s: Settings, reqs: Requests, sys: System, ev: Event): CheckResult
    requires Probe(s, reqs(ev.id), PhaseOf(sys, ev.id)).Some?
  {
    var (key, algo) := Probe(s, reqs(ev.id), PhaseOf(sys, ev.id)).value;
    CheckKey(sys.world, key, algo, ev.env).1
  }

  /** Which of those replies were lost on the way back. */
  ghost function LostOn(s: Settings, reqs: Requests, sys: System, trace: seq<Event>, key: string): seq<bool>
    decreases |trace|
  {
    if trace == [] then []
    else (if Touches(s, reqs, sys, trace[0], key) then [trace[0].env.fault.ReplyLost?] else [])
         + LostOn(s, reqs, Step(s, reqs, sys, trace[0]), trace[1..], key)
  }

  function Heard(replies: seq<Reply>, lost: seq<bool>): seq<CheckResult>
    requires |replies| == |lost|
  {
    if replies == [] then []
    else [if lost[0] then Failed else if replies[0].allowed then Allowed else Denied] + Heard(replies[1..], lost[1..])
  }

  lemma VerdictIsAnswer(s: Settings, reqs: Requests, sys: System, ev: Event, key: string)
    requires Touches(s, reqs, sys, ev, key)
    ensures
      Verdict(s, reqs, sys, ev) ==
        if ev.env.fault.ReplyLost? then Failed
        else if Answer(EntryAt(sys.world.limits, key), CallOf(s, reqs, sys, ev)).allowed then Allowed else Denied
  {
    hide Answer, After, Probe, EntryAt;
  }

  lemma HeardStep(replies: seq<Reply>, lost: seq<bool>, r: Reply, l: bool)
    requires |replies| == |lost|
    ensures Heard([r] + replies, [l] + lost)
         == [if l then Failed else if r.allowed then Allowed else Denied] + Heard(replies, lost)
  {
    assert ([r] + replies)[1..] == replies && ([l] + lost)[1..] == lost;
  }

  /** The verdicts and losses of a trace, one event at a time. */
  lemma VerdictsStep(s: Settings, reqs: Requests, sys: System, trace: seq<Event>, key: string)
    requires trace != []
    ensures
      var ev, rest := trace[0], trace[1..];
      var next := Step(s, reqs, sys, ev);
      && VerdictsOn(s, reqs, sys, trace, key)
         == (if Touches(s, reqs, sys, ev, key) then [Verdict(s, reqs, sys, ev)] + VerdictsOn(s, reqs, next, rest, key)
             else VerdictsOn(s, reqs, next, rest, key))
      && LostOn(s, reqs, sys, trace, key)
         == (if Touches(s, reqs, sys, ev, key) then [ev.env.fault.ReplyLost?] + LostOn(s, reqs, next, rest, key)
             else LostOn(s, reqs, next, rest, key))
  {
    hide Step, Touches, Verdict;
  }

  lemma RepliesStep(e: Entry, calls: seq<Call>)
    requires calls != []
    ensures Replies(e, calls) == [Answer(e, calls[0])] + Replies(After(e, calls[0]), calls[1..])
  {
    hide Answer, After;
  }

  /** What the chain is told on a key are the replies of the key's own calls, as if they were made alone. */
  lemma {:induction false} VerdictsAreProjected(s: Settings, reqs: Requests, sys: System, trace: seq<Event>,
                                                key: string)
    ensures
      var replies := Replies(EntryAt(sys.world.limits, key), CallsOn(s, reqs, sys, trace, key));
      var lost := LostOn(s, reqs, sys, trace, key);
      |replies| == |lost| && VerdictsOn(s, reqs, sys, trace, key) == Heard(replies, lost)
    decreases |trace|
  {
    if trace != [] {
      hide Step, After, Answer, Touches, CallOf, Verdict, EntryAt, CallsOn, Heard, Replies, LostOn, VerdictsOn;
      var ev, e := trace[0], EntryAt(sys.world.limits, key);
      var next, calls := Step(s, reqs, sys, ev), CallsOn(s, reqs, sys, trace, key);
      var replies := Replies(EntryAt(next.world.limits, key), CallsOn(s, reqs, next, trace[1..], key));
      var lost := LostOn(s, reqs, next, trace[1..], key);
      KeyFrame(s, reqs, sys, ev, key);
      CallsStep(s, reqs, sys, trace, key);
      VerdictsStep(s, reqs, sys, trace, key);
      VerdictsAreProjected(s, reqs, next, trace[1..], key);
      if Touches(s, reqs, sys, ev, key) {
        VerdictIsAnswer(s, reqs, sys, ev, key);
        RepliesStep(e, calls);
        HeardStep(replies, lost, Answer(e, calls[0]), ev.env.fault.ReplyLost?);
      }
    }
  }

  /** Request `id` is limited by `tier` under `key`. */
  ghost predicate OnKey(s: Settings, reqs: Requests, tier: Tier, key: string, id: nat) {
    var route := Classify(s, reqs(id));
    route.Limited? && KeyFor(tier, route) == key
  }

  /** Requests that `tier` admitted on `key` at some instant in `[from, to]`. */
  ghost function Passed(s: Settings, reqs: Requests, sys: System, tier: Tier, key: string, from: int,
                        to: int): set<nat> {
    set t | t in sys.stamps && t.0 == tier && OnKey(s, reqs, tier, key, t.1) && from <= sys.stamps[t] <= to :: t.1
  }

  lemma PassedIs(s: Settings, reqs: Requests, sys: System, tier: Tier, key: string, from: int, to: int, id: nat)
    ensures id in Passed(s, reqs, sys, tier, key, from, to) <==>
            (tier, id) in sys.stamps && OnKey(s, reqs, tier, key, id) && from <= sys.stamps[(tier, id)] <= to
  {
    assert (tier, id).1 == id;
  }

  /** A fresh mark adds its request if it is a mark of this tier on this key within the interval, and nothing else. */
  lemma FreshMark(s: Settings, reqs: Requests, sys: System, next: System, mark: (Tier, nat), now: nat,
                  tier: Tier, key: string, from: int, to: int)
    requires mark !in sys.stamps && next.stamps == sys.stamps[mark := now]
    ensures
      var before, after := Passed(s, reqs, sys, tier, key, from, to), Passed(s, reqs, next, tier, key, from, to);
      var counts := mark.0 == tier && OnKey(s, reqs, tier, key, mark.1) && from <= now <= to;
      && after == (if counts then before + {mark.1} else before)
      && (counts ==> mark.1 !in before)
  {
    hide OnKey, Passed;
    forall id: nat
      ensures id in Passed(s, reqs, sys, tier, key, from, to) <==>
              (tier, id) in sys.stamps && OnKey(s, reqs, tier, key, id) && from <= sys.stamps[(tier, id)] <= to
      ensures id in Passed(s, reqs, next, tier, key, from, to) <==>
              (tier, id) in next.stamps && OnKey(s, reqs, tier, key, id) && from <= next.stamps[(tier, id)] <= to
    {
      PassedIs(s, reqs, sys, tier, key, from, to, id);
      PassedIs(s, reqs, next, tier, key, from, to, id);
    }
    assert mark == (mark.0, mark.1);
  }

  lemma StepPassed(s: Settings, reqs: Requests, sys: System, ev: Event, tier: Tier, key: string, from: int, to: int)
    requires Orderly(s, reqs, sys)
    ensures
      var before := Passed(s, reqs, sys, tier, key, from, to);
      var after := Passed(s, reqs, Step(s, reqs, sys, ev), tier, key, from, to);
      if after == before then true
      else
        && after == before + {ev.id} && ev.id !in before && from <= ev.env.now <= to
        && Touches(s, reqs, sys, ev, key)
        && Answer(EntryAt(sys.world.limits, key), CallOf(s, reqs, sys, ev)).allowed
  {
    StampFrame(s, reqs, sys, ev);
    var next := Step(s, reqs, sys, ev);
    hide Step, Orderly, Answer, Classify, Touches, CallOf, KeyFor;
    if next.stamps == sys.stamps {
      assert Passed(s, reqs, next, tier, key, from, to) == Passed(s, reqs, sys, tier, key, from, to);
    } else {
      hide Passed;
      FreshMark(s, reqs, sys, next, (PhaseOf(next, ev.id).tier, ev.id), ev.env.now, tier, key, from, to);
    }
  }

  /** Never more requests passed than the key's script admitted in the interval. */
  lemma {:induction false} PassedWithinLog(s: Settings, reqs: Requests, sys: System, trace: seq<Event>,
                                           tier: Tier, key: string, from: int, to: int)
    requires Orderly(s, reqs, sys)
    ensures
      |Passed(s, reqs, Play(s, reqs, sys, trace), tier, key, from, to)|
      <= |Passed(s, reqs, sys, tier, key, from, to)|
         + Admitted(EntryAt(sys.world.limits, key), CallsOn(s, reqs, sys, trace, key), from, to)
    decreases |trace|
  {
    hide Advance, Step, Orderly, After, Answer, Passed, Touches, CallOf, EntryAt;
    if trace != [] {
      var ev := trace[0];
      var next := Step(s, reqs, sys, ev);
      StepOrderly(s, reqs, sys, ev);
      StepPassed(s, reqs, sys, ev, tier, key, from, to);
      KeyFrame(s, reqs, sys, ev, key);
      PassedWithinLog(s, reqs, next, trace[1..], tier, key, from, to);
      CallsStep(s, reqs, sys, trace, key);
    }
  }

  lemma CallsStep(s: Settings, reqs: Requests, sys: System, trace: seq<Event>, key: string)
    requires trace != []
    ensures
      var calls, rest := CallsOn(s, reqs, sys, trace, key),
          CallsOn(s, reqs, Step(s, reqs, sys, trace[0]), trace[1..], key);
      if Touches(s, reqs, sys, trace[0], key)
      then
        && calls != [] && calls[0] == CallOf(s, reqs, sys, trace[0]) && calls[0].now == trace[0].env.now
        && calls[1..] == rest
      else calls == rest
  {
    hide Step, Touches;
  }

  // ----- what is forwarded has been admitted -----

  /** Every layer in use is fully configured, and the limiter enforces. */
  predicate Enforcing(s: Settings) {
    && !s.dryRun
    && (s.tenantLayer.enabled ==> s.tenantLayer.algo.Known?)
    && (s.globalLayer.enabled ==> s.globalLayer.algo.Known?)
    && forall i | 0 <= i < |s.rules| && !s.rules[i].bypass :: s.rules[i].algo.Known?
  }

  /** The store answers the requests under the key. */
  ghost predicate StoreUp(s: Settings, reqs: Requests, trace: seq<Event>, tier: Tier, key: string) {
    forall i | 0 <= i < |trace| && OnKey(s, reqs, tier, key, trace[i].id) :: trace[i].env.fault.Works?
  }

  /** Phases a request can be in once `tier` has stamped it. */
  predicate Onward(p: Phase, tier: Tier) {
    match tier
    case GlobalTier => false
    case TenantTier =>
      p.AtEndpoint? || p.Rewarding? || p == Punishing(EndpointTier) || p.Forwarding?
      || p == Done(Rejected(EndpointTier)) || (p.Done? && p.outcome.Forwarded?)
    case EndpointTier => p == Rewarding(EndpointTier) || p.Forwarding? || (p.Done? && p.outcome.Forwarded?)
  }

  /** The tiers that judge every limited request. */
  predicate InForce(s: Settings, tier: Tier) {
    tier.EndpointTier? || (tier.TenantTier? && s.tenantLayer.enabled)
  }

  /** The tier whose check a request is about to make. */
  function GateOf(p: Phase): Option<Tier> {
    match p
    case AtGlobal => Some(GlobalTier)
    case AtTenant => Some(TenantTier)
    case AtEndpoint => Some(EndpointTier)
    case _ => None
  }

  /**
   * In this step the check of `tier` fails, or the check of any tier panics: the ways to pass `tier` without
   * its consent.
   */
  ghost predicate Excuses(s: Settings, reqs: Requests, sys: System, ev: Event, tier: Tier) {
    var route, gate := Classify(s, reqs(ev.id)), GateOf(PhaseOf(sys, ev.id));
    && route.Limited? && gate.Some?
    && var r := CheckKey(sys.world, KeyFor(gate.value, route), AlgoFor(s, gate.value, route), ev.env).1;
       r.Panicked? || (r.Failed? && gate.value == tier)
  }

  /** Requests that fail open past `tier` somewhere in the trace. */
  ghost function Excused(s: Settings, reqs: Requests, sys: System, trace: seq<Event>, tier: Tier): set<nat>
    decreases |trace|
  {
    if trace == [] then {}
    else (if Excuses(s, reqs, sys, trace[0], tier) then {trace[0].id} else {})
         + Excused(s, reqs, Step(s, reqs, sys, trace[0]), trace[1..], tier)
  }

  /** Outside dry run, and past the tier only if that has been cleared. */
  predicate Covered(p: Phase, tier: Tier, cleared: bool) {
    !p.DryGlobal? && !p.DryTenant? && !p.DryEndpoint? && (Onward(p, tier) ==> cleared)
  }

  /** Every limited request past the tier has its stamp or is one of `past`. */
  ghost predicate Cleared(s: Settings, reqs: Requests, sys: System, tier: Tier, past: set<nat>) {
    forall id: nat | Classify(s, reqs(id)).Limited? ::
        Covered(PhaseOf(sys, id), tier, (tier, id) in sys.stamps || id in past)
  }

  lemma {:induction false} MatchedRuleIsConfigured(rules: seq<Rule>, path: string, method_: string)
    requires FirstMatch(rules, path, method_).Some?
    ensures exists i :: 0 <= i < |rules| && rules[i] == FirstMatch(rules, path, method_).value
  {
    if !Matches(rules[0], path, method_) {
      MatchedRuleIsConfigured(rules[1..], path, method_);
      var i :| 0 <= i < |rules[1..]| && rules[1..][i] == FirstMatch(rules[1..], path, method_).value;
      assert rules[i + 1] == FirstMatch(rules, path, method_).value;
    }
  }

  lemma LimitedRuleIsKnown(s: Settings, req: Request)
    requires Enforcing(s) && Classify(s, req).Limited?
    ensures Classify(s, req).rule.algo.Known?
  {
    MatchedRuleIsConfigured(s.rules, req.path, req.method_);
  }

  lemma GateCovered(s: Settings, reqs: Requests, sys: System, ev: Event, tier: Tier, cleared: bool)
    requires !s.dryRun && InForce(s, tier) && Classify(s, reqs(ev.id)).Limited?
    requires Covered(PhaseOf(sys, ev.id), tier, cleared) && GateOf(PhaseOf(sys, ev.id)).Some?
    ensures
      var p' := Advance(s, reqs(ev.id), sys.world, PhaseOf(sys, ev.id), ev.env).1;
      Covered(p', tier, cleared || p' == Rewarding(tier) || Excuses(s, reqs, sys, ev, tier))
  {
    hide CheckKey, Rated, ScoreRead, Classify, GlobalId, TenantId, EndpointId;
  }

  lemma ElsewhereCovered(s: Settings, req: Request, w: World, p: Phase, env: Env, tier: Tier, cleared: bool)
    requires !s.dryRun && InForce(s, tier) && Classify(s, req).Limited? && Proper(s, req, p)
    requires Covered(p, tier, cleared) && GateOf(p).None?
    ensures Covered(Advance(s, req, w, p, env).1, tier, cleared)
  {
    hide CheckKey, Rated, ScoreRead, Classify, GlobalId, TenantId, EndpointId;
    assert p.Rewarding? ==> !p.tier.GlobalTier?;
    hide Proper;
  }

  lemma StepCleared(s: Settings, reqs: Requests, sys: System, ev: Event, tier: Tier, past: set<nat>)
    requires Orderly(s, reqs, sys) && !s.dryRun && InForce(s, tier) && Cleared(s, reqs, sys, tier, past)
    ensures Cleared(s, reqs, Step(s, reqs, sys, ev), tier,
                    past + if Excuses(s, reqs, sys, ev, tier) then {ev.id} else {})
  {
    var p := PhaseOf(sys, ev.id);
    var cleared := (tier, ev.id) in sys.stamps || ev.id in past;
    assert Proper(s, reqs(ev.id), p);
    hide Advance, Classify, Orderly, Covered, Proper, Excuses;
    if Classify(s, reqs(ev.id)).Limited? {
      if GateOf(p).Some? {
        GateCovered(s, reqs, sys, ev, tier, cleared);
      } else {
        ElsewhereCovered(s, reqs(ev.id), sys.world, p, ev.env, tier, cleared);
      }
      CoveredMono(PhaseOf(Step(s, reqs, sys, ev), ev.id), tier);
    }
    DoneStays(s, reqs, sys, ev);
  }

  lemma CoveredMono(p: Phase, tier: Tier)
    ensures Covered(p, tier, false) ==> Covered(p, tier, true)
  {
  }

  lemma {:induction false} AllCleared(s: Settings, reqs: Requests, sys: System, trace: seq<Event>, tier: Tier,
                                      past: set<nat>)
    requires Orderly(s, reqs, sys) && !s.dryRun && InForce(s, tier) && Cleared(s, reqs, sys, tier, past)
    ensures Cleared(s, reqs, Play(s, reqs, sys, trace), tier, past + Excused(s, reqs, sys, trace, tier))
    decreases |trace|
  {
    if trace != [] {
      hide Step, Cleared, Orderly, Excuses, InForce;
      var ev := trace[0];
      var more := past + if Excuses(s, reqs, sys, ev, tier) then {ev.id} else {};
      StepOrderly(s, reqs, sys, ev);
      StepCleared(s, reqs, sys, ev, tier, past);
      AllCleared(s, reqs, Step(s, reqs, sys, ev), trace[1..], tier, more);
      assert past + Excused(s, reqs, sys, trace, tier)
             == more + Excused(s, reqs, Step(s, reqs, sys, ev), trace[1..], tier);
    } else {
      assert past + Excused(s, reqs, sys, trace, tier) == past;
    }
  }

  lemma AnsweredIsNoExcuse(s: Settings, reqs: Requests, sys: System, ev: Event, tier: Tier)
    requires Orderly(s, reqs, sys) && Enforcing(s) && ev.env.fault.Works?
    requires PhaseOf(sys, ev.id).AtTenant? ==> s.tenantLayer.enabled
    requires PhaseOf(sys, ev.id).AtGlobal? ==> s.globalLayer.enabled
    ensures !Excuses(s, reqs, sys, ev, tier)
  {
    hide After, Answer, Classify, GlobalId, TenantId, EndpointId, Orderly;
    if Classify(s, reqs(ev.id)).Limited? {
      LimitedRuleIsKnown(s, reqs(ev.id));
    }
  }

  /** No layer that is switched off is about to be asked. */
  ghost predicate AsksInUse(s: Settings, sys: System) {
    forall id: nat :: InUse(s, PhaseOf(sys, id))
  }

  predicate InUse(s: Settings, p: Phase) {
    && (p.AtGlobal? || p.AtReputation? ==> s.globalLayer.enabled)
    && (p.AtTenant? || p == Rewarding(TenantTier) ==> s.tenantLayer.enabled)
  }

  lemma PhaseStaysInUse(s: Settings, req: Request, w: World, p: Phase, env: Env)
    requires InUse(s, p)
    ensures InUse(s, Advance(s, req, w, p, env).1)
  {
    hide CheckKey, Rated, ScoreRead, Classify, GlobalId, TenantId, EndpointId;
  }

  lemma StepAsksInUse(s: Settings, reqs: Requests, sys: System, ev: Event)
    requires AsksInUse(s, sys)
    ensures AsksInUse(s, Step(s, reqs, sys, ev))
  {
    assert InUse(s, PhaseOf(sys, ev.id));
    hide Advance;
    PhaseStaysInUse(s, reqs(ev.id), sys.world, PhaseOf(sys, ev.id), ev.env);
    DoneStays(s, reqs, sys, ev);
  }

  /** While the store answers a key's requests and every layer is configured, none of them fails open. */
  lemma {:induction false} NoExcuseWhileAnswered(s: Settings, reqs: Requests, sys: System, trace: seq<Event>,
                                                 tier: Tier, key: string)
    requires Orderly(s, reqs, sys) && AsksInUse(s, sys) && Enforcing(s) && StoreUp(s, reqs, trace, tier, key)
    ensures forall id | id in Excused(s, reqs, sys, trace, tier) :: !OnKey(s, reqs, tier, key, id)
    decreases |trace|
  {
    if trace != [] {
      var ev := trace[0];
      assert InUse(s, PhaseOf(sys, ev.id));
      hide Step, Orderly, Excuses, AsksInUse, Enforcing, OnKey;
      if OnKey(s, reqs, tier, key, ev.id) {
        AnsweredIsNoExcuse(s, reqs, sys, ev, tier);
      }
      StepOrderly(s, reqs, sys, ev);
      StepAsksInUse(s, reqs, sys, ev);
      NoExcuseWhileAnswered(s, reqs, Step(s, reqs, sys, ev), trace[1..], tier, key);
    }
  }

  /** Requests forwarded under a limiter key of `tier`. */
  ghost function ForwardedOn(s: Settings, reqs: Requests, sys: System, tier: Tier, key: string): set<nat> {
    set id | id in sys.phases && sys.phases[id].Done? && sys.phases[id].outcome.Forwarded?
        && OnKey(s, reqs, tier, key, id)
  }

  /** Those of them that the tier admitted in `[from, to]`. */
  ghost function ForwardedIn(s: Settings, reqs: Requests, sys: System, tier: Tier, key: string, from: int,
                             to: int): set<nat> {
    set id | id in ForwardedOn(s, reqs, sys, tier, key) && (tier, id) in sys.stamps
        && from <= sys.stamps[(tier, id)] <= to
  }

  /**
   * Under every interleaving and whatever fails: every forwarded request was admitted by each tier in force, unless
   * its check by that tier failed or a check of it panicked.
   */
  lemma {:induction false} ForwardedAreAdmitted(s: Settings, reqs: Requests, w: World, trace: seq<Event>, tier: Tier,
                                                key: string)
    requires !s.dryRun && InForce(s, tier)
    ensures
      var end := Play(s, reqs, Quiet(w), trace);
      && (forall id | id in ForwardedOn(s, reqs, end, tier, key) ::
            (tier, id) in end.stamps || id in Excused(s, reqs, Quiet(w), trace, tier))
      && (Enforcing(s) && StoreUp(s, reqs, trace, tier, key) ==>
            forall id | id in ForwardedOn(s, reqs, end, tier, key) :: (tier, id) in end.stamps)
  {
    StandingStart(s, reqs, w, tier, key, 0, 0);
    hide Play, Orderly, Cleared, Excused, Enforcing, StoreUp, AsksInUse, InForce, OnKey, Quiet;
    AllCleared(s, reqs, Quiet(w), trace, tier, {});
    var end := Play(s, reqs, Quiet(w), trace);
    ForwardedAreCleared(s, reqs, end, tier, key, {} + Excused(s, reqs, Quiet(w), trace, tier));
    if Enforcing(s) && StoreUp(s, reqs, trace, tier, key) {
      NoExcuseWhileAnswered(s, reqs, Quiet(w), trace, tier, key);
    }
  }

  /**
   * Under every interleaving and whatever fails: the forwarded requests that were admitted on one key in [from, to] are
   * as many as the one configuration that the key sees allows, expiry included.
   */
  lemma {:induction false} ForwardedIsLawful(s: Settings, reqs: Requests, w: World, trace: seq<Event>,
                                             tier: Tier, key: string, cfg: Policy, from: nat, to: nat)
    requires from <= to && key !in w.limits
    requires var calls := CallsOn(s, reqs, Quiet(w), trace, key);
             cfg.Valid() && Uses(cfg, calls) && Ordered(0, calls) && Feasible(BLANK, calls)
    ensures Lawful(cfg, |ForwardedIn(s, reqs, Play(s, reqs, Quiet(w), trace), tier, key, from, to)|, from, to)
  {
    StandingStart(s, reqs, w, tier, key, from, to);
    hide Play, CallsOn, Orderly, Cleared, Passed, ForwardedIn, ForwardedOn;
    hide Lawful, Feasible, Ordered, Uses, Admitted, Quiet, EntryAt;
    var end := Play(s, reqs, Quiet(w), trace);
    SentArePassed(s, reqs, end, tier, key, from, to);
    PassedWithinLog(s, reqs, Quiet(w), trace, tier, key, from, to);
    var calls := CallsOn(s, reqs, Quiet(w), trace, key);
    EveryAlgorithmIsLawful(cfg, calls, from, to);
    FewerIsLawful(cfg, |ForwardedIn(s, reqs, end, tier, key, from, to)|, Admitted(BLANK, calls, from, to), from, to);
  }

  lemma StandingStart(s: Settings, reqs: Requests, w: World, tier: Tier, key: string, from: int, to: int)
    ensures Orderly(s, reqs, Quiet(w)) && Cleared(s, reqs, Quiet(w), tier, {}) && AsksInUse(s, Quiet(w))
    ensures Passed(s, reqs, Quiet(w), tier, key, from, to) == {}
    ensures key !in w.limits ==> EntryAt(Quiet(w).world.limits, key) == BLANK
  {
  }

  lemma ForwardedAreCleared(s: Settings, reqs: Requests, sys: System, tier: Tier, key: string, past: set<nat>)
    requires Cleared(s, reqs, sys, tier, past) && InForce(s, tier)
    ensures forall id | id in ForwardedOn(s, reqs, sys, tier, key) ::
              OnKey(s, reqs, tier, key, id) && ((tier, id) in sys.stamps || id in past)
  {
    hide Classify, KeyFor;
    forall id | id in ForwardedOn(s, reqs, sys, tier, key)
      ensures (tier, id) in sys.stamps || id in past
    {
      assert Onward(PhaseOf(sys, id), tier);
    }
  }

  lemma SentArePassed(s: Settings, reqs: Requests, sys: System, tier: Tier, key: string, from: int, to: int)
    ensures |ForwardedIn(s, reqs, sys, tier, key, from, to)| <= |Passed(s, reqs, sys, tier, key, from, to)|
  {
    hide Classify, KeyFor;
    forall id | id in ForwardedIn(s, reqs, sys, tier, key, from, to)
      ensures id in Passed(s, reqs, sys, tier, key, from, to)
    {
      var t := (tier, id);
      assert t in sys.stamps && t.1 == id;
    }
    SubsetSize(ForwardedIn(s, reqs, sys, tier, key, from, to), Passed(s, reqs, sys, tier, key, from, to));
  }

  lemma FewerIsLawful(cfg: Policy, m: nat, n: nat, from: nat, to: nat)
    requires from <= to && m <= n && Lawful(cfg, n, from, to)
    ensures Lawful(cfg, m, from, to)
  {
    if cfg.TokenBucket? || cfg.LeakyBucket? {
      assert m * cfg.period <= n * cfg.period;
    }
  }

  lemma {:induction false} SubsetSize<T>(a: set<T>, b: set<T>)
    requires a <= b
    ensures |a| <= |b|
  {
    if a != {} {
      var x := Pick(a);
      SubsetSize(a - {x}, b - {x});
    }
  }

  lemma CallOnTenantKey(s: Settings, reqs: Requests, sys: System, ev: Event, tenant: string)
    requires s.tenantLayer.algo.Known? && Touches(s, reqs, sys, ev, ConstructKey(TenantKey(tenant)))
    ensures CallOf(s, reqs, sys, ev).cfg == s.tenantLayer.algo.cfg
  {
    hide Classify, ConstructKey, GlobalId;
    var route := Classify(s, reqs(ev.id));
    TenantKeysStandApart(tenant, route.rule.methods, route.rule.path, route.tenant);
  }

  /**
   * On a tenant's key every call comes from the tenant layer, so that layer's configuration is the only one the
   * key sees.
   */
  lemma {:induction false} TenantKeySeesOneConfig(s: Settings, reqs: Requests, sys: System, trace: seq<Event>,
                                                  tenant: string)
    requires s.tenantLayer.algo.Known?
    ensures Uses(s.tenantLayer.algo.cfg, CallsOn(s, reqs, sys, trace, ConstructKey(TenantKey(tenant))))
    decreases |trace|
  {
    hide Step, Touches, CallOf, ConstructKey;
    if trace != [] {
      TenantKeySeesOneConfig(s, reqs, Step(s, reqs, sys, trace[0]), trace[1..], tenant);
      if Touches(s, reqs, sys, trace[0], ConstructKey(TenantKey(tenant))) {
        CallOnTenantKey(s, reqs, sys, trace[0], tenant);
      }
    }
  }

  /** Methods are words and paths hold no colon. */
  predicate CleanRules(s: Settings) {
    forall i | 0 <= i < |s.rules| :: Clean(EndpointKey(s.rules[i].methods, s.rules[i].path, ""))
  }

  lemma TenantKeysStandApart(tenant: string, methods: seq<string>, path: string, other: string)
    ensures ConstructKey(TenantKey(tenant)) != GlobalId()
    ensures ConstructKey(TenantKey(tenant)) != ConstructKey(EndpointKey(methods, path, other))
    ensures ConstructKey(EndpointKey(methods, path, other)) != GlobalId()
    ensures ConstructKey(TenantKey(tenant)) == ConstructKey(TenantKey(other)) ==> tenant == other
  {
    var a := ConstructKey(TenantKey(tenant));
    var b := ConstructKey(EndpointKey(methods, path, other));
    var n := |PREFIX|;
    assert a[n] == 'p' && b[n] == 'p' && GlobalId()[n] == 'g';
    assert a[n + 3] == 't' && b[n + 3] == 'e';
    assert a[n + |"pertenant:"|..] == tenant;
    assert ConstructKey(TenantKey(other))[n + |"pertenant:"|..] == other;
  }
}
