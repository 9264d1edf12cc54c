/** A banned tenant under sustained overload. */
module FrozenBan {
  import opened RedisDb
  import opened Runs
  import opened Reputation
  import opened Keys
  import opened Chain
  import opened Interleaving
  import opened Conservation
  import opened ForwardBound

  /** Either finished, however that went, or not yet past the global tier. */
  predicate HeldBack(p: Phase) {
    p.Arrived? || p.AtGlobal? || p == AtReputation(true) || p.Done?
  }

  /** No request of the tenant is between the global tier and its end. */
  ghost predicate AllHeldBack(s: Settings, reqs: Requests, sys: System, tenant: string) {
    forall id: nat | OfTenant(s, reqs(id), tenant) :: HeldBack(PhaseOf(sys, id))
  }

  predicate Banned(slot: Slot<Record>) {
    slot.Present? && slot.hash.score <= THRESHOLD
  }

  /**
   * The ways past the gate for a banned tenant: its global check admits, fails or panics, or its reputation
   * cannot be read.
   */
  ghost predicate Loophole(s: Settings, reqs: Requests, sys: System, ev: Event, tenant: string) {
    var p := PhaseOf(sys, ev.id);
    OfTenant(s, reqs(ev.id), tenant) &&
    ((p.AtGlobal? && !SaysNo(s, reqs, sys, ev, GlobalTier))
        || (p.AtReputation? && (!ev.env.fault.Works? || ev.env.lapsed)))
  }

  ghost predicate Leaks(s: Settings, reqs: Requests, sys: System, trace: seq<Event>, tenant: string)
    decreases |trace|
  {
    trace != [] &&
    (Loophole(s, reqs, sys, trace[0], tenant) || Leaks(s, reqs, Step(s, reqs, sys, trace[0]), trace[1..], tenant))
  }

  /**
   * A held-back request of a banned tenant gets past the gate through a loophole and in no other way; else it
   * ends rejected.
   */
  lemma {:induction false} GateHoldsIff(s: Settings, reqs: Requests, sys: System, ev: Event, tenant: string)
    requires s.globalLayer.enabled && !s.dryRun
    requires OfTenant(s, reqs(ev.id), tenant) && HeldBack(PhaseOf(sys, ev.id)) && Banned(RecordOf(sys.world, tenant))
    ensures
      var p, p' := PhaseOf(sys, ev.id), PhaseOf(Step(s, reqs, sys, ev), ev.id);
      && (!HeldBack(p') <==> Loophole(s, reqs, sys, ev, tenant))
      && (p'.Done? && !p.Done? ==> p' == Done(Rejected(GlobalTier)))
  {
    hide Answer, After, Rated, Classify, GlobalId, TenantId, EndpointId;
  }

  /** The key belongs to the tenant alone. */
  ghost predicate OwnKey(s: Settings, key: string, tenant: string) {
    key != GlobalId() &&
    forall req: Request | Classify(s, req).Limited?
        && (TenantId(Classify(s, req)) == key || EndpointId(Classify(s, req)) == key)
      :: Classify(s, req).tenant == tenant
  }

  lemma HeldBackTouchesNothing(s: Settings, reqs: Requests, sys: System, ev: Event, tenant: string, key: string)
    requires OwnKey(s, key, tenant)
    requires OfTenant(s, reqs(ev.id), tenant) ==> HeldBack(PhaseOf(sys, ev.id))
    ensures !Touches(s, reqs, sys, ev, key)
  {
    hide GlobalId, TenantId, EndpointId;
  }

  lemma FrozenStep(s: Settings, reqs: Requests, sys: System, ev: Event, tenant: string, key: string)
    requires s.globalLayer.enabled && !s.dryRun
    requires AllHeldBack(s, reqs, sys, tenant) && Banned(RecordOf(sys.world, tenant)) && OwnKey(s, key, tenant)
    ensures
      var next := Step(s, reqs, sys, ev);
      && (AllHeldBack(s, reqs, next, tenant) <==> !Loophole(s, reqs, sys, ev, tenant))
      && RecordOf(next.world, tenant) == RecordOf(sys.world, tenant)
      && EntryAt(next.world.limits, key) == EntryAt(sys.world.limits, key)
      && (OfTenant(s, reqs(ev.id), tenant) && PhaseOf(next, ev.id).Done? && !PhaseOf(sys, ev.id).Done?
          ==> PhaseOf(next, ev.id) == Done(Rejected(GlobalTier)))
  {
    if OfTenant(s, reqs(ev.id), tenant) {
      assert HeldBack(PhaseOf(sys, ev.id));
      GateHoldsIff(s, reqs, sys, ev, tenant);
    } else {
      assert !Loophole(s, reqs, sys, ev, tenant);
    }
    hide Advance, Loophole, Touches, OwnKey, OfTenant, RecordKey;
    DoneStays(s, reqs, sys, ev);
    RecordFrame(s, reqs(ev.id), sys.world, PhaseOf(sys, ev.id), ev.env, tenant);
    HeldBackTouchesNothing(s, reqs, sys, ev, tenant, key);
    KeyFrame(s, reqs, sys, ev, key);
  }

  /**
   * As long as there is no loophole, a tenant at or below the threshold gets no request past the global tier, and its
   * record, the record's expiry and every limiter key of its own stay exactly as they were. How its earlier requests
   * ended, what store calls fail and what other requests do does not matter.
   */
  lemma {:induction false} BanIsFrozen(s: Settings, reqs: Requests, sys: System, trace: seq<Event>, tenant: string,
                                       key: string)
    requires s.globalLayer.enabled && !s.dryRun && !Leaks(s, reqs, sys, trace, tenant)
    requires AllHeldBack(s, reqs, sys, tenant) && Banned(RecordOf(sys.world, tenant)) && OwnKey(s, key, tenant)
    ensures
      var end := Play(s, reqs, sys, trace);
      && AllHeldBack(s, reqs, end, tenant)
      && RecordOf(end.world, tenant) == RecordOf(sys.world, tenant)
      && EntryAt(end.world.limits, key) == EntryAt(sys.world.limits, key)
    decreases |trace|
  {
    if trace != [] {
      hide Step, Loophole, OwnKey, AllHeldBack, Banned;
      FrozenStep(s, reqs, sys, trace[0], tenant, key);
      BannedTransfers(sys, Step(s, reqs, sys, trace[0]), tenant);
      BanIsFrozen(s, reqs, Step(s, reqs, sys, trace[0]), trace[1..], tenant, key);
    }
  }

  lemma BannedTransfers(sys: System, next: System, tenant: string)
    requires RecordOf(next.world, tenant) == RecordOf(sys.world, tenant)
    ensures Banned(RecordOf(next.world, tenant)) <==> Banned(RecordOf(sys.world, tenant))
  {
  }

  /** The tenant is held back now and after every step of the trace. */
  ghost predicate HeldThroughout(s: Settings, reqs: Requests, sys: System, trace: seq<Event>, tenant: string)
    decreases |trace|
  {
    AllHeldBack(s, reqs, sys, tenant)
        && (trace == [] || HeldThroughout(s, reqs, Step(s, reqs, sys, trace[0]), trace[1..], tenant))
  }

  /** A ban holds throughout a trace if and only if the trace has no loophole. */
  lemma {:induction false} BanHoldsIff(s: Settings, reqs: Requests, sys: System, trace: seq<Event>, tenant: string)
    requires s.globalLayer.enabled && !s.dryRun && AllHeldBack(s, reqs, sys, tenant)
             && Banned(RecordOf(sys.world, tenant))
    ensures HeldThroughout(s, reqs, sys, trace, tenant) <==> !Leaks(s, reqs, sys, trace, tenant)
    decreases |trace|
  {
    if trace != [] {
      hide Step, Loophole, AllHeldBack, Banned, ConstructKey;
      var next := Step(s, reqs, sys, trace[0]);
      TenantKeyIsOwn(s, tenant);
      FrozenStep(s, reqs, sys, trace[0], tenant, ConstructKey(TenantKey(tenant)));
      BannedTransfers(sys, next, tenant);
      if AllHeldBack(s, reqs, next, tenant) {
        BanHoldsIff(s, reqs, next, trace[1..], tenant);
      } else {
        assert !HeldThroughout(s, reqs, next, trace[1..], tenant);
      }
    }
  }

  /**
   * So every unfinished request of the tenant that is given its steps while there is no loophole ends as a 429
   * of the global tier.
   */
  lemma {:induction false} BannedIsRejected(s: Settings, reqs: Requests, sys: System, trace: seq<Event>,
                                            tenant: string, id: nat)
    requires s.globalLayer.enabled && !s.dryRun && !Leaks(s, reqs, sys, trace, tenant)
    requires AllHeldBack(s, reqs, sys, tenant) && Banned(RecordOf(sys.world, tenant))
    requires OfTenant(s, reqs(id), tenant) && !PhaseOf(sys, id).Done? && OwnEvents(trace, id) >= Rank(PhaseOf(sys, id))
    ensures PhaseOf(Play(s, reqs, sys, trace), id) == Done(Rejected(GlobalTier))
  {
    RequestsFinish(s, reqs, sys, trace, id);
    EndsOnlyRejected(s, reqs, sys, trace, tenant, id);
  }

  lemma {:induction false} EndsOnlyRejected(s: Settings, reqs: Requests, sys: System, trace: seq<Event>,
                                            tenant: string, id: nat)
    requires s.globalLayer.enabled && !s.dryRun && !Leaks(s, reqs, sys, trace, tenant)
    requires AllHeldBack(s, reqs, sys, tenant) && Banned(RecordOf(sys.world, tenant)) && OfTenant(s, reqs(id), tenant)
    requires PhaseOf(sys, id).Done? ==> PhaseOf(sys, id) == Done(Rejected(GlobalTier))
    ensures
      var p := PhaseOf(Play(s, reqs, sys, trace), id);
      p.Done? ==> p == Done(Rejected(GlobalTier))
    decreases |trace|
  {
    if trace != [] {
      hide Advance, Loophole, OfTenant, RecordKey, AllHeldBack, ConstructKey, Banned;
      var ev := trace[0];
      TenantKeyIsOwn(s, tenant);
      FrozenStep(s, reqs, sys, ev, tenant, ConstructKey(TenantKey(tenant)));
      BannedTransfers(sys, Step(s, reqs, sys, ev), tenant);
      DoneStays(s, reqs, sys, ev);
      EndsOnlyRejected(s, reqs, Step(s, reqs, sys, ev), trace[1..], tenant, id);
    }
  }

  /** A record written by the script: it expires between half an hour and eight hours after its last update. */
  predicate Dated(slot: Slot<Record>) {
    slot.Present? ==>
      && slot.expiresAt.Some?
      && slot.hash.lastActivity + 1000 * 1800 <= slot.expiresAt.value <= slot.hash.lastActivity + 1000 * 28800
  }

  /** Whatever happens in the chain, records stay dated. */
  lemma {:induction false} RecordsStayDated(s: Settings, reqs: Requests, sys: System, trace: seq<Event>, tenant: string)
    requires Dated(RecordOf(sys.world, tenant))
    ensures Dated(RecordOf(Play(s, reqs, sys, trace).world, tenant))
    decreases |trace|
  {
    if trace != [] {
      hide Advance, OfTenant, RecordKey, Updated;
      var ev := trace[0];
      var p := PhaseOf(sys, ev.id);
      RecordFrame(s, reqs(ev.id), sys.world, p, ev.env, tenant);
      RecordLifetime(RecordAt(sys.world, tenant, ev.env.lapsed), p.Punishing?, ev.env.now, ev.env.root);
      RecordsStayDated(s, reqs, Step(s, reqs, sys, ev), trace[1..], tenant);
    }
  }

  predicate Expired(slot: Slot<Record>, now: nat) {
    slot.Present? && slot.expiresAt.Some? && now >= slot.expiresAt.value
  }

  /** Redis drops the tenant's record no earlier than at its expiry. */
  ghost predicate LapsesHonestly(s: Settings, reqs: Requests, sys: System, trace: seq<Event>, tenant: string)
    decreases |trace|
  {
    trace == [] ||
    (&& (OfTenant(s, reqs(trace[0].id), tenant) && PhaseOf(sys, trace[0].id).AtReputation? && trace[0].env.lapsed
         ==> Expired(RecordOf(sys.world, tenant), trace[0].env.now))
     && LapsesHonestly(s, reqs, Step(s, reqs, sys, trace[0]), trace[1..], tenant))
  }

  /** Why a banned tenant is released at `ev`, when `slot` is the record it was banned with. */
  ghost predicate ReleasedBy(s: Settings, reqs: Requests, sys: System, ev: Event, slot: Slot<Record>) {
    var p := PhaseOf(sys, ev.id);
    || (p.AtGlobal? && !SaysNo(s, reqs, sys, ev, GlobalTier))
    || (p == AtReputation(true) && !ev.env.fault.Works?)
    || (p == AtReputation(true) && ev.env.lapsed && Expired(slot, ev.env.now))
  }

  /** Event `i` is the first to let a request of the tenant past the gate, with the record as it was at the start. */
  ghost predicate IsRelease(s: Settings, reqs: Requests, sys: System, trace: seq<Event>, tenant: string, i: nat)
    requires i < |trace|
  {
    var before, slot := Play(s, reqs, sys, trace[..i]), RecordOf(sys.world, tenant);
    && OfTenant(s, reqs(trace[i].id), tenant) && !Leaks(s, reqs, sys, trace[..i], tenant)
    && RecordOf(before.world, tenant) == slot && ReleasedBy(s, reqs, before, trace[i], slot)
  }

  lemma ReleaseLater(s: Settings, reqs: Requests, sys: System, trace: seq<Event>, tenant: string, i: nat)
    requires i + 1 < |trace| && !Loophole(s, reqs, sys, trace[0], tenant)
    requires var next := Step(s, reqs, sys, trace[0]);
             RecordOf(next.world, tenant) == RecordOf(sys.world, tenant)
                 && IsRelease(s, reqs, next, trace[1..], tenant, i)
    ensures IsRelease(s, reqs, sys, trace, tenant, i + 1)
  {
    hide Step, OfTenant, RecordOf, ReleasedBy, Loophole;
    assert trace[..i + 1][0] == trace[0] && trace[..i + 1][1..] == trace[1..][..i];
  }

  lemma ReleaseNow(s: Settings, reqs: Requests, sys: System, trace: seq<Event>, tenant: string)
    requires trace != [] && Loophole(s, reqs, sys, trace[0], tenant) && AllHeldBack(s, reqs, sys, tenant)
    requires LapsesHonestly(s, reqs, sys, trace, tenant)
    ensures IsRelease(s, reqs, sys, trace, tenant, 0)
  {
    assert HeldBack(PhaseOf(sys, trace[0].id));
    hide SaysNo, OfTenant, Step;
    assert trace[..0] == [];
  }

  /**
   * How a ban ends: the first request of the tenant that gets past the gate does so because its global check did not
   * deny, because the read of its reputation failed, or by a read at or after the expiry of the record that banned it,
   * which nothing has touched until then.
   */
  lemma {:induction false} ReleaseHasACause(s: Settings, reqs: Requests, sys: System, trace: seq<Event>, tenant: string)
    requires s.globalLayer.enabled && !s.dryRun && Leaks(s, reqs, sys, trace, tenant)
             && LapsesHonestly(s, reqs, sys, trace, tenant)
    requires AllHeldBack(s, reqs, sys, tenant) && Banned(RecordOf(sys.world, tenant))
    ensures exists i :: 0 <= i < |trace| && IsRelease(s, reqs, sys, trace, tenant, i)
    decreases |trace|
  {
    hide Step, Loophole, OfTenant, RecordKey, AllHeldBack, ConstructKey, IsRelease, Banned;
    var ev, rest := trace[0], trace[1..];
    if Loophole(s, reqs, sys, ev, tenant) {
      ReleaseNow(s, reqs, sys, trace, tenant);
    } else {
      var next := Step(s, reqs, sys, ev);
      TenantKeyIsOwn(s, tenant);
      FrozenStep(s, reqs, sys, ev, tenant, ConstructKey(TenantKey(tenant)));
      BannedTransfers(sys, next, tenant);
      ReleaseHasACause(s, reqs, next, rest, tenant);
      var i :| 0 <= i < |rest| && IsRelease(s, reqs, next, rest, tenant, i);
      ReleaseLater(s, reqs, sys, trace, tenant, i);
      assert IsRelease(s, reqs, sys, trace, tenant, i + 1);
    }
  }

  /** A read that fails is answered as a newcomer's, with a perfect score. */
  lemma {:induction false} FailedReadIsPerfect(w: World, tenant: string, env: Env)
    requires !env.fault.Works? || env.lapsed
    ensures ScoreRead(w, tenant, env) == ScoreOf(Absent) == 1.0
  {
  }

  /**
   * At the gate, under overload and with records dropped on time: a banned tenant is turned away if and only if the
   * store answers and the record has not expired. A failed read lets it through at any time, and from eight hours after
   * the last update on every read does.
   */
  lemma {:induction false} GateDecides(s: Settings, reqs: Requests, sys: System, ev: Event, tenant: string)
    requires OfTenant(s, reqs(ev.id), tenant) && PhaseOf(sys, ev.id) == AtReputation(true)
    requires var slot := RecordOf(sys.world, tenant);
             Banned(slot) && Dated(slot) && (ev.env.lapsed <==> Expired(slot, ev.env.now))
    ensures
      var slot, p := RecordOf(sys.world, tenant), PhaseOf(Step(s, reqs, sys, ev), ev.id);
      && (p == Done(Rejected(GlobalTier)) <==> ev.env.fault.Works? && ev.env.now < slot.expiresAt.value)
      && (p != Done(Rejected(GlobalTier)) ==> p == TenantEntry(s))
      && (ev.env.now >= slot.hash.lastActivity + 1000 * 28800 ==> p == TenantEntry(s))
  {
    hide Classify;
  }

  /**
   * The tenant's key for the tenant layer is its own; so is every endpoint key when rule paths hold no colon
   * and methods are words.
   */
  lemma {:induction false} TenantKeyIsOwn(s: Settings, tenant: string)
    ensures OwnKey(s, ConstructKey(TenantKey(tenant)), tenant)
  {
    forall req: Request | Classify(s, req).Limited?
      ensures ConstructKey(TenantKey(tenant)) != EndpointId(Classify(s, req))
      ensures ConstructKey(TenantKey(tenant)) != GlobalId()
      ensures ConstructKey(TenantKey(tenant)) == TenantId(Classify(s, req)) ==> tenant == Classify(s, req).tenant
    {
      var route := Classify(s, req);
      TenantKeysStandApart(tenant, route.rule.methods, route.rule.path, route.tenant);
    }
    TenantKeysStandApart(tenant, [], "", tenant);
  }

  lemma {:induction false} EndpointKeyIsOwn(s: Settings, methods: seq<string>, path: string, tenant: string)
    requires CleanRules(s) && Clean(EndpointKey(methods, path, tenant))
    ensures OwnKey(s, ConstructKey(EndpointKey(methods, path, tenant)), tenant)
  {
    var key := ConstructKey(EndpointKey(methods, path, tenant));
    KeyDeterminesId(EndpointKey(methods, path, tenant));
    TenantKeysStandApart(tenant, methods, path, tenant);
    forall req: Request | Classify(s, req).Limited?
        && (TenantId(Classify(s, req)) == key || EndpointId(Classify(s, req)) == key)
      ensures Classify(s, req).tenant == tenant
    {
      var route := Classify(s, req);
      TenantKeysStandApart(route.tenant, methods, path, tenant);
      MatchedRuleIsConfigured(s.rules, req.path, req.method_);
      var i :| 0 <= i < |s.rules| && s.rules[i] == route.rule;
      assert Clean(EndpointKey(s.rules[i].methods, s.rules[i].path, ""));
      KeyDeterminesId(EndpointKey(route.rule.methods, route.rule.path, route.tenant));
    }
  }

  /**
   * A record lives at most eight hours past its last update, and at least two once the score is below the
   * threshold.
   */
  lemma RecordLifetime(slot: Slot<Record>, violation: bool, now: nat, root: Root)
    ensures
      var r := Updated(slot, violation, now, root);
      && r.hash.lastActivity == now && r.expiresAt.Some?
      && now + 1000 * 1800 <= r.expiresAt.value <= now + 1000 * 28800
      && (r.hash.score < THRESHOLD ==> r.expiresAt.value >= now + 1000 * 7200)
      && (r.hash.violations >= 10 && r.hash.score < 0.1 ==> r.expiresAt.value == now + 1000 * 28800)
  {
  }
}
