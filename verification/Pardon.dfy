/** The shortest way out of a ban: 451 forwarded requests, each rewarded at both tiers. */
module Pardon {
  import opened Prelude
  import opened Config
  import opened RedisDb
  import opened Limits
  import opened Reputation
  import opened Keys
  import opened Endpoints
  import opened Chain
  import opened Interleaving
  import opened Conservation
  import opened Forgiveness
  import ForwardBound
  import ReputationRuns

  const AMPLE: Policy := FixedWindow(1000, 1000)
  const RULE := Rule("/", [], false, Known(AMPLE))
  const SETTINGS := Settings(false, Layer(false, Unnamed), Layer(true, Known(AMPLE)), [RULE])
  const PATIENT := Request("/", "GET", Some("t"))
  const EVERYONE: Requests := _ => PATIENT

  function Calm(at: nat): Env { Env(at, Works, false, 3.0, false) }

  function Tk(): string { ConstructKey(TenantKey("t")) }

  function Ek(): string { ConstructKey(EndpointKey([], "/", "t")) }

  lemma Routed()
    ensures Classify(SETTINGS, PATIENT) == Limited(RULE, "t")
    ensures Tk() != Ek()
  {
    assert NormalizePath("/") == "/";
    assert Matches(RULE, "/", "GET");
    ForwardBound.TenantKeysStandApart("t", [], "/", "t");
  }

  /** `n` requests of this instant have been admitted on the key. */
  predicate Used(at: nat, w: World, key: string, n: nat) {
    CurrentWindow(AMPLE, EntryAt(w.limits, key), at) == (n, WindowStart(at, 1000))
  }

  lemma AmpleAdmits(at: nat, w: World, key: string, n: nat, other: string)
    requires Used(at, w, key, n) && n < 1000
    ensures
      var (w', r) := CheckKey(w, key, Known(AMPLE), Calm(at));
      && r == Allowed && Used(at, w', key, n + 1) && w'.reputations == w.reputations
      && (other != key ==> EntryAt(w'.limits, other) == EntryAt(w.limits, other))
  {
  }

  /** The tenant has nine violations and has been rewarded `n` times since its score was 0. */
  predicate Mending(slot: Slot<Record>, n: nat) {
    slot.Present? && slot.hash.violations == 9 && slot.hash.score == n as real * GAIN
  }

  lemma RewardMends(at: nat, slot: Slot<Record>, n: nat)
    requires Mending(slot, n) && n < 1000
    ensures Mending(Updated(slot, false, at, 3.0), n + 1)
  {
    assert IsRoot(3.0, 9);
    ReputationRuns.RewardIsTiny(slot.hash, at, 3.0);
    assert (n + 1) as real * GAIN == n as real * GAIN + GAIN;
  }

  /** What the `i`-th step of a request starts from. */
  function Leg(i: nat): Phase {
    if i == 0 then Arrived
    else if i == 1 then AtTenant
    else if i == 2 then Rewarding(TenantTier)
    else if i == 3 then AtEndpoint
    else if i == 4 then Rewarding(EndpointTier)
    else Forwarding(false, 0)
  }

  function Bit(b: bool): nat { if b then 1 else 0 }

  /** `k` requests have been served and the next one has taken `i` steps. */
  ghost predicate Travelled(at: nat, w: World, k: nat, i: nat) {
    && Used(at, w, Tk(), k + Bit(i >= 2)) && Used(at, w, Ek(), k + Bit(i >= 4))
    && Mending(RecordOf(w, "t"), 2 * k + Bit(i >= 3) + Bit(i >= 5))
  }

  lemma LegWorks(at: nat, w: World, k: nat, i: nat)
    requires i <= 5 && k < 460 && Travelled(at, w, k, i)
    ensures
      var (w', p) := Advance(SETTINGS, PATIENT, w, Leg(i), Calm(at));
      if i < 5 then p == Leg(i + 1) && Travelled(at, w', k, i + 1)
      else p == Done(Forwarded(1)) && Travelled(at, w', k + 1, 0)
  {
    Routed();
    hide Classify, ConstructKey, Used, Mending, CheckKey, Updated, RecordKey;
    if i == 1 {
      AmpleAdmits(at, w, Tk(), k, Ek());
      UsedElsewhere(at, w, CheckKey(w, Tk(), Known(AMPLE), Calm(at)).0, Ek(), k);
    } else if i == 2 {
      RewardMends(at, RecordOf(w, "t"), 2 * k);
      UsedElsewhere(at, w, Rated(w, "t", false, Calm(at)), Tk(), k + 1);
      UsedElsewhere(at, w, Rated(w, "t", false, Calm(at)), Ek(), k);
    } else if i == 3 {
      AmpleAdmits(at, w, Ek(), k, Tk());
      UsedElsewhere(at, w, CheckKey(w, Ek(), Known(AMPLE), Calm(at)).0, Tk(), k + 1);
    } else if i == 4 {
      RewardMends(at, RecordOf(w, "t"), 2 * k + 1);
      UsedElsewhere(at, w, Rated(w, "t", false, Calm(at)), Tk(), k + 1);
      UsedElsewhere(at, w, Rated(w, "t", false, Calm(at)), Ek(), k + 1);
    }
  }

  lemma UsedElsewhere(at: nat, w: World, w': World, key: string, n: nat)
    requires Used(at, w, key, n) && EntryAt(w'.limits, key) == EntryAt(w.limits, key)
    ensures Used(at, w', key, n)
  {
  }

  /** Event number `j` is step `j % 6` of request `j / 6`. */
  function Itinerary(at: nat, j: nat, end: nat): seq<Event>
    requires j <= end
  {
    seq(end - j, n requires 0 <= n < end - j => Event((j + n) / 6, Calm(at)))
  }

  /** Requests below `k` are done, request `k` is about to take step `i`, and no other has been seen. */
  ghost predicate Located(at: nat, sys: System, k: nat, i: nat) {
    && Travelled(at, sys.world, k, i)
    && PhaseOf(sys, k) == Leg(i)
    && (forall id: nat :: id in sys.phases <==> id < k || (id == k && i > 0))
    && (forall id: nat | id < k :: PhaseOf(sys, id) == Done(Forwarded(1)))
  }

  lemma StepLocated(at: nat, sys: System, k: nat, i: nat)
    requires i <= 5 && k < 460 && Located(at, sys, k, i)
    ensures
      var ev := Event(k, Calm(at));
      var next := Step(SETTINGS, EVERYONE, sys, ev);
      && Recorded(SETTINGS, EVERYONE, sys, ev, "t") && TrueRoot(SETTINGS, EVERYONE, sys, ev, "t")
      && if i < 5 then Located(at, next, k, i + 1) else Located(at, next, k + 1, 0)
  {
    hide Advance, Classify;
    Routed();
    var next := Step(SETTINGS, EVERYONE, sys, Event(k, Calm(at)));
    assert RecordOf(sys.world, "t").Present? && RecordOf(sys.world, "t").hash.violations == 9;
    hide Travelled, RecordOf;
    LegWorks(at, sys.world, k, i);
    assert next.phases == sys.phases[k := PhaseOf(next, k)];
    forall id: nat | id != k
      ensures PhaseOf(next, id) == PhaseOf(sys, id)
    {
    }
  }

  ghost predicate Underway(at: nat, sys: System, j: nat) {
    Located(at, sys, j / 6, j % 6)
  }

  lemma EventWorks(at: nat, sys: System, j: nat)
    requires j < 6 * 460 && Underway(at, sys, j)
    ensures
      var ev := Event(j / 6, Calm(at));
      && Underway(at, Step(SETTINGS, EVERYONE, sys, ev), j + 1)
      && Recorded(SETTINGS, EVERYONE, sys, ev, "t") && TrueRoot(SETTINGS, EVERYONE, sys, ev, "t")
  {
    hide Located, Step, Recorded, TrueRoot;
    StepLocated(at, sys, j / 6, j % 6);
    if j % 6 < 5 {
      assert (j + 1) / 6 == j / 6 && (j + 1) % 6 == j % 6 + 1;
    } else {
      assert (j + 1) / 6 == j / 6 + 1 && (j + 1) % 6 == 0;
    }
  }

  /** The trace is recorded throughout, with true roots, and ends having made `end` steps. */
  ghost predicate Arrives(at: nat, sys: System, trace: seq<Event>, end: nat) {
    && Underway(at, Interleaving.Play(SETTINGS, EVERYONE, sys, trace), end)
    && AllRecorded(SETTINGS, EVERYONE, sys, trace, "t") && AllTrueRoots(SETTINGS, EVERYONE, sys, trace, "t")
  }

  lemma OneMore(at: nat, sys: System, trace: seq<Event>, end: nat)
    requires trace != [] && Recorded(SETTINGS, EVERYONE, sys, trace[0], "t")
             && TrueRoot(SETTINGS, EVERYONE, sys, trace[0], "t")
    requires Arrives(at, Step(SETTINGS, EVERYONE, sys, trace[0]), trace[1..], end)
    ensures Arrives(at, sys, trace, end)
  {
    hide Underway, Step, Recorded, TrueRoot;
  }

  lemma {:induction false} ItineraryWorks(at: nat, sys: System, j: nat, end: nat)
    requires j <= end <= 6 * 460 && Underway(at, sys, j)
    ensures Arrives(at, sys, Itinerary(at, j, end), end)
    decreases end - j
  {
    if j < end {
      hide Arrives, Underway, Step, Recorded, TrueRoot;
      assert Itinerary(at, j, end)[0] == Event(j / 6, Calm(at))
             && Itinerary(at, j, end)[1..] == Itinerary(at, j + 1, end);
      EventWorks(at, sys, j);
      ItineraryWorks(at, Step(SETTINGS, EVERYONE, sys, Event(j / 6, Calm(at))), j + 1, end);
      OneMore(at, sys, Itinerary(at, j, end), end);
    } else {
      hide Underway;
    }
  }

  /** Where nine violations in the same millisecond take a newcomer: score 0, the record good for four hours. */
  function Outcast(at: nat): World {
    World(map[], map[RecordKey("t") := ReputationRuns.Caught(at, 0.0, 9)])
  }

  lemma OutcastIsReachable(at: nat)
    requires at >= 1
    ensures ReputationRuns.Playable(Absent, ReputationRuns.Rapid(at, 9))
    ensures RecordOf(Outcast(at), "t") == ReputationRuns.Play(Absent, ReputationRuns.Rapid(at, 9))
  {
    ReputationRuns.NineRapidViolations(at);
  }

  lemma FirstLeg(at: nat)
    ensures Underway(at, Quiet(Outcast(at)), 0) && ReputationRuns.Banished(RecordOf(Outcast(at), "t"))
  {
  }

  function Below(n: nat): (r: set<nat>)
    ensures |r| == n && forall id: nat :: id in r <==> id < n
  {
    if n == 0 then {} else Below(n - 1) + {n - 1}
  }

  ghost predicate Answered(sys: System) {
    forall id | id in sys.phases :: sys.phases[id].Done?
  }

  lemma Arrival(at: nat, sys: System, k: nat)
    requires Underway(at, sys, 6 * k)
    ensures Answered(sys) && |ForwardedOf(SETTINGS, EVERYONE, sys, "t")| == k
    ensures ScoreOf(RecordOf(sys.world, "t")) == (2 * k) as real * GAIN
  {
    Routed();
    hide Classify;
    assert 6 * k / 6 == k && 6 * k % 6 == 0;
    forall id | id in sys.phases
      ensures id < k && sys.phases[id] == Done(Forwarded(1))
    {
      assert PhaseOf(sys, id) == sys.phases[id];
    }
    assert ForwardedOf(SETTINGS, EVERYONE, sys, "t") == Below(k);
  }

  predicate AllSince(trace: seq<Event>, from: nat) {
    forall i | 0 <= i < |trace| :: trace[i].env.now >= from
  }

  /**
   * If the trace lets at most `n` requests of a banished tenant through and ends with everything answered, the
   * ban is still in place.
   */
  ghost predicate StillBanned(s: Settings, reqs: Requests, w: World, trace: seq<Event>, tenant: string, from: nat,
                              n: nat) {
    var end := Interleaving.Play(s, reqs, Quiet(w), trace);
    && ReputationRuns.Banished(RecordOf(w, tenant)) && AllSince(trace, from)
    && AllRecorded(s, reqs, Quiet(w), trace, tenant) && AllTrueRoots(s, reqs, Quiet(w), trace, tenant)
    && Answered(end) && |ForwardedOf(s, reqs, end, tenant)| <= n
    ==> ScoreOf(RecordOf(end.world, tenant)) <= THRESHOLD
  }

  /**
   * From whatever instant on, counted at the backend: a ban is certain to outlast `n` forwarded requests iff
   * `n` is at most 450.
   */
  lemma {:induction false} BanOutlastsIff(from: nat, n: nat)
    ensures (forall s, reqs, w, trace, tenant :: StillBanned(s, reqs, w, trace, tenant, from, n)) <==> n <= 450
  {
    if n <= 450 {
      forall s, reqs, w, trace, tenant
        ensures StillBanned(s, reqs, w, trace, tenant, from, n)
      {
        BannedThrough450(s, reqs, w, trace, tenant, from, n);
      }
    } else {
      hide StillBanned;
      WayOut(from + 1, from, n);
    }
  }

  lemma BannedThrough450(s: Settings, reqs: Requests, w: World, trace: seq<Event>, tenant: string, from: nat, n: nat)
    requires n <= 450
    ensures StillBanned(s, reqs, w, trace, tenant, from, n)
  {
    hide Interleaving.Play, AllRecorded, AllTrueRoots, ForwardedOf, RecordOf, ReputationRuns.Banished;
    var end := Interleaving.Play(s, reqs, Quiet(w), trace);
    if && ReputationRuns.Banished(RecordOf(w, tenant))
       && AllRecorded(s, reqs, Quiet(w), trace, tenant) && AllTrueRoots(s, reqs, Quiet(w), trace, tenant)
       && Answered(end) && |ForwardedOf(s, reqs, end, tenant)| <= n {
      BanOutlasts450Forwards(s, reqs, w, trace, tenant);
    }
  }

  lemma ItinerarySince(at: nat, from: nat, end: nat)
    requires at >= from
    ensures AllSince(Itinerary(at, 0, end), from)
  {
    var trace := Itinerary(at, 0, end);
    forall i | 0 <= i < |trace|
      ensures trace[i].env.now >= from
    {
      assert trace[i].env == Calm(at);
    }
  }

  lemma WayOut(at: nat, from: nat, n: nat)
    requires n > 450 && at >= 1 && at >= from
    ensures !StillBanned(SETTINGS, EVERYONE, Outcast(at), Itinerary(at, 0, 6 * 451), "t", from, n)
  {
    var trace := Itinerary(at, 0, 6 * 451);
    ItinerarySince(at, from, 6 * 451);
    hide Interleaving.Play, AllRecorded, AllTrueRoots, ForwardedOf, RecordOf, Underway, ReputationRuns.Banished,
        Outcast, Itinerary, AllSince;
    FirstLeg(at);
    ItineraryWorks(at, Quiet(Outcast(at)), 0, 6 * 451);
    Arrival(at, Interleaving.Play(SETTINGS, EVERYONE, Quiet(Outcast(at)), trace), 451);
  }
}
