/** The order of tenants by reputation, and that the script keeps it. */
module Ranking {
  import opened RedisDb
  import opened Reputation
  import opened ReputationRuns

  /**
   * What a violation costs: between the least and the greatest base impact, scaled by the tier, plus the
   * rapid-fire surcharge.
   */
  lemma {:induction false} PunishmentBites(r: Record, now: nat)
    ensures
      var x, tier := Rested(r, now), Escalation(r.violations + 1);
      var extra := if RapidFire(r, now) then 0.2 else 0.0;
      var score := Punished(r, now).score;
      && RMax(0.0, x - 0.15 * tier - extra) <= score <= RMax(0.0, x - 0.05 * tier - extra)
      && (r.good <= 5 ==> score == RMax(0.0, x - 0.15 * tier - extra))
      && (r.good >= 19 ==> score == RMax(0.0, x - 0.05 * tier - extra))
  {
    ImpactFalls(r.good);
  }

  lemma ImpactFalls(good: nat)
    ensures good <= 5 ==> BaseImpact(good) == 0.15
    ensures good >= 19 ==> BaseImpact(good) == 0.05
  {
    var n := good as real + 1.0;
    if good <= 5 {
      QuotientMono(1.0, n, 6.0);
    } else if good >= 19 {
      QuotientMono(1.0, 20.0, n);
    }
  }

  /** `r` has nothing over `q`: no higher score, no fewer violations, no more good requests, no older last violation. */
  predicate NoBetter(r: Record, q: Record) {
    && r.score <= q.score && r.violations >= q.violations && r.good <= q.good
    && (q.lastViolation.Some? && q.lastViolation.value > 0 ==>
        r.lastViolation.Some? && r.lastViolation.value >= q.lastViolation.value)
  }

  lemma ImpactMono(few: nat, many: nat)
    requires few <= many
    ensures BaseImpact(few) >= BaseImpact(many)
  {
    QuotientMono(1.0, few as real + 1.0, many as real + 1.0);
  }

  lemma ProductMono(a: real, b: real, x: real, y: real)
    requires 0.0 <= a <= b && 0.0 <= x <= y
    ensures a * x <= b * y
  {
    assert (b - a) * x >= 0.0 && b * (y - x) >= 0.0;
  }

  lemma PunishKeepsOrder(r: Record, q: Record, now: nat)
    requires InRange(r) && InRange(q) && NoBetter(r, q)
    ensures NoBetter(Punished(r, now), Punished(q, now))
  {
    ImpactMono(r.good, q.good);
    ProductMono(BaseImpact(q.good), BaseImpact(r.good), Escalation(q.violations + 1), Escalation(r.violations + 1));
    assert RapidFire(q, now) ==> RapidFire(r, now);
    hide BaseImpact, Escalation, RapidFire;
  }

  lemma QuotientOrder(x: real, y: real, a: real, b: real)
    requires 0.0 <= x <= y && 0.0 < b <= a
    ensures x / a <= y / b
  {
    QuotientMono(x, b, a);
    QuotientGrows(x, y, b);
  }

  lemma QuotientGrows(x: real, y: real, b: real)
    requires x <= y && b > 0.0
    ensures x / b <= y / b
  {
    assert y / b - x / b == (y - x) / b;
  }

  /** What a good request is worth to a tenant with violations. */
  lemma RewardFalls(many: nat, few: nat, a: Root, b: Root)
    requires many >= few > 0 && IsRoot(a, many) && IsRoot(b, few)
    ensures Rate(many) / a <= Rate(few) / b
  {
    RootMono(a, many, b);
    assert 0.0 <= Rate(many) <= Rate(few);
    hide Rate, IsRoot;
    QuotientOrder(Rate(many), Rate(few), a, b);
  }

  lemma RewardKeepsOrder(r: Record, q: Record, now: nat, a: Root, b: Root)
    requires InRange(r) && InRange(q) && NoBetter(r, q)
    requires (r.violations > 0 ==> IsRoot(a, r.violations)) && (q.violations > 0 ==> IsRoot(b, q.violations))
    ensures NoBetter(Rewarded(r, now, a), Rewarded(q, now, b))
  {
    hide Rate, IsRoot;
    if q.violations > 0 {
      RewardFalls(r.violations, q.violations, a, b);
    }
  }

  lemma TtlFalls(score: real, violations: int, better: real, fewer: int)
    requires score <= better && fewer <= violations
    ensures Ttl(score, violations) >= Ttl(better, fewer)
  {
  }

  /** The same update at the same time, on records that have not lapsed. */
  predicate SameUpdates(a: seq<Update>, b: seq<Update>) {
    && |a| == |b| && NeverLapsed(a) && NeverLapsed(b)
    && forall i | 0 <= i < |a| :: a[i].violation == b[i].violation && a[i].now == b[i].now
  }

  ghost predicate RanksBelow(a: Slot<Record>, b: Slot<Record>) {
    NoBetter(Stored(a, 0), Stored(b, 0))
  }

  lemma StepKeepsOrder(a: Slot<Record>, b: Slot<Record>, u: Update, v: Update)
    requires Healthy(a) && Healthy(b) && RanksBelow(a, b) && CanApply(a, u) && CanApply(b, v)
    requires !u.lapsed && !v.lapsed && u.violation == v.violation && u.now == v.now
    ensures RanksBelow(Apply(a, u), Apply(b, v))
    ensures Apply(a, u).expiresAt.value >= Apply(b, v).expiresAt.value
  {
    var r, q := Stored(a, u.now), Stored(b, u.now);
    if u.violation {
      PunishKeepsOrder(r, q, u.now);
    } else {
      RewardKeepsOrder(r, q, u.now, u.root, v.root);
    }
    hide Punished, Rewarded, IsRoot, Ttl;
    var r', q' := Apply(a, u).hash, Apply(b, v).hash;
    TtlFalls(r'.score, r'.violations, q'.score, q'.violations);
  }

  /**
   * No sequence of violations and good requests lets a worse tenant overtake a better one that is treated alike:
   * its score stays no higher, and its record, once updated, lives no shorter.
   */
  lemma {:induction false} WorseStaysWorse(a: Slot<Record>, b: Slot<Record>, run: seq<Update>, twin: seq<Update>)
    requires Healthy(a) && Healthy(b) && RanksBelow(a, b) && SameUpdates(run, twin) && Playable(a, run) && Playable(b, twin)
    ensures RanksBelow(Play(a, run), Play(b, twin)) && ScoreOf(Play(a, run)) <= ScoreOf(Play(b, twin))
    ensures run != [] ==>
              && Play(a, run).Present? && Play(a, run).expiresAt.Some?
              && Play(b, twin).Present? && Play(b, twin).expiresAt.Some?
              && Play(a, run).expiresAt.value >= Play(b, twin).expiresAt.value
    decreases |run|
  {
    if run != [] {
      StepHealthy(a, run[0]);
      StepHealthy(b, twin[0]);
      StepKeepsOrder(a, b, run[0], twin[0]);
      var a', b' := Apply(a, run[0]), Apply(b, twin[0]);
      assert a'.Present? && a'.expiresAt.Some? && b'.Present? && b'.expiresAt.Some?;
      hide Apply, CanApply, Healthy, RanksBelow;
      WorseStaysWorse(a', b', run[1..], twin[1..]);
    }
  }
}
