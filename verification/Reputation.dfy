/** The reputation script: what one update does to a tenant's record. Scores are exact reals. */
module Reputation {
  import opened Prelude
  import opened RedisDb

  function RMin(a: real, b: real): real { if a <= b then a else b }

  function RMax(a: real, b: real): real { if a >= b then a else b }

  /** A square root of a positive count. */
  type Root = r: real | r > 0.0 witness 1.0

  /** `s` is what `math.sqrt(v)` stands for. */
  ghost predicate IsRoot(s: real, v: int) {
    s >= 0.0 && s * s == v as real
  }

  const THRESHOLD := 0.3

  /** A missing record reads as a perfect newcomer. */
  function Stored(slot: Slot<Record>, now: nat): Record {
    match slot
    case Absent => Record(1.0, 0, 0, None, now)
    case Present(r, _) => r
  }

  /** Score after the recovery by time that is meant for tenants without violations. */
  function Rested(r: Record, now: nat): real {
    var idle := now - r.lastActivity;
    if r.violations == 0 && r.score < 1.0 && idle > 600000
    then RMin(1.0, r.score + RMin(0.05, idle as real / 3600000.0 * 0.1))
    else r.score
  }

  function BaseImpact(good: nat): (x: real)
    ensures 0.05 <= x <= 0.15
  {
    RMax(0.05, RMin(0.15, 1.0 / (good as real + 1.0)))
  }

  function Escalation(violations: int): real {
    if violations >= 10 then 2.0 else if violations >= 5 then 1.5 else 1.0
  }

  predicate RapidFire(r: Record, now: nat) {
    r.lastViolation.Some? && r.lastViolation.value > 0 && now - r.lastViolation.value < 1000
  }

  function Punished(r: Record, now: nat): Record
  {
    var v := r.violations + 1;
    var hit := RMax(0.0, Rested(r, now) - BaseImpact(r.good) * Escalation(v));
    Record(if RapidFire(r, now) then RMax(0.0, hit - 0.2) else hit, v, r.good, Some(now), now)
  }

  function Rate(violations: int): real {
    0.005 * (1.0 - RMin(0.8, violations as real * 0.1))
  }

  function Rewarded(r: Record, now: nat, root: Root): Record
  {
    var s := Rested(r, now);
    var score :=
      if r.violations > 0 then RMin(1.0, s + RMin(0.02, Rate(r.violations) / root))
      else if s < 1.0 then RMin(1.0, s + 0.02)
      else s;
    r.(score := score, good := r.good + 1, lastActivity := now)
  }

  function Ttl(score: real, violations: int): int {
    var tier := if score < 0.1 then 14400 else if score < 0.3 then 7200 else if score < 0.7 then 3600 else 1800;
    if violations >= 10 then tier * 2 else tier
  }

  lemma ProductPositive(a: real, b: real)
    requires a > 0.0 && b > 0.0
    ensures a * b > 0.0
  {
  }

  lemma RootMono(root: real, v: int, low: real)
    requires IsRoot(root, v) && low >= 0.0 && low * low <= v as real
    ensures root >= low
  {
    if root < low {
      assert low * low - root * root == (low - root) * (low + root);
      ProductPositive(low - root, low + root);
    }
  }

  /** One update of a tenant's record. */
  function Updated(slot: Slot<Record>, violation: bool, now: nat, root: Root): Slot<Record>
  {
    var r := Stored(slot, now);
    var r' := if violation then Punished(r, now) else Rewarded(r, now, root);
    Present(r', Some(now + 1000 * Ttl(r'.score, r'.violations)))
  }

  method Punish(r: Record, rested: real, now: nat) returns (r': Record)
    requires rested == Rested(r, now)
    ensures r' == Punished(r, now)
  {
    var violations := r.violations + 1;
    var baseImpact := RMax(0.05, RMin(0.15, 1.0 / (r.good as real + 1.0)));
    var factor := 1.0;
    if violations >= 10 {
      factor := 2.0;
    } else if violations >= 5 {
      factor := 1.5;
    }
    assert factor == Escalation(violations);
    var score := RMax(0.0, rested - baseImpact * factor);
    var last := if r.lastViolation.Some? then r.lastViolation.value else 0;
    if last > 0 && now - last < 1000 {
      score := RMax(0.0, score - 0.2);
    }
    r' := Record(score, violations, r.good, Some(now), now);
  }

  method Reward(r: Record, rested: real, now: nat, root: Root) returns (r': Record)
    requires rested == Rested(r, now)
    ensures r' == Rewarded(r, now, root)
  {
    var score := rested;
    if r.violations > 0 {
      var rate := 0.005;
      var penalty := RMin(0.8, r.violations as real * 0.1);
      rate := rate * (1.0 - penalty);
      var improvement := RMin(0.02, rate / root);
      score := RMin(1.0, score + improvement);
    } else if score < 1.0 {
      score := RMin(1.0, score + 0.02);
    }
    r' := Record(score, r.violations, r.good + 1, r.lastViolation, now);
  }

  /** The script, command by command; `root` is the value of `math.sqrt(violation_count)`. */
  method Eval(redis: Redis, key: string, violation: bool, now: nat, root: Root)
    modifies redis`reputations
    ensures OnlyTouched(old(redis.reputations), redis.reputations, key)
    ensures At(redis.reputations, key) == Updated(old(At(redis.reputations, key)), violation, now, root)
  {
    var r := Record(1.0, 0, 0, None, now);
    if At(redis.reputations, key).Present? {
      r := At(redis.reputations, key).hash;
    }

    var score := r.score;
    var sinceLast := now - r.lastActivity;
    if r.violations == 0 && score < 1.0 && sinceLast > 600000 {
      var recovery := RMin(0.05, sinceLast as real / 3600000.0 * 0.1);
      score := RMin(1.0, score + recovery);
    }

    if violation {
      r := Punish(r, score, now);
    } else {
      r := Reward(r, score, now, root);
    }

    var ttl;
    if r.score < 0.1 {
      ttl := 14400;
    } else if r.score < 0.3 {
      ttl := 7200;
    } else if r.score < 0.7 {
      ttl := 3600;
    } else {
      ttl := 1800;
    }
    if r.violations >= 10 {
      ttl := ttl * 2;
    }
    redis.reputations := redis.reputations[key := Present(r, Some(now + 1000 * ttl))];
  }

  /** What `GetTenantReputation` reports: the stored score, or a perfect one when there is nothing to read. */
  function ScoreOf(slot: Slot<Record>): real {
    if slot.Present? then slot.hash.score else 1.0
  }

  function Violations(slot: Slot<Record>): nat { if slot.Present? then slot.hash.violations else 0 }

  function Goods(slot: Slot<Record>): nat { if slot.Present? then slot.hash.good else 0 }
}
