/** What one update is worth, as tables in counts and instants. */
module ReputationTables {
  import opened RedisDb
  import opened Reputation
  import opened ReputationRuns

  /** The cost of a violation before escalation, by good requests on record. */
  predicate IsBase(x: real, good: nat) {
    if good <= 5 then x == 0.15 else if good >= 19 then x == 0.05 else x * (good as real + 1.0) == 1.0
  }

  lemma BaseByGood(good: nat)
    ensures IsBase(BaseImpact(good), good)
    ensures forall x: real | IsBase(x, good) :: x == BaseImpact(good)
  {
    var n := good as real + 1.0;
    assert 1.0 / n * n == 1.0;
    if good <= 5 {
      QuotientMono(1.0, n, 6.0);
    } else if good >= 19 {
      QuotientMono(1.0, 20.0, n);
    } else {
      QuotientMono(1.0, n, 19.0);
      QuotientMono(1.0, 7.0, n);
      forall x: real | IsBase(x, good)
        ensures x == 1.0 / n
      {
        assert (x - 1.0 / n) * n == 0.0;
        if x > 1.0 / n {
          ProductPositive(x - 1.0 / n, n);
        } else if x < 1.0 / n {
          ProductPositive(1.0 / n - x, n);
        }
      }
    }
  }

  /**
   * A violation: the base cost counts once up to the fourth violation, one and a half times from the fifth and twice
   * from the tenth; a fifth of the scale goes on top if the last violation was at a positive instant and at most
   * 999 ms ago. The score stops at 0, good requests stay, and the violation is counted and dated.
   */
  lemma {:induction false} ViolationTable(slot: Slot<Record>, now: nat, root: Root, base: real)
    requires Healthy(slot) && IsBase(base, Goods(slot))
    ensures
      var r := Updated(slot, true, now, root).hash;
      var v := Violations(slot) + 1;
      var factor := if v < 5 then 1.0 else if v < 10 then 1.5 else 2.0;
      var last := if slot.Present? && slot.hash.lastViolation.Some? then slot.hash.lastViolation.value else 0;
      var surcharge := if 0 < last && now <= last + 999 then 0.2 else 0.0;
      && r.score == RMax(0.0, ScoreOf(slot) - base * factor - surcharge)
      && r.violations == v && r.good == Goods(slot) && r.lastActivity == now
      && r.lastViolation.Some? && r.lastViolation.value == now
  {
    BaseByGood(Goods(slot));
    assert BaseImpact(Goods(slot)) == base;
    hide BaseImpact;
  }

  /** A good request: what it is worth times the root of the violation count, by that count. */
  function GainTimesRoot(v: nat): real {
    if v < 8 then 0.005 - 0.0005 * v as real else 0.001
  }

  lemma {:induction false} GoodRequestTable(slot: Slot<Record>, now: nat, root: Root, gain: real)
    requires Healthy(slot)
    requires Violations(slot) > 0 ==>
               IsRoot(root, Violations(slot)) && gain * root == GainTimesRoot(Violations(slot))
    ensures
      var r := Updated(slot, false, now, root).hash;
      && r.score == (if Violations(slot) == 0 then 1.0 else RMin(1.0, ScoreOf(slot) + gain))
      && r.violations == Violations(slot) && r.good == Goods(slot) + 1 && r.lastActivity == now
      && r.lastViolation == Stored(slot, now).lastViolation
  {
    var v := Violations(slot);
    if v > 0 {
      RootMono(root, v, 1.0);
      assert Rate(v) == GainTimesRoot(v);
      GainIsQuotient(gain, GainTimesRoot(v), root);
      QuotientMono(GainTimesRoot(v), 1.0, root);
    }
  }

  lemma GainIsQuotient(gain: real, work: real, root: real)
    requires root > 0.0 && gain * root == work
    ensures gain == work / root
  {
  }

  /**
   * The dormant recovery, should a clean tenant ever have less than a perfect score: nothing in the first ten
   * minutes.
   */
  lemma {:induction false} RestTable(r: Record, now: nat)
    ensures
      var idle := now - r.lastActivity;
      Rested(r, now) ==
        if r.violations > 0 || r.score >= 1.0 || idle <= 600000 then r.score
        else if idle < 1800000 then RMin(1.0, r.score + idle as real / 36000000.0)
        else RMin(1.0, r.score + 0.05)
    ensures r.violations == 0 && r.score < 1.0 && now - r.lastActivity <= 600000 ==>
              Rewarded(r, now, 1.0).score == RMin(1.0, r.score + 0.02)
  {
    var idle := now - r.lastActivity;
    assert idle as real / 3600000.0 * 0.1 == idle as real / 36000000.0;
  }

  function Doubled(seconds: int, times: nat): int
  {
    if times == 0 then seconds else 2 * Doubled(seconds, times - 1)
  }

  function Bit(b: bool): nat { if b then 1 else 0 }

  /**
   * Half an hour, doubled once for each of 0.7, 0.3 and 0.1 that the score is below, and once more from ten
   * violations on.
   */
  lemma {:induction false} LifetimeTable(slot: Slot<Record>, violation: bool, now: nat, root: Root)
    ensures
      var r := Updated(slot, violation, now, root);
      var score, violations := r.hash.score, r.hash.violations;
      var times := Bit(score < 0.7) + Bit(score < 0.3) + Bit(score < 0.1) + Bit(violations >= 10);
      r.expiresAt.Some? && r.expiresAt.value == now + 1000 * Doubled(1800, times)
  {
    hide Punished, Rewarded;
    assert Doubled(1800, 1) == 3600 && Doubled(1800, 2) == 7200 && Doubled(1800, 3) == 14400
           && Doubled(1800, 4) == 28800;
  }

  /**
   * A newcomer reads as perfect, loses 0.15 by a violation, and 0.35 by a second one at most 999 ms after the
   * first.
   */
  lemma {:induction false} TwoViolations(first: nat, second: nat, root: Root)
    ensures
      var once := Updated(Absent, true, first, root);
      var twice := Updated(once, true, second, root);
      && ScoreOf(Absent) == 1.0 && ScoreOf(once) == 0.85
      && ScoreOf(twice) == if first > 0 && second <= first + 999 then 0.5 else 0.7
  {
    ViolationTable(Absent, first, root, 0.15);
    ViolationTable(Updated(Absent, true, first, root), second, root, 0.15);
  }
}
