/** What whole histories of updates can and cannot do to a score. */
module ReputationRuns {
  import opened Prelude
  import opened RedisDb
  import opened Reputation

  /** One update; `root` is the square root the script took, `lapsed` says the record had expired before it. */
  datatype Update = Update(violation: bool, now: nat, root: Root, lapsed: bool)

  function Found(slot: Slot<Record>, u: Update): Slot<Record> {
    if u.lapsed then Absent else slot
  }

  ghost predicate CanApply(slot: Slot<Record>, u: Update) {
    && (u.lapsed ==> slot.Present? && slot.expiresAt.Some? && u.now >= slot.expiresAt.value)
    && (!u.violation && Stored(Found(slot, u), u.now).violations > 0 ==>
          IsRoot(u.root, Stored(Found(slot, u), u.now).violations))
  }

  ghost function Apply(slot: Slot<Record>, u: Update): Slot<Record>
    requires CanApply(slot, u)
  {
    Updated(Found(slot, u), u.violation, u.now, u.root)
  }

  ghost predicate Playable(slot: Slot<Record>, run: seq<Update>)
    decreases |run|
  {
    run == [] || (CanApply(slot, run[0]) && Playable(Apply(slot, run[0]), run[1..]))
  }

  ghost function Play(slot: Slot<Record>, run: seq<Update>): Slot<Record>
    requires Playable(slot, run)
    decreases |run|
  {
    if run == [] then slot else Play(Apply(slot, run[0]), run[1..])
  }

  // ----- reachable scores -----

  /** Scores stay in [0, 1], and only a violation takes a score below 1. */
  predicate Healthy(slot: Slot<Record>) {
    slot.Present? ==> InRange(slot.hash)
  }

  predicate InRange(r: Record) {
    0.0 <= r.score <= 1.0 && (r.violations == 0 ==> r.score == 1.0)
  }

  lemma StepHealthy(slot: Slot<Record>, u: Update)
    requires Healthy(slot) && CanApply(slot, u)
    ensures Healthy(Apply(slot, u))
  {
    var r := Stored(Found(slot, u), u.now);
    assert BaseImpact(r.good) * Escalation(r.violations + 1) >= 0.0;
    if !u.violation && r.violations > 0 {
      assert Rate(r.violations) >= 0.0;
      assert Rate(r.violations) / u.root >= 0.0;
    }
  }

  lemma {:induction false} ReachableIsHealthy(slot: Slot<Record>, run: seq<Update>)
    requires Healthy(slot) && Playable(slot, run)
    ensures Healthy(Play(slot, run))
    decreases |run|
  {
    if run != [] {
      StepHealthy(slot, run[0]);
      ReachableIsHealthy(Apply(slot, run[0]), run[1..]);
    }
  }

  /** The script with the recovery by time and the fast recovery of clean tenants cut out. */
  function Plain(slot: Slot<Record>, violation: bool, now: nat, root: Root): Slot<Record>
  {
    var r := Stored(slot, now);
    var r' :=
      if violation then
        var hit := RMax(0.0, r.score - BaseImpact(r.good) * Escalation(r.violations + 1));
        Record(if RapidFire(r, now) then RMax(0.0, hit - 0.2) else hit, r.violations + 1, r.good, Some(now), now)
      else
        var score := if r.violations > 0 then RMin(1.0, r.score + RMin(0.02, Rate(r.violations) / root)) else r.score;
        r.(score := score, good := r.good + 1, lastActivity := now);
    Present(r', Some(now + 1000 * Ttl(r'.score, r'.violations)))
  }

  lemma PlainIsEnough(slot: Slot<Record>, violation: bool, now: nat, root: Root)
    requires Healthy(slot)
    ensures Updated(slot, violation, now, root) == Plain(slot, violation, now, root)
  {
    var r := Stored(slot, now);
    assert Rested(r, now) == r.score;
    hide BaseImpact, Escalation, Rate, RapidFire, Ttl, Rested;
  }

  /** In no run from an empty key does either recovery for clean tenants ever change anything. */
  lemma {:induction false} CleanRecoveryIsDormant(run: seq<Update>, u: Update)
    requires Playable(Absent, run) && CanApply(Play(Absent, run), u)
    ensures Apply(Play(Absent, run), u) == Plain(Found(Play(Absent, run), u), u.violation, u.now, u.root)
  {
    hide Updated, Plain, Healthy, Play, Playable;
    HealthyNewcomer();
    ReachableIsHealthy(Absent, run);
    PlainIsEnough(Found(Play(Absent, run), u), u.violation, u.now, u.root);
  }

  // ----- how fast violations ban -----

  predicate OnlyViolations(run: seq<Update>) {
    forall i | 0 <= i < |run| :: run[i].violation && !run[i].lapsed
  }

  /** The least that `k` violations cost a tenant that already has `v`. */
  function Loss(v: nat, k: nat): real
    decreases k
  {
    if k == 0 then 0.0 else 0.05 * Escalation(v + 1) + Loss(v + 1, k - 1)
  }

  lemma {:induction false} LossMono(v: nat, k: nat)
    ensures Loss(v, k) >= Loss(0, k)
    decreases k
  {
    LossShift(0, v, k);
  }

  lemma {:induction false} LossShift(v: nat, w: nat, k: nat)
    requires v <= w
    ensures Loss(v, k) <= Loss(w, k)
    decreases k
  {
    if k > 0 {
      LossShift(v + 1, w + 1, k - 1);
    }
  }

  /** Four, five, then the doubled ones: 4 * 0.05 + 5 * 0.075 + 0.1 each. */
  lemma LossTable()
    ensures Loss(0, 10) == 0.675 && Loss(0, 11) == 0.775
  {
    assert Loss(10, 1) == 0.1;
    assert Loss(9, 2) == 0.2 && Loss(9, 1) == 0.1;
    assert Loss(8, 3) == 0.275 && Loss(8, 2) == 0.175;
    assert Loss(7, 4) == 0.35 && Loss(7, 3) == 0.25;
    assert Loss(6, 5) == 0.425 && Loss(6, 4) == 0.325;
    assert Loss(5, 6) == 0.5 && Loss(5, 5) == 0.4;
    assert Loss(4, 7) == 0.575 && Loss(4, 6) == 0.475;
    assert Loss(3, 8) == 0.625 && Loss(3, 7) == 0.525;
    assert Loss(2, 9) == 0.675 && Loss(2, 8) == 0.575;
    assert Loss(1, 10) == 0.725 && Loss(1, 9) == 0.625;
  }

  lemma {:induction false} LossGrows(v: nat, j: nat, k: nat)
    requires j <= k
    ensures Loss(v, j) <= Loss(v, k)
    decreases j
  {
    if j == 0 {
      LossNonNegative(v, k);
    } else {
      LossGrows(v + 1, j - 1, k - 1);
    }
  }

  lemma {:induction false} LossNonNegative(v: nat, k: nat)
    ensures Loss(v, k) >= 0.0
    decreases k
  {
    if k > 0 {
      LossNonNegative(v + 1, k - 1);
    }
  }

  lemma {:induction false} ViolationsCost(slot: Slot<Record>, run: seq<Update>)
    requires Healthy(slot) && Playable(slot, run) && OnlyViolations(run)
    ensures ScoreOf(Play(slot, run)) <= RMax(0.0, ScoreOf(slot) - Loss(Violations(slot), |run|))
    decreases |run|
  {
    if run != [] {
      var u := run[0];
      StepHealthy(slot, u);
      OneViolationCosts(slot, u);
      hide Apply, CanApply, Healthy;
      ViolationsCost(Apply(slot, u), run[1..]);
      LossNonNegative(Violations(slot) + 1, |run| - 1);
    } else {
      assert Loss(Violations(slot), 0) == 0.0;
    }
  }

  lemma OneViolationCosts(slot: Slot<Record>, u: Update)
    requires Healthy(slot) && CanApply(slot, u) && u.violation && !u.lapsed
    ensures Violations(Apply(slot, u)) == Violations(slot) + 1
    ensures ScoreOf(Apply(slot, u)) <= RMax(0.0, ScoreOf(slot) - 0.05 * Escalation(Violations(slot) + 1))
  {
    var r := Stored(slot, u.now);
    ImpactAtLeast(r.good, r.violations + 1);
  }

  lemma ImpactAtLeast(good: nat, v: int)
    ensures BaseImpact(good) * Escalation(v) >= 0.05 * Escalation(v)
  {
  }

  /** Eleven violations in a row ban any tenant, whatever its history. */
  lemma {:induction false} ElevenViolationsBan(slot: Slot<Record>, run: seq<Update>)
    requires Healthy(slot) && Playable(slot, run) && OnlyViolations(run) && |run| >= 11
    ensures ScoreOf(Play(slot, run)) <= THRESHOLD
  {
    ViolationsCost(slot, run);
    LossMono(Violations(slot), |run|);
    LossGrows(0, 11, |run|);
    LossTable();
  }

  lemma {:induction false} PlayAppend(slot: Slot<Record>, a: seq<Update>, b: seq<Update>)
    requires Playable(slot, a)
    ensures Playable(slot, a + b) <==> Playable(Play(slot, a), b)
    ensures Playable(slot, a + b) ==> Play(slot, a + b) == Play(Play(slot, a), b)
    decreases |a|
  {
    if a == [] {
      assert a + b == b;
    } else {
      assert (a + b)[0] == a[0] && (a + b)[1..] == a[1..] + b;
      PlayAppend(Apply(slot, a[0]), a[1..], b);
    }
  }

  /** All updates of the run happen at `from` or later. */
  predicate Since(from: nat, run: seq<Update>) {
    forall i | 0 <= i < |run| :: run[i].now >= from
  }

  /** `n` good requests in the same millisecond. */
  function Favours(at: nat, n: nat): seq<Update> { seq(n, _ => Update(false, at, 1.0, false)) }

  /** Violations number `j + 1` to `k`, a second apart. */
  function Strikes(at: nat, j: nat, k: nat): seq<Update>
    requires j <= k
  {
    seq(k - j, i requires 0 <= i < k - j => Update(true, at + 1000 * (j + i + 1), 1.0, false))
  }

  function Trusted(at: nat, n: nat): Slot<Record> { Present(Record(1.0, 0, n, None, at), Some(at + 1800000)) }

  lemma {:induction false} FavoursPlay(at: nat, have: nat, n: nat)
    ensures Playable(Trusted(at, have), Favours(at, n))
            && Play(Trusted(at, have), Favours(at, n)) == Trusted(at, have + n)
    decreases n
  {
    if n > 0 {
      assert Favours(at, n)[1..] == Favours(at, n - 1);
      assert Apply(Trusted(at, have), Favours(at, n)[0]) == Trusted(at, have + 1);
      FavoursPlay(at, have + 1, n - 1);
    }
  }

  lemma {:induction false} LossSnoc(v: nat, k: nat)
    ensures Loss(v, k + 1) == Loss(v, k) + 0.05 * Escalation(v + k + 1)
    decreases k
  {
    if k > 0 {
      LossSnoc(v + 1, k - 1);
    } else {
      assert Loss(v + 1, 0) == 0.0;
    }
  }

  /** Nineteen good requests behind it and `j` violations a second apart since. */
  predicate Declining(slot: Slot<Record>, at: nat, j: nat) {
    slot.Present? &&
    var r := slot.hash;
    && r.score == 1.0 - Loss(0, j) && r.violations == j && r.good == 19
    && r.lastViolation == if j == 0 then None else Some(at + 1000 * j)
  }

  /** One more violation a second later costs what the table says. */
  lemma DeclineStep(slot: Slot<Record>, at: nat, j: nat)
    requires Declining(slot, at, j) && j < 10
    ensures
      var u := Update(true, at + 1000 * (j + 1), 1.0, false);
      CanApply(slot, u) && Declining(Apply(slot, u), at, j + 1)
  {
    LossSnoc(0, j);
    LossGrows(0, j + 1, 10);
    LossTable();
    NineteenGoodsImpact();
    hide Loss, BaseImpact;
  }

  lemma {:induction false} StrikesPlay(slot: Slot<Record>, at: nat, j: nat, k: nat)
    requires Declining(slot, at, j) && j <= k <= 10
    ensures Playable(slot, Strikes(at, j, k)) && ScoreOf(Play(slot, Strikes(at, j, k))) == 1.0 - Loss(0, k)
    decreases k - j
  {
    if j < k {
      assert Strikes(at, j, k)[1..] == Strikes(at, j + 1, k);
      DeclineStep(slot, at, j);
      hide Loss, Apply, CanApply, Declining;
      StrikesPlay(Apply(slot, Strikes(at, j, k)[0]), at, j + 1, k);
    }
  }

  lemma NineteenGoodsImpact()
    ensures BaseImpact(19) == 0.05
  {
    assert 1.0 / (19 as real + 1.0) == 0.05;
  }

  /** Ten violations are not enough for a tenant with nineteen good requests behind it. */
  lemma {:induction false} TenViolationsMayNotBan(at: nat, k: nat)
    requires k <= 10
    ensures Playable(Absent, Favours(at, 19) + Strikes(at, 0, k))
    ensures ScoreOf(Play(Absent, Favours(at, 19) + Strikes(at, 0, k))) >= 0.325
  {
    FavoursPlayFromNothing(at);
    assert Loss(0, 0) == 0.0;
    StrikesPlay(Trusted(at, 19), at, 0, k);
    PlayAppend(Absent, Favours(at, 19), Strikes(at, 0, k));
    LossGrows(0, k, 10);
    LossTable();
  }

  lemma FavoursPlayFromNothing(at: nat)
    ensures Playable(Absent, Favours(at, 19)) && Play(Absent, Favours(at, 19)) == Trusted(at, 19)
  {
    assert Apply(Absent, Favours(at, 19)[0]) == Trusted(at, 1);
    assert Favours(at, 19)[1..] == Favours(at, 18);
    FavoursPlay(at, 1, 18);
  }

  lemma HealthyNewcomer()
    ensures Healthy(Absent)
  {
  }

  /** `tail` plays after some history of the tenant from `from` on, and consists of `k` violations. */
  ghost predicate StruckAfter(from: nat, run: seq<Update>, tail: seq<Update>, k: nat) {
    && Since(from, run) && Since(from, tail) && Playable(Absent, run) && Playable(Play(Absent, run), tail)
    && OnlyViolations(tail) && |tail| == k
  }

  /** `k` violations in a row after any history always ban, exactly when `k` is at least eleven. */
  lemma {:induction false} BanTakesEleven(from: nat, k: nat)
    ensures k >= 11 <==>
            forall run, tail | StruckAfter(from, run, tail, k) :: ScoreOf(Play(Play(Absent, run), tail)) <= THRESHOLD
  {
    hide Apply, CanApply, Healthy, Loss;
    if k >= 11 {
      forall run, tail | StruckAfter(from, run, tail, k)
        ensures ScoreOf(Play(Play(Absent, run), tail)) <= THRESHOLD
      {
        HealthyNewcomer();
        ReachableIsHealthy(Absent, run);
        ElevenViolationsBan(Play(Absent, run), tail);
      }
    } else {
      TenViolationsMayNotBan(from, k);
      FavoursPlayFromNothing(from);
      PlayAppend(Absent, Favours(from, 19), Strikes(from, 0, k));
      assert StruckAfter(from, Favours(from, 19), Strikes(from, 0, k), k);
    }
  }

  // ----- how slowly a ban heals -----

  function GoodCount(run: seq<Update>): nat {
    if run == [] then 0 else (if run[0].violation then 0 else 1) + GoodCount(run[1..])
  }

  /** From eight violations on a good update is worth exactly 0.001 / sqrt(v), clamped at 1. */
  lemma RewardIsTiny(r: Record, now: nat, root: Root)
    requires r.violations >= 8 && IsRoot(root, r.violations)
    ensures Rewarded(r, now, root).score == RMin(1.0, r.score + 0.001 / root)
    ensures r.violations >= 9 ==> Rewarded(r, now, root).score <= r.score + 0.001 / 3.0
  {
    RootMono(root, r.violations, 2.0);
    QuotientMono(0.001, 2.0, root);
    if r.violations >= 9 {
      RootMono(root, r.violations, 3.0);
      QuotientMono(0.001, 3.0, root);
    }
  }

  lemma QuotientMono(a: real, low: real, high: real)
    requires a >= 0.0 && 0.0 < low <= high
    ensures a / high <= a / low
  {
  }

  /**
   * With nine violations on record, `g` good updates lift a score by at most g / 3000, whatever violations come
   * between.
   */
  lemma {:induction false} HealingIsSlow(slot: Slot<Record>, run: seq<Update>)
    requires Healthy(slot) && Playable(slot, run) && (forall i | 0 <= i < |run| :: !run[i].lapsed)
    requires slot.Present? && slot.hash.violations >= 9
    ensures ScoreOf(Play(slot, run)) <= slot.hash.score + GoodCount(run) as real * (0.001 / 3.0)
    decreases |run|
  {
    if run != [] {
      var u := run[0];
      StepHealthy(slot, u);
      if !u.violation {
        RewardIsTiny(slot.hash, u.now, u.root);
      } else {
        assert BaseImpact(slot.hash.good) * Escalation(slot.hash.violations + 1) >= 0.0;
      }
      HealingIsSlow(Apply(slot, u), run[1..]);
    }
  }

  predicate NeverLapsed(run: seq<Update>) {
    forall i | 0 <= i < |run| :: !run[i].lapsed
  }

  predicate Banished(slot: Slot<Record>) {
    slot.Present? && slot.hash.violations >= 9 && slot.hash.score == 0.0
  }

  /** A tenant at zero with nine violations stays banned through any 900 good updates. */
  lemma {:induction false} NineHundredGoodsStayBanned(slot: Slot<Record>, run: seq<Update>)
    requires Healthy(slot) && Playable(slot, run) && NeverLapsed(run)
    requires Banished(slot) && GoodCount(run) <= 900
    ensures ScoreOf(Play(slot, run)) <= THRESHOLD
  {
    HealingIsSlow(slot, run);
    assert GoodCount(run) as real * (0.001 / 3.0) <= 900.0 * (0.001 / 3.0);
  }

  /** Violations in the same millisecond. */
  function Rapid(at: nat, n: nat): seq<Update> { seq(n, _ => Update(true, at, 1.0, false)) }

  function Heals(at: nat, n: nat): seq<Update> { seq(n, _ => Update(false, at, 3.0, false)) }

  function Caught(at: nat, score: real, violations: nat): Slot<Record> {
    Present(Record(score, violations, 0, Some(at), at), Some(at + 1000 * Ttl(score, violations)))
  }

  /** Score after `n` violations in the same millisecond. */
  function RapidScore(n: nat): real
    requires n >= 1
  {
    if n == 1 then 0.85 else RMax(0.0, RMax(0.0, RapidScore(n - 1) - 0.15 * Escalation(n)) - 0.2)
  }

  lemma RapidStep(at: nat, v: nat)
    requires at >= 1 && v >= 1
    ensures
      var slot, u := Caught(at, RapidScore(v), v), Update(true, at, 1.0, false);
      CanApply(slot, u) && Apply(slot, u) == Caught(at, RapidScore(v + 1), v + 1)
  {
    FirstImpact();
    hide BaseImpact, Ttl;
  }

  lemma FirstImpact()
    ensures BaseImpact(0) == 0.15
  {
    assert 1.0 / (0 as real + 1.0) == 1.0;
  }

  lemma {:induction false} RapidPlay(at: nat, v: nat, n: nat)
    requires at >= 1 && v >= 1
    ensures Playable(Caught(at, RapidScore(v), v), Rapid(at, n))
    ensures Play(Caught(at, RapidScore(v), v), Rapid(at, n)) == Caught(at, RapidScore(v + n), v + n)
    decreases n
  {
    if n > 0 {
      hide Apply, CanApply, Caught, RapidScore;
      assert Rapid(at, n)[1..] == Rapid(at, n - 1);
      RapidStep(at, v);
      RapidPlay(at, v + 1, n - 1);
    }
  }

  lemma NineRapidViolations(at: nat)
    requires at >= 1
    ensures Playable(Absent, Rapid(at, 9)) && Play(Absent, Rapid(at, 9)) == Caught(at, 0.0, 9)
  {
    assert 1.0 / (0 as real + 1.0) == 1.0;
    assert BaseImpact(0) == 0.15;
    assert Apply(Absent, Rapid(at, 9)[0]) == Caught(at, 0.85, 1);
    assert Rapid(at, 9)[1..] == Rapid(at, 8);
    RapidPlay(at, 1, 8);
    assert RapidScore(2) == 0.5;
    assert RapidScore(3) == 0.15;
    assert RapidScore(4) == 0.0;
    assert RapidScore(5) == 0.0;
    assert RapidScore(6) == 0.0;
    assert RapidScore(7) == 0.0;
    assert RapidScore(8) == 0.0;
  }

  /** At nine violations every good update adds 1/3000 exactly. */
  lemma {:induction false} HealsPlay(slot: Slot<Record>, at: nat, n: nat)
    requires slot.Present? && slot.hash.violations == 9
    requires slot.hash.score + n as real * (0.001 / 3.0) <= 1.0
    ensures Playable(slot, Heals(at, n))
            && ScoreOf(Play(slot, Heals(at, n))) == slot.hash.score + n as real * (0.001 / 3.0)
    ensures GoodCount(Heals(at, n)) == n
    decreases n
  {
    if n > 0 {
      assert Heals(at, n)[1..] == Heals(at, n - 1);
      RewardIsTiny(slot.hash, at, 3.0);
      HealsPlay(Apply(slot, Heals(at, n)[0]), at, n - 1);
    }
  }

  /** `tail` plays on a banished record after some history from `from` on, and holds at most `g` good updates. */
  ghost predicate HealedAfter(from: nat, run: seq<Update>, tail: seq<Update>, g: nat) {
    && Since(from, run) && Since(from, tail) && Playable(Absent, run) && Playable(Play(Absent, run), tail)
    && Banished(Play(Absent, run)) && NeverLapsed(tail) && GoodCount(tail) <= g
  }

  /**
   * Nine hundred is exact: a tenant driven to zero by nine violations is safe to call banned for `g` good
   * updates iff g <= 900.
   */
  lemma {:induction false} BanOutlastsNineHundred(from: nat, g: nat)
    ensures (forall run, tail | HealedAfter(from, run, tail, g) :: ScoreOf(Play(Play(Absent, run), tail)) <= THRESHOLD)
            <==> g <= 900
  {
    if g <= 900 {
      forall run, tail | HealedAfter(from, run, tail, g)
        ensures ScoreOf(Play(Play(Absent, run), tail)) <= THRESHOLD
      {
        ReachableIsHealthy(Absent, run);
        NineHundredGoodsStayBanned(Play(Absent, run), tail);
      }
    } else {
      var at := from + 1;
      NineRapidViolations(at);
      HealsPlay(Caught(at, 0.0, 9), at, 901);
      assert HealedAfter(from, Rapid(at, 9), Heals(at, 901), g);
      assert ScoreOf(Play(Play(Absent, Rapid(at, 9)), Heals(at, 901))) > THRESHOLD;
    }
  }
}
