/** One statement for all four algorithms: what a single key can admit in an interval. */
module AdmissionLaw {
  import opened Config
  import opened Limits
  import opened Runs
  import opened RequestLog
  import opened Bisimulation
  import BucketBound
  import WindowBound
  import SlidingBound
  import ConfigChange

  /** `n` admissions in `[s, t]` are within the configured law. */
  predicate Lawful(cfg: Policy, n: int, s: nat, t: nat)
    requires s <= t
  {
    match cfg
    case TokenBucket(capacity, rate, period) => n * period <= capacity * period + rate * (t - s + period - 1)
    case LeakyBucket(capacity, rate, period) => n * period <= capacity * period + rate * (t - s + period - 1)
    case FixedWindow(limit, window) => n <= limit * (t / window - s / window + 1)
    case SlidingWindow(limit, window) => t <= s + window - 999 ==> n <= limit
  }

  lemma {:induction false} TwinAdmits(e: Entry, f: Entry, run: seq<Call>, s: int, t: int)
    requires Mirror(e, f) && AllToken(run) && forall i | 0 <= i < |run| :: run[i].cfg.Valid()
    ensures Admitted(e, run, s, t) == Admitted(f, TwinRun(run), s, t)
    decreases |run|
  {
    if run != [] {
      StepMirrors(e, f, run[0]);
      assert TwinRun(run)[1..] == TwinRun(run[1..]);
      hide After, Answer, Mirror;
      TwinAdmits(After(e, run[0]), After(f, TwinCall(run[0])), run[1..], s, t);
    }
  }

  lemma {:induction false} LeakyLaw(cfg: Policy, run: seq<Call>, s: nat, t: nat)
    requires cfg.LeakyBucket? && cfg.Valid() && Uses(cfg, run) && Ordered(0, run) && Feasible(BLANK, run) && s <= t
    ensures Lawful(cfg, Admitted(BLANK, run, s, t), s, t)
  {
    var plain := Untwin(cfg, run);
    UntwinIsInverse(cfg, run);
    TwinAdmits(BLANK, BLANK, plain, s, t);
    Bisimilar(BLANK, BLANK, plain);
    TwinClock(0, plain);
    BucketBound.AdmissionBound(TokenBucket(cfg.capacity, cfg.rate, cfg.period), BLANK, 0, plain, s, t);
  }

  /**
   * From an unused key, in every run of one validated configuration with timestamps that never decrease, expiry
   * allowed.
   */
  lemma {:induction false} EveryAlgorithmIsLawful(cfg: Policy, run: seq<Call>, s: nat, t: nat)
    requires cfg.Valid() && Uses(cfg, run) && Ordered(0, run) && Feasible(BLANK, run) && s <= t
    ensures Lawful(cfg, Admitted(BLANK, run, s, t), s, t)
  {
    match cfg
    case TokenBucket(_, _, _) => BucketBound.AdmissionBound(cfg, BLANK, 0, run, s, t);
    case LeakyBucket(_, _, _) => LeakyLaw(cfg, run, s, t);
    case FixedWindow(_, _) =>
      WindowBound.CountingBound(cfg, run, s, t);
      AdmittedIsCount(BLANK, run, s, t);
    case SlidingWindow(_, window) =>
      SlidingBound.QuotaHoldsOnShortenedWindow(cfg, run, s);
      AdmittedIsCount(BLANK, run, s, t);
      if t <= s + window - 999 {
        CountMono(Log(BLANK, run), s, t, s, s + window - 999);
      }
  }

  /** A block of calls under a configuration that the key did not have before, on whatever the key holds. */
  lemma {:induction false} BlockIsLawful(cfg: Policy, e: Entry, u: nat, block: seq<Call>, s: nat, t: nat)
    requires cfg.Valid() && Uses(cfg, block) && Ordered(u, block) && Feasible(e, block) && s <= t
    requires e == BLANK || (!e.state.Fresh? && e.state.cfg != cfg)
    ensures Lawful(cfg, Admitted(e, block, s, t), s, t)
  {
    OrderedFromZero(u, block);
    hide Lawful;
    if block == [] || e == BLANK {
      assert Admitted(e, block, s, t) == Admitted(BLANK, block, s, t) && Feasible(BLANK, block);
      EveryAlgorithmIsLawful(cfg, block, s, t);
    } else {
      var c, rest := block[0], block[1..];
      var plain := [c.(lapsed := false)] + rest;
      ConfigChange.RestartIsBlank(e, c);
      hide After, Answer;
      assert plain[1..] == rest;
      assert After(BLANK, c) == After(BLANK, plain[0])
             && Answer(BLANK, c) == Answer(BLANK, plain[0]) by { LapseOfNothing(c); }
      assert Admitted(e, block, s, t) == Admitted(BLANK, plain, s, t);
      EveryAlgorithmIsLawful(cfg, plain, s, t);
    }
  }

  lemma LapseOfNothing(c: Call)
    ensures After(BLANK, c) == After(BLANK, c.(lapsed := false))
            && Answer(BLANK, c) == Answer(BLANK, c.(lapsed := false))
  {
  }

  lemma {:induction false} SplitRun(e: Entry, u: nat, a: seq<Call>, b: seq<Call>)
    requires Ordered(u, a + b) && Feasible(e, a + b)
    ensures Ordered(u, a) && Feasible(e, a) && Ordered(Clock(u, a), b) && Feasible(Final(e, a), b)
    decreases |a|
  {
    if a == [] {
      assert a + b == b;
    } else {
      hide After;
      assert (a + b)[0] == a[0] && (a + b)[1..] == a[1..] + b;
      SplitRun(After(e, a[0]), a[0].now, a[1..], b);
    }
  }

  /**
   * One key, any sequence of algorithms, configurations and lapses, timestamps that never decrease: each stretch of
   * calls under one configuration that begins with a change is within that configuration's law.
   */
  lemma {:induction false} EveryBlockIsLawful(run: seq<Call>, i: nat, j: nat, s: nat, t: nat)
    requires (forall k | 0 <= k < |run| :: run[k].cfg.Valid()) && Ordered(0, run) && Feasible(BLANK, run) && s <= t
    requires i < j <= |run| && (forall k | i <= k < j :: run[k].cfg == run[i].cfg)
             && (i > 0 ==> run[i - 1].cfg != run[i].cfg)
    ensures Lawful(run[i].cfg, Admitted(Final(BLANK, run[..i]), run[i..j], s, t), s, t)
  {
    hide After, Answer, Lawful, Feasible, Ordered, Admitted, Clock;
    var before, block := run[..i], run[i..j];
    assert run == before + (block + run[j..]);
    SplitRun(BLANK, 0, before, block + run[j..]);
    SplitRun(Final(BLANK, before), Clock(0, before), block, run[j..]);
    if i > 0 {
      ConfigChange.FinalRemembersLast(BLANK, before);
    }
    BlockIsLawful(run[i].cfg, Final(BLANK, before), Clock(0, before), block, s, t);
  }
}
