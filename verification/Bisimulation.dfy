/** The token bucket and the leaky bucket are the same limiter seen from its two ends. */
module Bisimulation {
  import opened Prelude
  import opened Config
  import opened Limits
  import opened Runs

  function Twin(cfg: Policy): (r: Policy)
    requires cfg.TokenBucket?
  {
    LeakyBucket(cfg.capacity, cfg.rate, cfg.period)
  }

  predicate AllToken(run: seq<Call>) {
    forall i | 0 <= i < |run| :: run[i].cfg.TokenBucket?
  }

  function TwinCall(c: Call): Call
    requires c.cfg.TokenBucket?
  {
    Call(Twin(c.cfg), c.now, c.lapsed)
  }

  function TwinRun(run: seq<Call>): seq<Call>
    requires AllToken(run)
  {
    seq(|run|, i requires 0 <= i < |run| => TwinCall(run[i]))
  }

  function Untwin(cfg: Policy, run: seq<Call>): seq<Call>
    requires cfg.LeakyBucket?
  {
    seq(|run|, i requires 0 <= i < |run| => Call(TokenBucket(cfg.capacity, cfg.rate, cfg.period), run[i].now,
        run[i].lapsed))
  }

  lemma UntwinIsInverse(cfg: Policy, run: seq<Call>)
    requires cfg.LeakyBucket? && Uses(cfg, run)
    ensures Uses(TokenBucket(cfg.capacity, cfg.rate, cfg.period), Untwin(cfg, run)) && TwinRun(Untwin(cfg, run)) == run
  {
  }

  lemma {:induction false} TwinClock(u: nat, run: seq<Call>)
    requires AllToken(run)
    ensures Ordered(u, run) <==> Ordered(u, TwinRun(run))
    decreases |run|
  {
    if run != [] {
      assert TwinRun(run)[1..] == TwinRun(run[1..]);
      TwinClock(run[0].now, run[1..]);
    }
  }

  /** Level is capacity minus tokens; clocks and expiries agree. */
  ghost predicate Mirror(e: Entry, f: Entry) {
    && e.expiresAt == f.expiresAt
    && match (e.state, f.state)
       case (Fresh, Fresh) => true
       case (Tokens(c, tokens, last), Level(d, level, last')) =>
         && c.Valid() && c.TokenBucket? && d == LeakyBucket(c.capacity, c.rate, c.period)
         && 0 <= tokens <= c.capacity && level == c.capacity - tokens && last' == last
       case _ => false
  }

  lemma {:induction false} StepMirrors(e: Entry, f: Entry, c: Call)
    requires Mirror(e, f) && c.cfg.TokenBucket? && c.cfg.Valid()
    ensures Mirror(After(e, c), After(f, TwinCall(c)))
    ensures Answer(e, c) == Answer(f, TwinCall(c))
  {
    if e.state.Tokens? {
      assert Periods(e.state.last, c.now, c.cfg.period) * c.cfg.rate >= 0;
    }
  }

  /**
   * Same triple on every call of every run: any mix of configurations, any clock, any expiry.
   * The equal expiries also make a lapse possible in one run exactly when it is in the other.
   */
  lemma {:induction false} Bisimilar(e: Entry, f: Entry, run: seq<Call>)
    requires Mirror(e, f) && AllToken(run)
    requires forall i | 0 <= i < |run| :: run[i].cfg.Valid()
    ensures Replies(e, run) == Replies(f, TwinRun(run))
    ensures Mirror(Final(e, run), Final(f, TwinRun(run)))
    ensures Feasible(e, run) <==> Feasible(f, TwinRun(run))
    decreases |run|
  {
    if run != [] {
      StepMirrors(e, f, run[0]);
      Bisimilar(After(e, run[0]), After(f, TwinCall(run[0])), run[1..]);
      assert TwinRun(run)[1..] == TwinRun(run[1..]);
    }
  }

  /** The validator's capacity >= 1 is exactly what the agreement needs. */
  lemma {:induction false} MirrorNeedsCapacity(cfg: Policy)
    requires cfg.TokenBucket?
    ensures cfg.capacity >= 1 <==>
            forall e, f, now: nat | Mirror(e, f) ::
              TokenCheck(cfg, e, now).1 == LeakyCheck(Twin(cfg), f, now).1
  {
    if cfg.capacity >= 1 {
      forall e, f, now: nat | Mirror(e, f)
        ensures TokenCheck(cfg, e, now).1 == LeakyCheck(Twin(cfg), f, now).1
      {
        StepMirrors(e, f, Call(cfg, now, false));
      }
    } else {
      var other: Policy := TokenBucket(1, cfg.rate, cfg.period);
      var e, f := Entry(Tokens(other, 1, 0), None), Entry(Level(Twin(other), 0, 0), None);
      assert Mirror(e, f);
      assert TokenCheck(cfg, e, 0).1 != LeakyCheck(Twin(cfg), f, 0).1;
    }
  }
}
