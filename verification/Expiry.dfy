/** For the window algorithms a lapsed key holds nothing a call could still see. */
module Expiry {
  import opened Arithmetic
  import opened Config
  import opened Limits
  import opened Sums
  import opened Runs
  import opened Observation
  import opened DeniedCalls

  predicate AllWindows(run: seq<Call>) {
    forall i | 0 <= i < |run| :: run[i].cfg.FixedWindow? || run[i].cfg.SlidingWindow?
  }

  /** The expiry of a key is no earlier than the instant its content goes stale. */
  ghost predicate Timely(e: Entry, u: nat) {
    match e.state
    case Fresh => true
    case Window(cfg, _, start) =>
      cfg.FixedWindow? && (e.expiresAt.Some? ==> e.expiresAt.value >= start + cfg.window)
    case Histogram(cfg, counts) =>
      cfg.SlidingWindow? &&
      forall b | b in counts :: b <= u && (e.expiresAt.Some? ==> e.expiresAt.value > b + cfg.window)
    case _ => false
  }

  lemma StepTimely(e: Entry, u: nat, c: Call)
    requires Sane(e) && Timely(e, u) && u <= c.now && c.cfg.Valid()
    requires c.cfg.FixedWindow? || c.cfg.SlidingWindow?
    ensures Timely(After(e, c), c.now)
  {
    DivBounds(c.now, 1000);
    if c.cfg.SlidingWindow? {
      assert Recent(map[], c.now - c.cfg.window) == map[];
    } else {
      WindowStartIsMultiple(c.now, c.cfg.window);
    }
  }

  /** A key that may lapse shows nothing to any later call. */
  lemma {:induction false} LapsedShowsNothing(e: Entry, u: nat, now: nat)
    requires Sane(e) && Timely(e, u) && MayLapse(e, now)
    ensures SameFrom(e, BLANK, now)
  {
    forall cfg: Policy, t: nat | t >= now
      ensures View(cfg, e, t) == Fresh
    {
      if cfg.FixedWindow? && e.state.Window? && e.state.cfg == cfg {
        WindowStartIsMultiple(t, cfg.window);
      }
      if cfg.SlidingWindow? && e.state.Histogram? && e.state.cfg == cfg {
        assert Recent(e.state.counts, t - cfg.window) == map[];
      }
    }
  }

  function WithoutLapses(run: seq<Call>): seq<Call> {
    seq(|run|, i requires 0 <= i < |run| => run[i].(lapsed := false))
  }

  lemma {:induction false} LapseFreeTwin(e: Entry, f: Entry, u: nat, run: seq<Call>)
    requires Sane(e) && Sane(f) && Timely(e, u) && SameFrom(e, f, u)
    requires AllValid(run) && AllWindows(run) && Ordered(u, run) && Feasible(e, run)
    ensures Replies(e, run) == Replies(f, WithoutLapses(run))
    decreases |run|
  {
    if run != [] {
      var c := run[0];
      var d := c.(lapsed := false);
      if c.lapsed {
        LapsedShowsNothing(e, u, c.now);
      }
      assert View(c.cfg, e, c.now) == View(c.cfg, f, c.now);
      ViewDecides(e, f, c);
      StepSane(e, c);
      StepSane(f, d);
      StepTimely(e, u, c);
      assert WithoutLapses(run)[1..] == WithoutLapses(run[1..]);
      LapseFreeTwin(After(e, c), After(f, d), c.now, run[1..]);
    }
  }

  /** Key expiry is a no-op for the window algorithms, under any mix of window configurations on the key. */
  lemma {:induction false} ExpiryIsInvisibleToWindows(run: seq<Call>)
    requires AllValid(run) && AllWindows(run) && Ordered(0, run) && Feasible(BLANK, run)
    ensures Replies(BLANK, run) == Replies(BLANK, WithoutLapses(run))
  {
    LapseFreeTwin(BLANK, BLANK, 0, run);
  }
}
