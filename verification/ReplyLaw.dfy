/** What the numbers in a reply promise the caller. */
module ReplyLaw {
  import opened Arithmetic
  import opened Config
  import opened Limits
  import opened Sums
  import opened Runs
  import opened Observation

  /** Of calls that all come at `now`, the next `n` are admitted and the one after them is not. */
  ghost predicate Grants(cfg: Policy, e: Entry, now: nat, n: nat)
    decreases n
  {
    var c := Call(cfg, now, false);
    if n == 0 then !Answer(e, c).allowed
    else Answer(e, c).allowed && Grants(cfg, After(e, c), now, n - 1)
  }

  /** Every call at `now` is admitted, however many there are. */
  ghost predicate GrantsAll(cfg: Policy, e: Entry, now: nat) {
    forall n: nat :: !Grants(cfg, e, now, n)
  }

  lemma {:induction false} TokensGrant(cfg: Policy, e: Entry, now: nat, n: nat)
    requires cfg.TokenBucket? && e.state.Tokens? && e.state.cfg == cfg && e.state.tokens == n
    requires now < e.state.last + cfg.period
    ensures Grants(cfg, e, now, n)
    decreases n
  {
    if now > e.state.last {
      DivUnique(now - e.state.last, cfg.period, 0);
    }
    if n > 0 {
      TokensGrant(cfg, After(e, Call(cfg, now, false)), now, n - 1);
    }
  }

  lemma {:induction false} LevelGrants(cfg: Policy, e: Entry, now: nat, n: nat)
    requires cfg.LeakyBucket? && e.state.Level? && e.state.cfg == cfg && e.state.level == cfg.capacity - n
    requires now < e.state.last + cfg.period
    ensures Grants(cfg, e, now, n)
    decreases n
  {
    if now > e.state.last {
      DivUnique(now - e.state.last, cfg.period, 0);
    }
    if n > 0 {
      LevelGrants(cfg, After(e, Call(cfg, now, false)), now, n - 1);
    }
  }

  lemma {:induction false} WindowGrants(cfg: Policy, e: Entry, now: nat, n: nat)
    requires cfg.FixedWindow? && e.state.Window? && e.state.cfg == cfg && e.state.count == cfg.limit - n
    requires e.state.start >= WindowStart(now, cfg.window)
    ensures Grants(cfg, e, now, n)
    decreases n
  {
    if n > 0 {
      WindowGrants(cfg, After(e, Call(cfg, now, false)), now, n - 1);
    }
  }

  /** The histogram that a sliding window call counts. */
  function Counted(cfg: Policy, e: Entry, now: nat): map<int, int>
    requires cfg.SlidingWindow? && e.state.Histogram?
  {
    Recent(e.state.counts, now - cfg.window)
  }

  /** Bumping a bucket counts once if the bucket is recent, and not at all otherwise. */
  lemma BumpCounts(counts: map<int, int>, from: int, b: int)
    ensures
      var kept := Recent(counts, from);
      && Recent(kept, from) == kept
      && Total(Recent(Bump(kept, b), from)) == Total(kept) + if b >= from then 1 else 0
  {
    var kept := Recent(counts, from);
    RecentOfRecent(counts, from, from);
    RecentOfBump(kept, b, from);
    TotalUpdate(kept, b, (if b in kept then kept[b] else 0) + 1);
  }

  lemma SlidingStep(cfg: Policy, e: Entry, now: nat)
    requires cfg.SlidingWindow? && e.state.Histogram? && e.state.cfg == cfg
    ensures
      var c, total := Call(cfg, now, false), Total(Counted(cfg, e, now));
      && (Answer(e, c).allowed <==> total < cfg.limit)
      && After(e, c).state.Histogram? && After(e, c).state.cfg == cfg
      && (total < cfg.limit ==>
            Total(Counted(cfg, After(e, c), now)) == if Bucket(now) >= now - cfg.window then total + 1 else total)
  {
    hide Recent, Bump, Total, IsOldest;
    BumpCounts(e.state.counts, now - cfg.window, Bucket(now));
  }

  lemma {:induction false} HistogramGrants(cfg: Policy, e: Entry, now: nat, n: nat)
    requires cfg.SlidingWindow? && e.state.Histogram? && e.state.cfg == cfg
    requires Bucket(now) >= now - cfg.window && Total(Counted(cfg, e, now)) == cfg.limit - n
    ensures Grants(cfg, e, now, n)
    decreases n
  {
    hide After, Answer, Total, Counted;
    SlidingStep(cfg, e, now);
    if n > 0 {
      HistogramGrants(cfg, After(e, Call(cfg, now, false)), now, n - 1);
    }
  }

  /** A second that is out of the window before it is over is never counted while it lasts. */
  lemma {:induction false} UncountedGrantsAll(cfg: Policy, e: Entry, now: nat, n: nat)
    requires cfg.SlidingWindow? && e.state.Histogram? && e.state.cfg == cfg
    requires Bucket(now) < now - cfg.window && Total(Counted(cfg, e, now)) < cfg.limit
    ensures !Grants(cfg, e, now, n)
    decreases n
  {
    hide After, Answer, Total, Counted;
    SlidingStep(cfg, e, now);
    if n > 0 {
      UncountedGrantsAll(cfg, After(e, Call(cfg, now, false)), now, n - 1);
    }
  }

  /** The window is long enough for the second of `now` to count at `now`. */
  predicate CountsItsSecond(cfg: Policy, now: nat) {
    cfg.SlidingWindow? ==> now % 1000 <= cfg.window
  }

  lemma BucketRemainingIsExact(e: Entry, c: Call)
    requires Sane(e) && c.cfg.Valid() && (c.cfg.TokenBucket? || c.cfg.LeakyBucket?) && Answer(e, c).allowed
    ensures Answer(e, c).remaining >= 0 && Grants(c.cfg, After(e, c), c.now, Answer(e, c).remaining)
  {
    var cfg, e', n := c.cfg, After(e, c), Answer(e, c).remaining;
    StepSane(e, c);
    if Settle(e, c).state.Tokens? || Settle(e, c).state.Level? {
      NowIsWithinPeriod(Settle(e, c).state.last, c.now, cfg.period);
    }
    if cfg.TokenBucket? {
      TokensGrant(cfg, e', c.now, n);
    } else {
      LevelGrants(cfg, e', c.now, n);
    }
  }

  lemma NowIsWithinPeriod(last: int, now: nat, period: int)
    requires period >= 1
    ensures now < last + Periods(last, now, period) * period + period
  {
    DivBounds(now - last, period);
  }

  lemma SlidingAdmission(e: Entry, c: Call)
    requires c.cfg.SlidingWindow? && Answer(e, c).allowed
    ensures
      var e', n, now := After(e, c), Answer(e, c).remaining, c.now;
      && n >= 0 && e'.state.Histogram? && e'.state.cfg == c.cfg
      && Total(Counted(c.cfg, e', now)) == c.cfg.limit - n - if Bucket(now) >= now - c.cfg.window then 0 else 1
  {
    hide Recent, Bump, Total, IsOldest;
    var cfg, now, f := c.cfg, c.now, Settle(e, c);
    var counts := if f.state.Histogram? && f.state.cfg == cfg then f.state.counts else map[];
    BumpCounts(counts, now - cfg.window, Bucket(now));
  }

  lemma SlidingRemainingIsExact(e: Entry, c: Call)
    requires c.cfg.SlidingWindow? && Answer(e, c).allowed
    ensures Answer(e, c).remaining >= 0
    ensures if c.now % 1000 <= c.cfg.window then Grants(c.cfg, After(e, c), c.now, Answer(e, c).remaining)
            else GrantsAll(c.cfg, After(e, c), c.now)
  {
    hide After, Answer, Total, Counted, Grants;
    var cfg, now, e', n := c.cfg, c.now, After(e, c), Answer(e, c).remaining;
    SlidingAdmission(e, c);
    DivBounds(now, 1000);
    assert Bucket(now) == now - now % 1000;
    if now % 1000 <= cfg.window {
      HistogramGrants(cfg, e', now, n);
    } else {
      forall k: nat ensures !Grants(cfg, e', now, k) {
        UncountedGrantsAll(cfg, e', now, k);
      }
    }
  }

  /**
   * What a reply promises, for every algorithm and from every state a run can reach. An admission that leaves `n`
   * means that exactly the next `n` calls at that instant are admitted, if and only if a sliding window still
   * counts the second it is in; it asks for no waiting. A denial leaves nothing.
   */
  lemma {:induction false} RemainingIsExactIff(e: Entry, c: Call)
    requires Sane(e) && c.cfg.Valid()
    ensures
      var r := Answer(e, c);
      && r.remaining >= 0 && r.retryAfter >= 0
      && (r.allowed ==> r.retryAfter == 0)
      && (r.allowed ==> (Grants(c.cfg, After(e, c), c.now, r.remaining) <==> CountsItsSecond(c.cfg, c.now)))
      && (!r.allowed ==> r.remaining == 0 && Grants(c.cfg, Settle(e, c), c.now, 0))
  {
    RepliesAreInRange(e, c);
    hide After;
    if Answer(e, c).allowed {
      match c.cfg
      case TokenBucket(_, _, _) => BucketRemainingIsExact(e, c);
      case LeakyBucket(_, _, _) => BucketRemainingIsExact(e, c);
      case FixedWindow(_, _) => FixedRemainingIsExact(e, c);
      case SlidingWindow(_, _) => SlidingRemainingIsExact(e, c);
    } else {
      DenialRepeats(e, c);
    }
  }

  lemma DenialRepeats(e: Entry, c: Call)
    requires !Answer(e, c).allowed
    ensures !Answer(Settle(e, c), Call(c.cfg, c.now, false)).allowed
  {
  }

  lemma FixedRemainingIsExact(e: Entry, c: Call)
    requires Sane(e) && c.cfg.Valid() && c.cfg.FixedWindow? && Answer(e, c).allowed
    ensures Answer(e, c).remaining >= 0 && Grants(c.cfg, After(e, c), c.now, Answer(e, c).remaining)
  {
    WindowStartIsMultiple(c.now, c.cfg.window);
    WindowGrants(c.cfg, After(e, c), c.now, Answer(e, c).remaining);
  }

  lemma RepliesAreInRange(e: Entry, c: Call)
    requires Sane(e) && c.cfg.Valid()
    ensures
      var r := Answer(e, c);
      && r.remaining >= 0 && r.retryAfter >= 0
      && (r.allowed ==> r.retryAfter == 0) && (!r.allowed ==> r.remaining == 0)
  {
    var f := Settle(e, c);
    if c.cfg.TokenBucket? && f.state.Tokens? {
      MulMono(0, Periods(f.state.last, c.now, c.cfg.period), c.cfg.rate);
    }
  }

  lemma {:induction false} RunIsSane(e: Entry, run: seq<Call>)
    requires Sane(e) && AllValid(run)
    ensures Sane(Final(e, run))
    decreases |run|
  {
    hide After, Sane;
    if run != [] {
      StepSane(e, run[0]);
      RunIsSane(After(e, run[0]), run[1..]);
    }
  }

  /** The same at the end of any run, whatever configurations, clocks and lapses it had. */
  lemma {:induction false} RemainingAfterRunIsExactIff(run: seq<Call>, c: Call)
    requires AllValid(run) && c.cfg.Valid()
    ensures
      var e := Final(BLANK, run);
      var r := Answer(e, c);
      && (r.allowed ==> r.remaining >= 0 && r.retryAfter == 0)
      && (r.allowed ==> (Grants(c.cfg, After(e, c), c.now, r.remaining) <==> CountsItsSecond(c.cfg, c.now)))
      && (!r.allowed ==> r.remaining == 0)
  {
    hide After, Answer, Final, Grants;
    RunIsSane(BLANK, run);
    RemainingIsExactIff(Final(BLANK, run), c);
  }
}
