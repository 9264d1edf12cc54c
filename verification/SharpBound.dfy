/**
 * A refill is worth no more than the capacity, and an expired key no more than a refill: bounds that every
 * token bucket attains.
 */
module SharpBound {
  import opened Prelude
  import opened Arithmetic
  import opened Config
  import opened Limits
  import opened Runs
  import opened RequestLog
  import opened BucketBound
  import RetryAfter
  import ConfigChange

  /** The same bucket with the part of a refill that cannot fit cut off. */
  function Capped(cfg: Policy): (r: Policy)
    requires cfg.TokenBucket? && cfg.capacity >= 1
    ensures r.TokenBucket? && r.Valid() && r.rate <= r.capacity
  {
    TokenBucket(cfg.capacity, Min(cfg.rate, cfg.capacity), cfg.period)
  }

  function Recast(cfg: Policy, run: seq<Call>): seq<Call> {
    seq(|run|, i requires 0 <= i < |run| => run[i].(cfg := cfg))
  }

  /** Same tokens, same clock; the expiries may differ. */
  predicate Alike(cfg: Policy, e: Entry, f: Entry)
    requires cfg.TokenBucket? && cfg.capacity >= 1
  {
    || (e.state.Fresh? && f.state.Fresh?)
    || (&& e.state.Tokens? && e.state.cfg == cfg && 0 <= e.state.tokens <= cfg.capacity
        && f.state == Tokens(Capped(cfg), e.state.tokens, e.state.last))
  }

  lemma StepAlike(cfg: Policy, e: Entry, f: Entry, c: Call)
    requires cfg.TokenBucket? && cfg.capacity >= 1 && Alike(cfg, e, f) && c.cfg == cfg && !c.lapsed
    ensures Alike(cfg, After(e, c), After(f, c.(cfg := Capped(cfg))))
    ensures Answer(e, c) == Answer(f, c.(cfg := Capped(cfg)))
  {
    if e.state.Tokens? {
      var k := Periods(e.state.last, c.now, cfg.period);
      MulMono(0, k, cfg.rate);
      if k >= 1 {
        MulMono(1, k, cfg.rate);
        MulMono(1, k, cfg.capacity);
      }
    }
  }

  lemma {:induction false} RunAlike(cfg: Policy, e: Entry, f: Entry, run: seq<Call>, s: int, t: int)
    requires cfg.TokenBucket? && cfg.capacity >= 1 && Alike(cfg, e, f) && Uses(cfg, run) && NoLapse(run)
    ensures Admitted(e, run, s, t) == Admitted(f, Recast(Capped(cfg), run), s, t)
    decreases |run|
  {
    hide After, Answer, Alike;
    if run != [] {
      StepAlike(cfg, e, f, run[0]);
      assert Recast(Capped(cfg), run)[1..] == Recast(Capped(cfg), run[1..]);
      RunAlike(cfg, After(e, run[0]), After(f, run[0].(cfg := Capped(cfg))), run[1..], s, t);
    }
  }

  lemma {:induction false} RecastOrdered(cfg: Policy, u: nat, run: seq<Call>)
    ensures Ordered(u, run) <==> Ordered(u, Recast(cfg, run))
    decreases |run|
  {
    if run != [] {
      assert Recast(cfg, run)[1..] == Recast(cfg, run[1..]);
      RecastOrdered(cfg, run[0].now, run[1..]);
    }
  }

  lemma {:induction false} NoLapseFeasible(e: Entry, run: seq<Call>)
    requires NoLapse(run)
    ensures Feasible(e, run)
    decreases |run|
  {
    hide After;
    if run != [] {
      NoLapseFeasible(After(e, run[0]), run[1..]);
    }
  }

  /**
   * In every run without expiry, [s, t] admits at most capacity + min(rate, capacity) * (t - s + period - 1) /
   * period.
   */
  lemma {:induction false} SharperBound(cfg: Policy, run: seq<Call>, s: int, t: int)
    requires cfg.TokenBucket? && cfg.capacity >= 1 && Uses(cfg, run) && Ordered(0, run) && NoLapse(run) && s <= t
    ensures Admitted(BLANK, run, s, t) * cfg.period
         <= cfg.capacity * cfg.period + Min(cfg.rate, cfg.capacity) * (t - s + cfg.period - 1)
  {
    var run' := Recast(Capped(cfg), run);
    RunAlike(cfg, BLANK, BLANK, run, s, t);
    RecastOrdered(Capped(cfg), 0, run);
    assert NoLapse(run');
    NoLapseFeasible(BLANK, run');
    AdmissionBound(Capped(cfg), BLANK, 0, run', s, t);
  }

  function Tight(cfg: Policy, start: nat): seq<Call>
    requires cfg.TokenBucket? && cfg.capacity >= 1
  {
    Squeeze(cfg, start, Min(cfg.rate, cfg.capacity))
  }

  /** Every token bucket, whatever its rate, meets the sharper bound with equality. */
  lemma {:induction false} SharperBoundIsTight(cfg: Policy, start: nat)
    requires cfg.TokenBucket? && cfg.capacity >= 1
    ensures
      var s, t := start + 2 * cfg.period - 1, start + 2 * cfg.period;
      && Uses(cfg, Tight(cfg, start)) && Ordered(start, Tight(cfg, start)) && NoLapse(Tight(cfg, start))
      && Admitted(BLANK, Tight(cfg, start), s, t) * cfg.period
         == cfg.capacity * cfg.period + Min(cfg.rate, cfg.capacity) * (t - s + cfg.period - 1)
  {
    hide Admitted, Ordered, Feasible;
    assert Recast(Capped(cfg), Tight(cfg, start)) == Tight(Capped(cfg), start);
    AdmissionBoundIsTight(Capped(cfg), start);
    RunAlike(cfg, BLANK, BLANK, Tight(cfg, start), start + 2 * cfg.period - 1, start + 2 * cfg.period);
    RecastOrdered(Capped(cfg), start, Tight(cfg, start));
  }

  // ----- with expiry -----

  /** The shortest time in which a bucket can be renewed: by its next refill, or by its key's expiry. */
  function Renewal(cfg: Policy): (d: int)
    requires cfg.TokenBucket?
    ensures 1 <= d <= cfg.period && d <= 1000 * BucketTtl(cfg)
  {
    TtlCoversFullRefill(cfg);
    TtlIsPositive(cfg);
    Min(cfg.period, 1000 * BucketTtl(cfg))
  }

  lemma TtlIsPositive(cfg: Policy)
    requires cfg.TokenBucket?
    ensures BucketTtl(cfg) >= 1
  {
    MulMono(0, cfg.capacity, cfg.period);
    var q := CeilDiv(cfg.capacity * cfg.period, cfg.rate * 1000);
    if q < 0 {
      MulMono(q, -1, cfg.rate * 1000);
    }
  }

  /** What a call at `u` leaves behind: an expiry that is the full TTL away. */
  predicate Kept(cfg: Policy, e: Entry, u: nat)
    requires cfg.TokenBucket?
  {
    e.state.Tokens? && e.state.cfg == cfg ==>
      && 0 <= e.state.tokens <= cfg.capacity && e.state.last <= u && e.expiresAt == Some(u + 1000 * BucketTtl(cfg))
  }

  /** Tokens in hand plus what has been earned towards the next renewal, in units of one token per renewal time. */
  function Worth(cfg: Policy, e: Entry, u: int): int
    requires cfg.TokenBucket?
  {
    if e.state.Tokens? && e.state.cfg == cfg
    then e.state.tokens * Renewal(cfg) + cfg.capacity * Max(0, Renewal(cfg) - cfg.period + u - e.state.last)
    else cfg.capacity * Renewal(cfg)
  }

  /** Waiting earns at most one capacity per renewal time, whether it ends in a refill, a lapse or nothing. */
  lemma ReadEarnsWorth(cfg: Policy, e: Entry, u: nat, c: Call)
    requires cfg.TokenBucket? && cfg.rate >= cfg.capacity && c.cfg == cfg && u <= c.now
    requires Kept(cfg, e, u) && (c.lapsed ==> MayLapse(e, c.now))
    ensures
      var (tokens, last) := Refilled(cfg, Settle(e, c), c.now);
      var earned := cfg.capacity * Max(0, Renewal(cfg) - cfg.period + c.now - last);
      && 0 <= tokens <= cfg.capacity && last <= c.now < last + cfg.period
      && tokens * Renewal(cfg) + earned <= Worth(cfg, e, u) + cfg.capacity * (c.now - u)
  {
    var d, cap := Renewal(cfg), cfg.capacity;
    var (tokens, last) := Refilled(cfg, Settle(e, c), c.now);
    MulMono(0, c.now - u, cap);
    if e.state.Tokens? && e.state.cfg == cfg {
      MulMono(0, e.state.tokens, d);
      Distribute(cap, Max(0, d - cfg.period + u - e.state.last), c.now - u);
      if c.lapsed {
        MulMono(d, c.now - u, cap);
        MulMono(0, Max(0, d - cfg.period + u - e.state.last), cap);
      } else {
        var k := Periods(e.state.last, c.now, cfg.period);
        DivBounds(c.now - e.state.last, cfg.period);
        if k == 0 {
          MulMono(Max(0, d - cfg.period + c.now - last), Max(0, d - cfg.period + u - e.state.last) + (c.now - u), cap);
        } else {
          RefillIsCapacity(cfg, e.state.tokens, k);
          MulMono(1, k, cfg.period);
          MulMono(d + Max(0, d - cfg.period + c.now - last), Max(0, d - cfg.period + u - e.state.last)
              + (c.now - u), cap);
          Distribute(cap, d, Max(0, d - cfg.period + c.now - last));
        }
      }
    }
  }

  lemma RefillIsCapacity(cfg: Policy, tokens: int, k: int)
    requires cfg.TokenBucket? && cfg.rate >= cfg.capacity && tokens >= 0 && k >= 1
    ensures Min(cfg.capacity, tokens + k * cfg.rate) == cfg.capacity
  {
    MulMono(1, k, cfg.rate);
  }

  lemma StepSpendsWorth(cfg: Policy, e: Entry, u: nat, c: Call)
    requires cfg.TokenBucket? && cfg.rate >= cfg.capacity && c.cfg == cfg && u <= c.now
    requires Kept(cfg, e, u) && (c.lapsed ==> MayLapse(e, c.now))
    ensures Kept(cfg, After(e, c), c.now)
    ensures
      var d := Renewal(cfg);
      var spent := Worth(cfg, After(e, c), c.now) + (if Answer(e, c).allowed then d else 0);
      && spent <= Worth(cfg, e, u) + cfg.capacity * (c.now - u)
      && spent <= cfg.capacity * d + cfg.capacity * (d - 1)
      && Worth(cfg, After(e, c), c.now) >= 0
  {
    ReadEarnsWorth(cfg, e, u, c);
    var (tokens, last) := Refilled(cfg, Settle(e, c), c.now);
    var d := Renewal(cfg);
    MulMono(tokens, cfg.capacity, d);
    MulMono(Max(0, d - cfg.period + c.now - last), d - 1, cfg.capacity);
    MulMono(0, Max(0, d - cfg.period + c.now - last), cfg.capacity);
    MulMono(0, After(e, c).state.tokens, d);
    assert (tokens - 1) * d + d == tokens * d;
  }

  lemma {:induction false} WorthPays(cfg: Policy, e: Entry, u: nat, run: seq<Call>, s: int, t: int)
    requires cfg.TokenBucket? && cfg.rate >= cfg.capacity && Uses(cfg, run) && Ordered(u, run) && Feasible(e, run)
    requires Kept(cfg, e, u) && Worth(cfg, e, u) >= 0 && u <= t
    ensures Admitted(e, run, s, t) * Renewal(cfg) <= Worth(cfg, e, u) + cfg.capacity * (t - u)
    decreases |run|
  {
    hide After, Answer, Kept, Worth, Renewal;
    MulMono(0, t - u, cfg.capacity);
    if run != [] {
      var c := run[0];
      StepSpendsWorth(cfg, e, u, c);
      if c.now <= t {
        WorthPays(cfg, After(e, c), c.now, run[1..], s, t);
        Distribute(cfg.capacity, c.now - u, t - c.now);
        Distribute(Renewal(cfg), Admitted(After(e, c), run[1..], s, t), 1);
      } else {
        NothingAfter(After(e, c), c.now, run[1..], s, t);
      }
    }
  }

  lemma {:induction false} RenewalBound(cfg: Policy, e: Entry, u: nat, run: seq<Call>, s: int, t: int)
    requires cfg.TokenBucket? && cfg.rate >= cfg.capacity && Uses(cfg, run) && Ordered(u, run) && Feasible(e, run)
    requires Kept(cfg, e, u) && s <= t
    ensures Admitted(e, run, s, t) * Renewal(cfg)
            <= cfg.capacity * Renewal(cfg) + cfg.capacity * (t - s + Renewal(cfg) - 1)
    decreases |run|
  {
    hide After, Answer, Kept, Worth, Renewal;
    var d := Renewal(cfg);
    MulMono(0, t - s + d - 1, cfg.capacity);
    MulMono(0, cfg.capacity, d);
    if run != [] {
      var c := run[0];
      StepSpendsWorth(cfg, e, u, c);
      if c.now < s {
        RenewalBound(cfg, After(e, c), c.now, run[1..], s, t);
      } else if c.now <= t {
        WorthPays(cfg, After(e, c), c.now, run[1..], s, t);
        MulMono(t - c.now, t - s, cfg.capacity);
        Distribute(cfg.capacity, t - s, d - 1);
        Distribute(d, Admitted(After(e, c), run[1..], s, t), 1);
      } else {
        NothingAfter(After(e, c), c.now, run[1..], s, t);
      }
    }
  }

  /**
   * The bound for every token bucket with expiry allowed: a refill counts for at most the capacity, and comes at most
   * once per period or, if that is shorter, once per TTL.
   */
  lemma {:induction false} ExpiryBound(cfg: Policy, run: seq<Call>, s: int, t: int)
    requires cfg.TokenBucket? && Uses(cfg, run) && Ordered(0, run) && Feasible(BLANK, run) && s <= t
    ensures Admitted(BLANK, run, s, t) * Renewal(cfg)
         <= cfg.capacity * Renewal(cfg) + Min(cfg.rate, cfg.capacity) * (t - s + Renewal(cfg) - 1)
  {
    if cfg.rate < cfg.capacity {
      RetryAfter.RetryIsExactWhen(cfg);
      AdmissionBound(cfg, BLANK, 0, run, s, t);
    } else {
      RenewalBound(cfg, BLANK, 0, run, s, t);
    }
  }

  // ----- lapse after lapse -----

  /** A full burst on a key that Redis has dropped. */
  function Revival(cfg: Policy, now: nat): seq<Call>
    requires cfg.TokenBucket? && cfg.capacity >= 1
  {
    [Call(cfg, now, true)] + Burst(cfg, now, cfg.capacity - 1)
  }

  /** `n` revivals, each a TTL after the one before. */
  function Revivals(cfg: Policy, now: nat, n: nat): seq<Call>
    requires cfg.TokenBucket? && cfg.capacity >= 1
    decreases n
  {
    TtlIsPositive(cfg);
    if n == 0 then [] else Revival(cfg, now) + Revivals(cfg, now + 1000 * BucketTtl(cfg), n - 1)
  }

  lemma RevivalAdmits(cfg: Policy, e: Entry, now: nat, s: int, t: int)
    requires cfg.TokenBucket? && cfg.capacity >= 1 && MayLapse(e, now) && s <= now <= t
    ensures Feasible(e, Revival(cfg, now)) && Admitted(e, Revival(cfg, now), s, t) == cfg.capacity
    ensures Final(e, Revival(cfg, now)).expiresAt == Some(now + 1000 * BucketTtl(cfg))
  {
    var c := Call(cfg, now, true);
    var e', n := After(e, c), cfg.capacity - 1;
    assert Revival(cfg, now)[1..] == Burst(cfg, now, n);
    TtlIsPositive(cfg);
    StepSpendsCredit(cfg, BLANK, now, Call(cfg, now, false));
    assert e' == After(BLANK, Call(cfg, now, false));
    assert Refilled(cfg, e', now) == (n, now);
    BurstDrains(cfg, e', now, n, s, t);
    BurstExpiry(cfg, e', now, n);
  }

  lemma {:induction false} BurstExpiry(cfg: Policy, e: Entry, now: nat, n: nat)
    requires cfg.TokenBucket? && e.expiresAt == Some(now + 1000 * BucketTtl(cfg))
    ensures Final(e, Burst(cfg, now, n)).expiresAt == Some(now + 1000 * BucketTtl(cfg))
    decreases n
  {
    if n > 0 {
      assert Burst(cfg, now, n)[1..] == Burst(cfg, now, n - 1);
      BurstExpiry(cfg, After(e, Call(cfg, now, false)), now, n - 1);
    }
  }

  lemma {:induction false} RevivalsAdmit(cfg: Policy, e: Entry, now: nat, n: nat, s: int, t: int)
    requires cfg.TokenBucket? && cfg.capacity >= 1 && e.expiresAt.Some? && now >= e.expiresAt.value && s <= now
    requires n >= 1 ==> now + (n - 1) * (1000 * BucketTtl(cfg)) <= t
    ensures Feasible(e, Revivals(cfg, now, n)) && Admitted(e, Revivals(cfg, now, n), s, t) == n * cfg.capacity
    decreases n
  {
    hide After, Answer, Feasible, Admitted, Final;
    if n == 0 {
      NoCalls(e, s, t);
    } else {
      var ttl := 1000 * BucketTtl(cfg);
      TtlIsPositive(cfg);
      Distribute(ttl, n - 1, -1);
      MulMono(0, n - 1, ttl);
      RevivalAdmits(cfg, e, now, s, t);
      var first, rest := Revival(cfg, now), Revivals(cfg, now + ttl, n - 1);
      RevivalsAdmit(cfg, Final(e, first), now + ttl, n - 1, s, t);
      FeasibleAppend(e, first, rest);
      AdmittedAppend(e, first, rest, s, t);
      Distribute(cfg.capacity, n - 1, 1);
    }
  }

  lemma NoCalls(e: Entry, s: int, t: int)
    ensures Feasible(e, []) && Admitted(e, [], s, t) == 0
  {
  }

  lemma {:induction false} RevivalsOrdered(cfg: Policy, u: nat, now: nat, n: nat)
    requires cfg.TokenBucket? && cfg.capacity >= 1 && u <= now
    ensures Uses(cfg, Revivals(cfg, now, n)) && Ordered(u, Revivals(cfg, now, n))
    decreases n
  {
    if n > 0 {
      TtlIsPositive(cfg);
      RevivalsOrdered(cfg, now, now + 1000 * BucketTtl(cfg), n - 1);
      var first := Revival(cfg, now);
      BurstIsOrdered(cfg, now, now, cfg.capacity - 1);
      assert first[1..] == Burst(cfg, now, cfg.capacity - 1);
      assert Clock(u, first) == now;
      OrderedAppend(u, first, Revivals(cfg, now + 1000 * BucketTtl(cfg), n - 1));
    }
  }

  /** A squeeze, then `n` revivals. */
  function Marathon(cfg: Policy, start: nat, n: nat): seq<Call>
    requires cfg.TokenBucket? && cfg.capacity >= 1
  {
    TtlIsPositive(cfg);
    Tight(cfg, start) + Revivals(cfg, start + 2 * cfg.period + 1000 * BucketTtl(cfg), n)
  }

  lemma {:induction false} TightLeavesExpiry(cfg: Policy, start: nat)
    requires cfg.TokenBucket? && cfg.capacity >= 1
    ensures Final(BLANK, Tight(cfg, start)).expiresAt == Some(start + 2 * cfg.period + 1000 * BucketTtl(cfg))
    ensures Clock(start, Tight(cfg, start)) == start + 2 * cfg.period
  {
    hide Answer, Tight, Final;
    var now, n := start + 2 * cfg.period, Min(cfg.rate, cfg.capacity);
    var a, b, c := Burst(cfg, start, 1), Burst(cfg, now - 1, cfg.capacity), Burst(cfg, now, n);
    assert Tight(cfg, start) == a + b + c && Clock(start, Tight(cfg, start)) == now by { TightIs(cfg, start); }
    ConfigChange.RepliesAppend(BLANK, a + b, c);
    LastBurstExpiry(cfg, Final(BLANK, a + b), now, n);
  }

  lemma TightIs(cfg: Policy, start: nat)
    requires cfg.TokenBucket? && cfg.capacity >= 1
    ensures
      var now, n := start + 2 * cfg.period, Min(cfg.rate, cfg.capacity);
      && Tight(cfg, start) == Burst(cfg, start, 1) + Burst(cfg, now - 1, cfg.capacity) + Burst(cfg, now, n)
      && Clock(start, Tight(cfg, start)) == now
  {
  }

  lemma LastBurstExpiry(cfg: Policy, e: Entry, now: nat, n: nat)
    requires cfg.TokenBucket? && n >= 1
    ensures Final(e, Burst(cfg, now, n)).expiresAt == Some(now + 1000 * BucketTtl(cfg))
  {
    assert Burst(cfg, now, n)[1..] == Burst(cfg, now, n - 1);
    BurstExpiry(cfg, After(e, Call(cfg, now, false)), now, n - 1);
  }

  lemma {:induction false} MarathonRuns(cfg: Policy, start: nat, n: nat)
    requires cfg.TokenBucket? && cfg.capacity >= 1
    ensures
      var run, now := Marathon(cfg, start, n), start + 2 * cfg.period;
      && Uses(cfg, run) && Ordered(start, run) && Feasible(BLANK, run)
      && Admitted(BLANK, run, now - 1, now + n * (1000 * BucketTtl(cfg)))
         >= Admitted(BLANK, Tight(cfg, start), now - 1, now) + n * cfg.capacity
  {
    hide After, Answer, Feasible, Admitted, Final, Ordered, Uses, Clock, Tight, Revivals, NoLapse;
    var ttl, now := 1000 * BucketTtl(cfg), start + 2 * cfg.period;
    var s, t, first, rest := now - 1, now + n * ttl, Tight(cfg, start), Revivals(cfg, now + ttl, n);
    TtlIsPositive(cfg);
    MulMono(0, n, ttl);
    Distribute(ttl, n, -1);
    SharperBoundIsTight(cfg, start);
    TightLeavesExpiry(cfg, start);
    NoLapseFeasible(BLANK, first);
    RevivalsAdmit(cfg, Final(BLANK, first), now + ttl, n, s, t);
    RevivalsOrdered(cfg, now, now + ttl, n);
    FeasibleAppend(BLANK, first, rest);
    OrderedAppend(start, first, rest);
    UsesAppend(cfg, first, rest);
    AdmittedAppend(BLANK, first, rest, s, t);
    AdmittedWiden(BLANK, first, s, now, t);
  }

  /** When keys lapse before they refill, the bound is met with equality over arbitrarily long intervals. */
  lemma {:induction false} ExpiryBoundIsTight(cfg: Policy, start: nat, n: nat)
    requires cfg.TokenBucket? && cfg.capacity >= 1 && 1000 * BucketTtl(cfg) < cfg.period
    ensures
      var run, s := Marathon(cfg, start, n), start + 2 * cfg.period - 1;
      var t := start + 2 * cfg.period + n * (1000 * BucketTtl(cfg));
      && Uses(cfg, run) && Ordered(start, run) && Feasible(BLANK, run)
      && Admitted(BLANK, run, s, t) * Renewal(cfg)
         == cfg.capacity * Renewal(cfg) + Min(cfg.rate, cfg.capacity) * (t - s + Renewal(cfg) - 1)
  {
    hide Feasible, Admitted, Ordered, Uses, Tight, Marathon, NoLapse;
    var ttl, now := 1000 * BucketTtl(cfg), start + 2 * cfg.period;
    var run := Marathon(cfg, start, n);
    TtlIsPositive(cfg);
    MulMono(0, n, ttl);
    SlowRefill(cfg);
    MarathonRuns(cfg, start, n);
    SharperBoundIsTight(cfg, start);
    OrderedFromZero(start, run);
    ExpiryBound(cfg, run, now - 1, now + n * ttl);
    hide BucketTtl, Renewal;
    CountMarathon(cfg.capacity, cfg.period, ttl, n, Admitted(BLANK, Tight(cfg, start), now - 1, now),
        Admitted(BLANK, run, now - 1, now + n * ttl));
  }

  lemma UsesAppend(cfg: Policy, a: seq<Call>, b: seq<Call>)
    requires Uses(cfg, a) && Uses(cfg, b)
    ensures Uses(cfg, a + b)
  {
  }

  lemma AdmittedWiden(e: Entry, run: seq<Call>, s: int, t: int, later: int)
    requires t <= later
    ensures Admitted(e, run, s, t) <= Admitted(e, run, s, later)
  {
    AdmittedIsCount(e, run, s, t);
    AdmittedIsCount(e, run, s, later);
    CountMono(Log(e, run), s, t, s, later);
  }

  /** A period beyond the TTL means a rate beyond the capacity. */
  lemma SlowRefill(cfg: Policy)
    requires cfg.TokenBucket? && 1000 * BucketTtl(cfg) < cfg.period
    ensures cfg.rate > cfg.capacity && Renewal(cfg) == 1000 * BucketTtl(cfg)
  {
    if cfg.rate <= cfg.capacity {
      RetryAfter.RetryIsExactWhen(cfg);
    }
  }

  /** Two capacities in the squeeze and `n` in the revivals are all that the bound leaves room for. */
  lemma CountMarathon(cap: int, p: int, d: int, n: nat, squeezed: nat, total: nat)
    requires cap >= 1 && p >= 1 && d >= 1 && squeezed * p == cap * p + cap * (1 + p - 1)
    requires total >= squeezed + n * cap && total * d <= cap * d + cap * (1 + n * d + d - 1)
    ensures total * d == cap * d + cap * (1 + n * d + d - 1)
  {
    DivUnique(squeezed * p, p, squeezed);
    DivUnique((2 * cap) * p, p, 2 * cap);
    MulMono(2 * cap + n * cap, total, d);
    Distribute(d, 2 * cap, n * cap);
    Distribute(cap, n * d, d);
    assert n * cap * d == cap * (n * d);
  }
}
