/** How much a token bucket can admit in an interval, even if Redis drops its key. */
module BucketBound {
  import opened Prelude
  import opened Arithmetic
  import opened Config
  import opened Limits
  import opened Runs
  import opened RequestLog

  /** Tokens in hand plus the refill earned since `last`, in units of 1/period token. */
  function Credit(cfg: Policy, e: Entry, u: nat): int
    requires cfg.TokenBucket?
  {
    if e.state.Tokens? && e.state.cfg == cfg
    then e.state.tokens * cfg.period + cfg.rate * (u - e.state.last)
    else cfg.capacity * cfg.period
  }

  /** What every call leaves behind; from the expiry on, the refill alone would fill the bucket. */
  predicate Funded(cfg: Policy, e: Entry, u: nat)
    requires cfg.TokenBucket?
  {
    e.state.Tokens? && e.state.cfg == cfg ==>
      && 0 <= e.state.tokens <= cfg.capacity
      && e.state.last <= u
      && e.expiresAt.Some?
      && cfg.rate * (e.expiresAt.value - e.state.last) >= cfg.capacity * cfg.period
  }

  lemma {:induction false} TtlCoversFullRefill(cfg: Policy)
    requires cfg.TokenBucket? || cfg.LeakyBucket?
    ensures cfg.rate * (1000 * BucketTtl(cfg)) >= cfg.capacity * cfg.period + 60000 * cfg.rate
  {
    var q := CeilDiv(cfg.capacity * cfg.period, cfg.rate * 1000);
    assert cfg.rate * (1000 * (q + 60)) == q * (cfg.rate * 1000) + 60000 * cfg.rate;
  }

  /** The TTL is the full refill time, rounded up to seconds, and one minute: no more and no less. */
  lemma {:induction false} TtlIsExact(cfg: Policy)
    requires cfg.TokenBucket? || cfg.LeakyBucket?
    ensures
      var ttl := BucketTtl(cfg);
      1000 * (ttl - 61) * cfg.rate < cfg.capacity * cfg.period <= 1000 * (ttl - 60) * cfg.rate
  {
    var q := CeilDiv(cfg.capacity * cfg.period, cfg.rate * 1000);
    assert 1000 * q * cfg.rate == q * (cfg.rate * 1000) && 1000 * (q - 1) * cfg.rate == (q - 1) * (cfg.rate * 1000);
  }

  /** The full refill takes longer than all but the last minute of `d`, in whole seconds. */
  predicate Outlives(cfg: Policy, d: int)
    requires cfg.TokenBucket? || cfg.LeakyBucket?
  {
    cfg.capacity * cfg.period > 1000 * cfg.rate * (CeilDiv(d, 1000) - 61)
  }

  /** Exactly then does a key that was used at some instant still exist at every instant before `d` has passed. */
  lemma {:induction false} OutlivesIff(cfg: Policy, d: int)
    requires cfg.TokenBucket? || cfg.LeakyBucket?
    ensures Outlives(cfg, d) <==> d <= 1000 * BucketTtl(cfg)
  {
    var ttl, m, step := BucketTtl(cfg), CeilDiv(d, 1000), 1000 * cfg.rate;
    TtlIsExact(cfg);
    assert 1000 * (ttl - 61) * cfg.rate == step * (ttl - 61) && 1000 * (ttl - 60) * cfg.rate == step * (ttl - 60);
    hide BucketTtl, CeilDiv;
    if m <= ttl {
      MulMono(m - 61, ttl - 61, step);
    } else {
      MulMono(ttl - 60, m - 61, step);
    }
  }

  /** Refilling whole periods moves credit between its two terms; only the cap can lose some. */
  lemma RefillKeepsCredit(cfg: Policy, tokens: int, last: int, now: nat)
    requires cfg.TokenBucket? && last <= now && 0 <= tokens <= cfg.capacity
    ensures
      var k := Periods(last, now, cfg.period);
      var last' := last + k * cfg.period;
      var tokens' := if k == 0 then tokens else Min(cfg.capacity, tokens + k * cfg.rate);
      && last <= last' <= now < last' + cfg.period
      && 0 <= tokens' <= cfg.capacity
      && tokens' * cfg.period + cfg.rate * (now - last') <= tokens * cfg.period + cfg.rate * (now - last)
  {
    var k := Periods(last, now, cfg.period);
    var last' := last + k * cfg.period;
    var tokens' := if k == 0 then tokens else Min(cfg.capacity, tokens + k * cfg.rate);
    MulMono(0, cfg.rate, k);
    MulMono(tokens', tokens + k * cfg.rate, cfg.period);
    assert (tokens + k * cfg.rate) * cfg.period == tokens * cfg.period + cfg.rate * (k * cfg.period);
    assert cfg.rate * (now - last') == cfg.rate * (now - last) - cfg.rate * (k * cfg.period);
  }

  /** Neither the refill at a call nor the loss of a key past its expiry creates credit. */
  lemma {:induction false} ReadKeepsCredit(cfg: Policy, e: Entry, u: nat, c: Call)
    requires cfg.TokenBucket? && c.cfg == cfg && u <= c.now
    requires Funded(cfg, e, u) && (c.lapsed ==> MayLapse(e, c.now))
    ensures
      var (tokens, last) := Refilled(cfg, Settle(e, c), c.now);
      && 0 <= tokens <= cfg.capacity
      && last <= c.now < last + cfg.period
      && tokens * cfg.period + cfg.rate * (c.now - last) <= Credit(cfg, e, u) + cfg.rate * (c.now - u)
  {
    MulMono(0, c.now - u, cfg.rate);
    if e.state.Tokens? && e.state.cfg == cfg {
      assert Credit(cfg, e, u) + cfg.rate * (c.now - u)
             == e.state.tokens * cfg.period + cfg.rate * (c.now - e.state.last);
      if c.lapsed {
        MulMono(e.expiresAt.value - e.state.last, c.now - e.state.last, cfg.rate);
        MulMono(0, e.state.tokens, cfg.period);
      } else {
        RefillKeepsCredit(cfg, e.state.tokens, e.state.last, c.now);
      }
    }
  }

  lemma {:induction false} StepSpendsCredit(cfg: Policy, e: Entry, u: nat, c: Call)
    requires cfg.TokenBucket? && c.cfg == cfg && u <= c.now
    requires Funded(cfg, e, u) && (c.lapsed ==> MayLapse(e, c.now))
    ensures Funded(cfg, After(e, c), c.now)
    ensures
      var spent := Credit(cfg, After(e, c), c.now) + (if Answer(e, c).allowed then cfg.period else 0);
      && spent <= Credit(cfg, e, u) + cfg.rate * (c.now - u)
      && spent <= cfg.capacity * cfg.period + cfg.rate * (cfg.period - 1)
      && Credit(cfg, After(e, c), c.now) >= 0
  {
    ReadKeepsCredit(cfg, e, u, c);
    var (tokens, last) := Refilled(cfg, Settle(e, c), c.now);
    MulMono(tokens, cfg.capacity, cfg.period);
    MulMono(c.now - last, cfg.period - 1, cfg.rate);
    MulMono(0, c.now - last, cfg.rate);
    MulMono(0, After(e, c).state.tokens, cfg.period);
    assert (tokens - 1) * cfg.period + cfg.period == tokens * cfg.period;
    TtlCoversFullRefill(cfg);
    MulMono(1000 * BucketTtl(cfg), c.now + 1000 * BucketTtl(cfg) - last, cfg.rate);
  }

  /** Credit earned since `u` pays for everything admitted up to `t`. */
  lemma {:induction false} CreditPays(cfg: Policy, e: Entry, u: nat, run: seq<Call>, s: int, t: int)
    requires cfg.TokenBucket? && Uses(cfg, run) && Ordered(u, run) && Feasible(e, run)
    requires Funded(cfg, e, u) && Credit(cfg, e, u) >= 0 && u <= t
    ensures Admitted(e, run, s, t) * cfg.period <= Credit(cfg, e, u) + cfg.rate * (t - u)
    decreases |run|
  {
    hide After, Answer, Funded, Credit;
    MulMono(0, t - u, cfg.rate);
    if run != [] {
      var c := run[0];
      StepSpendsCredit(cfg, e, u, c);
      if c.now <= t {
        CreditPays(cfg, After(e, c), c.now, run[1..], s, t);
        Distribute(cfg.rate, c.now - u, t - c.now);
        Distribute(cfg.period, Admitted(After(e, c), run[1..], s, t), 1);
      } else {
        NothingAfter(After(e, c), c.now, run[1..], s, t);
      }
    }
  }

  lemma {:induction false} NothingAfter(e: Entry, u: nat, run: seq<Call>, s: int, t: int)
    requires Ordered(u, run) && t < u
    ensures Admitted(e, run, s, t) == 0
    decreases |run|
  {
    if run != [] {
      NothingAfter(After(e, run[0]), run[0].now, run[1..], s, t);
    }
  }

  /**
   * From any state a call can leave behind, in any run of one configuration with timestamps that never
   * decrease and a key that may vanish whenever its TTL allows, [s, t] admits at most
   * capacity + rate * (t - s + period - 1) / period requests.
   */
  lemma {:induction false} AdmissionBound(cfg: Policy, e: Entry, u: nat, run: seq<Call>, s: int, t: int)
    requires cfg.TokenBucket? && Uses(cfg, run) && Ordered(u, run) && Feasible(e, run) && Funded(cfg, e, u)
    requires s <= t
    ensures Admitted(e, run, s, t) * cfg.period <= cfg.capacity * cfg.period + cfg.rate * (t - s + cfg.period - 1)
    decreases |run|
  {
    MulMono(0, t - s + cfg.period - 1, cfg.rate);
    MulMono(0, cfg.capacity, cfg.period);
    if run != [] {
      var c := run[0];
      StepSpendsCredit(cfg, e, u, c);
      if c.now < s {
        AdmissionBound(cfg, After(e, c), c.now, run[1..], s, t);
      } else if c.now <= t {
        CreditPays(cfg, After(e, c), c.now, run[1..], s, t);
        MulMono(t - c.now, t - s, cfg.rate);
        Distribute(cfg.rate, t - s, cfg.period - 1);
        Distribute(cfg.period, Admitted(After(e, c), run[1..], s, t), 1);
      } else {
        NothingAfter(After(e, c), c.now, run[1..], s, t);
      }
    }
  }

  lemma DrainOne(cfg: Policy, e: Entry, now: nat)
    requires cfg.TokenBucket? && Refilled(cfg, e, now).0 >= 1
             && Refilled(cfg, e, now).1 <= now < Refilled(cfg, e, now).1 + cfg.period
    ensures
      var c := Call(cfg, now, false);
      && Answer(e, c).allowed
      && After(e, c).state == Tokens(cfg, Refilled(cfg, e, now).0 - 1, Refilled(cfg, e, now).1)
      && Refilled(cfg, After(e, c), now) == (Refilled(cfg, e, now).0 - 1, Refilled(cfg, e, now).1)
      && (Funded(cfg, e, now) ==> Funded(cfg, After(e, c), now))
  {
    var c := Call(cfg, now, false);
    if Refilled(cfg, e, now).1 < now {
      DivUnique(now - Refilled(cfg, e, now).1, cfg.period, 0);
    }
    if Funded(cfg, e, now) {
      StepSpendsCredit(cfg, e, now, c);
    }
  }

  /** A burst takes one token a call. */
  lemma {:induction false} BurstDrains(cfg: Policy, e: Entry, now: nat, n: nat, s: int, t: int)
    requires cfg.TokenBucket? && Refilled(cfg, e, now).0 >= n
             && Refilled(cfg, e, now).1 <= now < Refilled(cfg, e, now).1 + cfg.period
    requires Funded(cfg, e, now)
    ensures Feasible(e, Burst(cfg, now, n)) && Funded(cfg, Final(e, Burst(cfg, now, n)), now)
    ensures Refilled(cfg, Final(e, Burst(cfg, now, n)), now) == (Refilled(cfg, e, now).0 - n, Refilled(cfg, e, now).1)
    ensures n >= 1 ==>
              Final(e, Burst(cfg, now, n)).state == Tokens(cfg, Refilled(cfg, e, now).0 - n, Refilled(cfg, e, now).1)
    ensures Admitted(e, Burst(cfg, now, n), s, t) == if s <= now <= t then n else 0
    decreases n
  {
    hide After, Answer, Refilled, Funded;
    if n > 0 {
      assert Burst(cfg, now, n)[1..] == Burst(cfg, now, n - 1);
      DrainOne(cfg, e, now);
      BurstDrains(cfg, After(e, Call(cfg, now, false)), now, n - 1, s, t);
    }
  }

  /** A call at `start`, the whole capacity one millisecond short of the second refill, and what that refill brings. */
  function Squeeze(cfg: Policy, start: nat, refill: nat): seq<Call>
    requires cfg.TokenBucket? && cfg.capacity >= 1
  {
    Burst(cfg, start, 1) + (Burst(cfg, start + 2 * cfg.period - 1, cfg.capacity)
        + Burst(cfg, start + 2 * cfg.period, refill))
  }

  /** The bound is met with equality: a full bucket one millisecond short of its refill, then the refill. */
  lemma {:induction false} AdmissionBoundIsTight(cfg: Policy, start: nat)
    requires cfg.TokenBucket? && cfg.Valid() && cfg.rate <= cfg.capacity
    ensures
      var p, run := cfg.period, Squeeze(cfg, start, cfg.rate);
      var s, t := start + 2 * p - 1, start + 2 * p;
      && Uses(cfg, run) && Ordered(start, run) && Feasible(BLANK, run)
      && Admitted(BLANK, run, s, t) * p == cfg.capacity * p + cfg.rate * (t - s + p - 1)
  {
    hide After, Answer, Admitted, Feasible, Ordered, Final;
    var p := cfg.period;
    var s, t := start + 2 * p - 1, start + 2 * p;
    var a, b, c := Burst(cfg, start, 1), Burst(cfg, s, cfg.capacity), Burst(cfg, t, cfg.rate);
    var e1 := Final(BLANK, a);
    var e2 := Final(e1, b);
    BurstDrains(cfg, BLANK, start, 1, s, t);
    DivUnique(s - start, p, 1);
    assert Refilled(cfg, e1, s) == (cfg.capacity, start + p);
    assert Funded(cfg, e1, s);
    BurstDrains(cfg, e1, s, cfg.capacity, s, t);
    DivUnique(t - (start + p), p, 1);
    assert Refilled(cfg, e2, t) == (cfg.rate, t);
    assert Funded(cfg, e2, t);
    BurstDrains(cfg, e2, t, cfg.rate, s, t);
    FeasibleAppend(e1, b, c);
    FeasibleAppend(BLANK, a, b + c);
    BurstIsOrdered(cfg, start, start, 1);
    BurstIsOrdered(cfg, start, s, cfg.capacity);
    BurstIsOrdered(cfg, s, t, cfg.rate);
    OrderedAppend(start, b, c);
    OrderedAppend(start, a, b + c);
    AdmittedAppend(e1, b, c, s, t);
    AdmittedAppend(BLANK, a, b + c, s, t);
    Distribute(p, cfg.capacity, cfg.rate);
  }
}
