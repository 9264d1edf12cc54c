/** Whether `retry_after` tells the truth, whatever other traffic hits the key meanwhile. */
module RetryAfter {
  import opened Prelude
  import opened Arithmetic
  import opened Config
  import opened Limits
  import opened Sums
  import opened Runs
  import opened RequestLog
  import opened BucketBound
  import opened Bisimulation
  import opened WindowBound
  import opened Observation
  import SlidingLog
  import SlidingBound

  /** Every call before `due` is denied and the first call at or after `due` is admitted. */
  ghost predicate OpensAt(e: Entry, run: seq<Call>, due: int)
    decreases |run|
  {
    run == [] ||
    if run[0].now >= due then Answer(e, run[0]).allowed
    else !Answer(e, run[0]).allowed && OpensAt(After(e, run[0]), run[1..], due)
  }

  // ----- token and leaky bucket -----

  /** An empty bucket stays closed to the next refill, provided no key can lapse before that. */
  lemma {:induction false} EmptyBucketOpens(cfg: Policy, e: Entry, u: nat, run: seq<Call>, due: int)
    requires cfg.TokenBucket? && cfg.Valid() && Uses(cfg, run) && Ordered(u, run) && Feasible(e, run)
    requires e.state.Tokens? && e.state.cfg == cfg && e.state.tokens == 0 && due == e.state.last + cfg.period
    requires e.expiresAt.Some? && e.expiresAt.value >= due && u + 1000 * BucketTtl(cfg) >= due
    ensures OpensAt(e, run, due)
    decreases |run|
  {
    if run != [] {
      var c := run[0];
      if c.now < due {
        if c.now > e.state.last {
          DivUnique(c.now - e.state.last, cfg.period, 0);
        }
        EmptyBucketOpens(cfg, After(e, c), c.now, run[1..], due);
      } else if !c.lapsed {
        var k := Periods(e.state.last, c.now, cfg.period);
        DivBounds(c.now - e.state.last, cfg.period);
        MulMono(1, k, cfg.rate);
      }
    }
  }

  /** A denial at `c.now` leaves an empty bucket whose next refill is what the caller is told. */
  lemma DenialEmptiesBucket(cfg: Policy, e: Entry, u: nat, c: Call)
    requires cfg.TokenBucket? && cfg.Valid() && c.cfg == cfg && u <= c.now
    requires Funded(cfg, e, u) && (c.lapsed ==> MayLapse(e, c.now)) && !Answer(e, c).allowed
    ensures
      var r := Answer(e, c).retryAfter;
      && After(e, c) == Entry(Tokens(cfg, 0, c.now + r - cfg.period), Some(c.now + 1000 * BucketTtl(cfg)))
      && 1 <= r <= cfg.period
  {
    ReadKeepsCredit(cfg, e, u, c);
  }

  ghost predicate Continues(cfg: Policy, e: Entry, u: nat, run: seq<Call>) {
    Uses(cfg, run) && Ordered(u, run) && Feasible(e, run)
  }

  lemma {:induction false} RetryIsExactWithinTtl(cfg: Policy, e: Entry, u: nat, c: Call)
    requires cfg.TokenBucket? && cfg.Valid() && c.cfg == cfg && u <= c.now
    requires Funded(cfg, e, u) && (c.lapsed ==> MayLapse(e, c.now)) && !Answer(e, c).allowed
    ensures
      var r := Answer(e, c).retryAfter;
      r <= 1000 * BucketTtl(cfg) <==>
      forall run | Continues(cfg, After(e, c), c.now, run) :: OpensAt(After(e, c), run, c.now + r)
  {
    DenialEmptiesBucket(cfg, e, u, c);
    var r, e' := Answer(e, c).retryAfter, After(e, c);
    if r <= 1000 * BucketTtl(cfg) {
      forall run | Continues(cfg, e', c.now, run)
        ensures OpensAt(e', run, c.now + r)
      {
        EmptyBucketOpens(cfg, e', c.now, run, c.now + r);
      }
    } else {
      TtlCoversFullRefill(cfg);
      var early := Call(cfg, c.now + 1000 * BucketTtl(cfg), true);
      assert Feasible(e', [early]) by {
        assert [early][1..] == [];
      }
      assert Continues(cfg, e', c.now, [early]);
      assert Answer(e', early).allowed;
    }
  }

  /** The advice of one denial is exact under all further traffic if and only if the key outlives it. */
  lemma {:induction false} RetryIsExactIff(cfg: Policy, e: Entry, u: nat, c: Call)
    requires cfg.TokenBucket? && cfg.Valid() && c.cfg == cfg && u <= c.now
    requires Funded(cfg, e, u) && (c.lapsed ==> MayLapse(e, c.now)) && !Answer(e, c).allowed
    ensures
      var r := Answer(e, c).retryAfter;
      Outlives(cfg, r) <==>
      forall run | Continues(cfg, After(e, c), c.now, run) :: OpensAt(After(e, c), run, c.now + r)
  {
    hide After, Answer, Funded, Continues, OpensAt, Outlives, BucketTtl, MayLapse;
    RetryIsExactWithinTtl(cfg, e, u, c);
    OutlivesIff(cfg, Answer(e, c).retryAfter);
  }

  /** A capacity of at least one refill, or a period within the minute of grace, is enough. */
  lemma RetryIsExactWhen(cfg: Policy)
    requires cfg.TokenBucket? && (cfg.capacity >= cfg.rate || cfg.period <= 60000)
    ensures cfg.period <= 1000 * BucketTtl(cfg) && Outlives(cfg, cfg.period)
  {
    OutlivesIff(cfg, cfg.period);
    hide Outlives;
    TtlCoversFullRefill(cfg);
    if cfg.capacity >= cfg.rate && 1000 * BucketTtl(cfg) < cfg.period {
      MulMono(cfg.rate, cfg.capacity, cfg.period);
      MulMono(1000 * BucketTtl(cfg), cfg.period, cfg.rate);
    } else if 1000 * BucketTtl(cfg) < 60000 {
      MulMono(0, cfg.capacity, cfg.period);
      MulMono(1000 * BucketTtl(cfg) + 1, 60000, cfg.rate);
      Distribute(cfg.rate, 1000 * BucketTtl(cfg), 1);
    }
  }

  /**
   * If `run`, a denied call `c` and `rest` are one run on the key, then the advice that `c` got is exact for
   * `rest`.
   */
  ghost predicate AdviceFits(cfg: Policy, from: nat, run: seq<Call>, c: Call, rest: seq<Call>) {
    && Continues(cfg, BLANK, from, run + [c]) && Continues(cfg, After(Final(BLANK, run), c), c.now, rest)
    && !Answer(Final(BLANK, run), c).allowed
    ==> OpensAt(After(Final(BLANK, run), c), rest, c.now + Answer(Final(BLANK, run), c).retryAfter)
  }

  /** No denial in any run of the configuration gives advice that can fail. */
  ghost predicate AdviceHolds(cfg: Policy, from: nat) {
    forall run, c, rest :: AdviceFits(cfg, from, run, c, rest)
  }

  lemma {:induction false} RunFunded(cfg: Policy, e: Entry, u: nat, run: seq<Call>, c: Call) returns (v: nat)
    requires cfg.TokenBucket? && Funded(cfg, e, u) && Continues(cfg, e, u, run + [c])
    ensures v <= c.now && Funded(cfg, Final(e, run), v)
    ensures c.cfg == cfg && (c.lapsed ==> MayLapse(Final(e, run), c.now))
    decreases |run|
  {
    assert (run + [c])[|run|] == c;
    if run == [] {
      assert run + [c] == [c];
      v := u;
    } else {
      assert (run + [c])[0] == run[0] && (run + [c])[1..] == run[1..] + [c];
      StepSpendsCredit(cfg, e, u, run[0]);
      v := RunFunded(cfg, After(e, run[0]), run[0].now, run[1..], c);
    }
  }

  /**
   * For a whole configuration: the retry advice of every denial of every run is exact if and only if the key outlives
   * a period, which is a matter of capacity, rate and period. Otherwise a client that was told to wait a full period can be let in early.
   */
  lemma {:induction false} AdviceHoldsIff(cfg: Policy, from: nat)
    requires cfg.TokenBucket? && cfg.Valid()
    ensures AdviceHolds(cfg, from) <==> Outlives(cfg, cfg.period)
  {
    OutlivesIff(cfg, cfg.period);
    hide Outlives;
    if cfg.period <= 1000 * BucketTtl(cfg) {
      forall run, c, rest
        ensures AdviceFits(cfg, from, run, c, rest)
      {
        if Continues(cfg, BLANK, from, run + [c]) && Continues(cfg, After(Final(BLANK, run), c), c.now, rest)
           && !Answer(Final(BLANK, run), c).allowed {
          AdviceIsGood(cfg, from, run, c, rest);
        }
      }
    } else {
      AdviceIsBad(cfg, from);
    }
  }

  lemma {:induction false} AdviceIsGood(cfg: Policy, from: nat, run: seq<Call>, c: Call, rest: seq<Call>)
    requires cfg.TokenBucket? && cfg.Valid() && cfg.period <= 1000 * BucketTtl(cfg)
    requires Continues(cfg, BLANK, from, run + [c]) && Continues(cfg, After(Final(BLANK, run), c), c.now, rest)
    requires !Answer(Final(BLANK, run), c).allowed
    ensures OpensAt(After(Final(BLANK, run), c), rest, c.now + Answer(Final(BLANK, run), c).retryAfter)
  {
    var v := RunFunded(cfg, BLANK, from, run, c);
    hide After, Answer, Funded;
    var e := Final(BLANK, run);
    DenialEmptiesBucket(cfg, e, v, c);
    RetryIsExactWithinTtl(cfg, e, v, c);
  }

  /** Drain the bucket, be denied, and find the key gone before the advised instant. */
  lemma {:induction false} AdviceIsBad(cfg: Policy, from: nat)
    requires cfg.TokenBucket? && cfg.Valid() && cfg.period > 1000 * BucketTtl(cfg)
    ensures !AdviceHolds(cfg, from)
  {
    var run, c := Burst(cfg, from, cfg.capacity), Call(cfg, from, false);
    TtlCoversFullRefill(cfg);
    BurstDrains(cfg, BLANK, from, cfg.capacity, from, from);
    var e := Final(BLANK, run);
    var early := Call(cfg, from + 1000 * BucketTtl(cfg), true);
    assert run + [c] == Burst(cfg, from, cfg.capacity + 1);
    BurstIsOrdered(cfg, from, from, cfg.capacity + 1);
    assert Feasible(e, [c]) by { assert [c][1..] == []; }
    FeasibleAppend(BLANK, run, [c]);
    assert Continues(cfg, BLANK, from, run + [c]);
    DenialEmptiesBucket(cfg, e, from, c);
    assert Feasible(After(e, c), [early]) by { assert [early][1..] == []; }
    assert Continues(cfg, After(e, c), from, [early]);
    assert !OpensAt(After(e, c), [early], c.now + Answer(e, c).retryAfter);
    assert !AdviceFits(cfg, from, run, c, [early]);
  }

  /** The leaky bucket gives the same advice, and it is exact in the same cases. */
  lemma {:induction false} LeakyOpensWithToken(e: Entry, f: Entry, run: seq<Call>, due: int)
    requires Mirror(e, f) && AllToken(run) && forall i | 0 <= i < |run| :: run[i].cfg.Valid()
    ensures OpensAt(e, run, due) <==> OpensAt(f, TwinRun(run), due)
    decreases |run|
  {
    if run != [] {
      StepMirrors(e, f, run[0]);
      assert TwinRun(run)[1..] == TwinRun(run[1..]);
      LeakyOpensWithToken(After(e, run[0]), After(f, TwinCall(run[0])), run[1..], due);
    }
  }

  lemma {:induction false} AdviceTransfers(cfg: Policy, from: nat, run: seq<Call>, c: Call, rest: seq<Call>)
    requires cfg.TokenBucket? && cfg.Valid() && c.cfg == cfg && Uses(cfg, run) && Uses(cfg, rest)
    ensures AllToken(run) && AllToken(rest)
    ensures AdviceFits(cfg, from, run, c, rest) <==>
            AdviceFits(Twin(cfg), from, TwinRun(run), TwinCall(c), TwinRun(rest))
  {
    hide After, Answer, Mirror, Feasible, Ordered, Final, OpensAt;
    var e, f := Final(BLANK, run), Final(BLANK, TwinRun(run));
    assert Mirror(BLANK, BLANK) by { BlankMirrors(); }
    assert TwinRun(run + [c]) == TwinRun(run) + [TwinCall(c)];
    assert Uses(Twin(cfg), TwinRun(run + [c])) && Uses(Twin(cfg), TwinRun(rest));
    Bisimilar(BLANK, BLANK, run + [c]);
    Bisimilar(BLANK, BLANK, run);
    StepMirrors(e, f, c);
    Bisimilar(After(e, c), After(f, TwinCall(c)), rest);
    TwinClock(from, run + [c]);
    TwinClock(c.now, rest);
    LeakyOpensWithToken(After(e, c), After(f, TwinCall(c)), rest, c.now + Answer(e, c).retryAfter);
  }

  lemma BlankMirrors()
    ensures Mirror(BLANK, BLANK)
  {
  }

  /** The leaky bucket's advice is exact for the same parameters as its twin's. */
  lemma {:induction false} LeakyAdviceHoldsIff(cfg: Policy, from: nat)
    requires cfg.LeakyBucket? && cfg.Valid()
    ensures AdviceHolds(cfg, from) <==> Outlives(cfg, cfg.period)
  {
    var twin: Policy := TokenBucket(cfg.capacity, cfg.rate, cfg.period);
    AdviceHoldsIff(twin, from);
    assert Outlives(twin, twin.period) == Outlives(cfg, cfg.period) && Twin(twin) == cfg;
    hide Outlives;
    hide AdviceFits;
    if AdviceHolds(twin, from) {
      forall run, c, rest
        ensures AdviceFits(cfg, from, run, c, rest)
      {
        if c.cfg == cfg && Uses(cfg, run) && Uses(cfg, rest) {
          UntwinIsInverse(cfg, run);
          UntwinIsInverse(cfg, rest);
          AdviceTransfers(twin, from, Untwin(cfg, run), Call(twin, c.now, c.lapsed), Untwin(cfg, rest));
        } else {
          OtherRunsFit(cfg, from, run, c, rest);
        }
      }
    }
    if AdviceHolds(cfg, from) {
      forall run, c, rest
        ensures AdviceFits(twin, from, run, c, rest)
      {
        if c.cfg == twin && Uses(twin, run) && Uses(twin, rest) {
          AdviceTransfers(twin, from, run, c, rest);
        } else {
          OtherRunsFit(twin, from, run, c, rest);
        }
      }
    }
  }

  lemma OtherRunsFit(cfg: Policy, from: nat, run: seq<Call>, c: Call, rest: seq<Call>)
    requires !(c.cfg == cfg && Uses(cfg, run) && Uses(cfg, rest))
    ensures AdviceFits(cfg, from, run, c, rest)
  {
    if Uses(cfg, run + [c]) {
      assert (run + [c])[|run|] == c;
      assert forall i | 0 <= i < |run| :: (run + [c])[i] == run[i];
    }
  }

  /** What a run with one more call says about the run and about the call. */
  lemma {:induction false} LastCall(cfg: Policy, e: Entry, u: nat, run: seq<Call>, c: Call)
    requires Continues(cfg, e, u, run + [c])
    ensures Continues(cfg, e, u, run)
    ensures c.cfg == cfg && Clock(u, run) <= c.now && (c.lapsed ==> MayLapse(Final(e, run), c.now))
    decreases |run|
  {
    hide After, Answer, MayLapse;
    assert (run + [c])[|run|] == c;
    if run == [] {
      assert run + [c] == [c];
    } else {
      assert (run + [c])[0] == run[0] && (run + [c])[1..] == run[1..] + [c];
      LastCall(cfg, After(e, run[0]), run[0].now, run[1..], c);
      assert forall i | 0 <= i < |run| :: run[i] == (run + [c])[i];
    }
  }

  // ----- fixed window -----

  lemma {:induction false} FullWindowOpens(cfg: Policy, e: Entry, run: seq<Call>)
    requires cfg.FixedWindow? && cfg.Valid() && Uses(cfg, run) && Feasible(e, run)
    requires e.state.Window? && e.state.cfg == cfg && e.state.count >= cfg.limit && e.state.start % cfg.window == 0
    requires e.expiresAt.Some? ==> e.expiresAt.value >= e.state.start + cfg.window
    ensures OpensAt(e, run, e.state.start + cfg.window)
    decreases |run|
  {
    if run != [] {
      var c := run[0];
      WindowStartIsMultiple(c.now, cfg.window);
      if c.now < e.state.start + cfg.window {
        if e.state.start < WindowStart(c.now, cfg.window) {
          MultiplesApart(e.state.start, WindowStart(c.now, cfg.window), cfg.window);
        }
        FullWindowOpens(cfg, After(e, c), run[1..]);
      }
    }
  }

  /** Fixed window: the advice of every denial is exact, expiry or not. */
  lemma {:induction false} FixedRetryIsExact(cfg: Policy, e: Entry, log: seq<nat>, u: nat, c: Call, run: seq<Call>)
    requires cfg.FixedWindow? && cfg.Valid() && c.cfg == cfg && u <= c.now && Accounts(cfg, e, log, u)
    requires (c.lapsed ==> MayLapse(e, c.now)) && !Answer(e, c).allowed
    requires Uses(cfg, run) && Feasible(After(e, c), run)
    ensures OpensAt(After(e, c), run, c.now + Answer(e, c).retryAfter)
    ensures Answer(e, c).retryAfter >= 1
  {
    CurrentCountIsExact(cfg, e, log, u, c);
    FullWindowOpens(cfg, After(e, c), run);
  }

  /** In every run of a fixed window every denial gives exact advice. */
  lemma {:induction false} FixedAdviceHolds(cfg: Policy, from: nat)
    requires cfg.FixedWindow? && cfg.Valid()
    ensures AdviceHolds(cfg, from)
  {
    hide After, Answer, Accounts, OpensAt, Feasible, Ordered, Uses, Clock, MayLapse, Log, Final;
    forall run, c, rest
      ensures AdviceFits(cfg, from, run, c, rest)
    {
      if Continues(cfg, BLANK, from, run + [c]) && Continues(cfg, After(Final(BLANK, run), c), c.now, rest)
         && !Answer(Final(BLANK, run), c).allowed {
        LastCall(cfg, BLANK, from, run, c);
        BlankAccounts(cfg, from);
        RunAccounts(cfg, BLANK, [], from, run);
        FixedRetryIsExact(cfg, Final(BLANK, run), [] + Log(BLANK, run), Clock(from, run), c, rest);
      }
    }
  }

  // ----- sliding window -----

  lemma {:induction false} FullLogOpens(cfg: Policy, e: Entry, log: seq<nat>, u: int, oldest: int, run: seq<Call>)
    requires cfg.SlidingWindow? && cfg.Valid() && SlidingLog.Refines(cfg, e, log, u)
    requires Uses(cfg, run) && Feasible(e, run) && (run == [] || (u <= run[0].now && Ordered(run[0].now, run)))
    requires SlidingLog.CountFrom(log, oldest) >= cfg.limit && SlidingLog.CountFrom(log, oldest + 1) < cfg.limit
    ensures OpensAt(e, run, oldest + cfg.window + 1)
    decreases |run|
  {
    hide After, Answer, SlidingLog.Refines;
    if run != [] {
      var c := run[0];
      SlidingLog.StepRefines(cfg, e, log, u, c);
      if c.now < oldest + cfg.window + 1 {
        SlidingLog.CountFromMono(log, c.now - cfg.window, oldest);
        FullLogOpens(cfg, After(e, c), log, c.now, oldest, run[1..]);
      } else {
        SlidingLog.CountFromMono(log, oldest + 1, c.now - cfg.window);
      }
    }
  }

  /** At a denial the oldest bucket still counted is what stands between the log and its quota. */
  lemma DenialFindsOldest(cfg: Policy, e: Entry, log: seq<nat>, u: int, c: Call)
    requires cfg.SlidingWindow? && cfg.Valid() && c.cfg == cfg && u <= c.now && SlidingLog.Refines(cfg, e, log, u)
    requires (c.lapsed ==> MayLapse(e, c.now)) && !Answer(e, c).allowed
    ensures
      var oldest := c.now + Answer(e, c).retryAfter - cfg.window;
      && SlidingLog.CountFrom(log, oldest) >= cfg.limit
      && SlidingLog.CountFrom(log, oldest + 1) < cfg.limit
  {
    var from := c.now - cfg.window;
    SlidingLog.ReadsTheLog(cfg, e, log, u, c);
    SlidingLog.CountFromMono(log, u - cfg.window, from);
    SlidingLog.StepShape(cfg, e, c);
    DenialAdvice(cfg, e, c);
    hide Answer, After, SlidingLog.Hist, SlidingLog.CountFrom, Recent, Total;
    OldestBlocks(cfg, log, c.now);
  }

  lemma DenialAdvice(cfg: Policy, e: Entry, c: Call)
    requires cfg.SlidingWindow? && c.cfg == cfg && !Answer(e, c).allowed
    ensures Answer(e, c).retryAfter
         == Max(0, Oldest(Recent(SlidingLog.Held(cfg, Settle(e, c)), c.now - cfg.window), c.now) + cfg.window - c.now)
  {
  }

  lemma OldestIsCounted(log: seq<nat>, from: int, now: int)
    requires forall i | 0 <= i < |log| :: log[i] <= now
    requires Recent(SlidingLog.Hist(log), from) != map[]
    ensures
      var oldest := Oldest(Recent(SlidingLog.Hist(log), from), now);
      oldest in Recent(SlidingLog.Hist(log), from) && oldest >= from && SlidingLog.Hist(log)[oldest] >= 1
  {
    var kept := Recent(SlidingLog.Hist(log), from);
    var b: int := Pick(kept.Keys);
    assert b in kept;
    SlidingLog.HistBuckets(log);
    var i :| 0 <= i < |log| && Bucket(log[i]) == b;
    DivBounds(log[i], 1000);
  }

  /** Moving the cutoff up to the oldest kept bucket changes nothing; moving it past drops just that bucket. */
  lemma CutAtOldest(m: map<int, int>, from: int, now: int)
    requires Oldest(Recent(m, from), now) in Recent(m, from)
    ensures
      var kept, oldest := Recent(m, from), Oldest(Recent(m, from), now);
      && Total(Recent(m, oldest)) == Total(kept)
      && oldest in m && Total(Recent(m, oldest + 1)) == Total(kept) - m[oldest]
  {
    var kept, oldest := Recent(m, from), Oldest(Recent(m, from), now);
    assert Recent(m, oldest) == kept;
    assert Recent(m, oldest + 1) == kept - {oldest};
    TotalRemove(kept, oldest);
  }

  lemma OldestBlocks(cfg: Policy, log: seq<nat>, now: nat)
    requires cfg.SlidingWindow? && cfg.Valid() && SlidingLog.CountFrom(log, now - cfg.window) == cfg.limit
    requires forall i | 0 <= i < |log| :: log[i] <= now
    ensures
      var oldest := Oldest(Recent(SlidingLog.Hist(log), now - cfg.window), now);
      && oldest + cfg.window >= now
      && SlidingLog.CountFrom(log, oldest) == cfg.limit
      && SlidingLog.CountFrom(log, oldest + 1) < cfg.limit
  {
    hide SlidingLog.CountFrom, SlidingLog.Hist, Total, Recent, IsOldest, Oldest;
    var from := now - cfg.window;
    var oldest := Oldest(Recent(SlidingLog.Hist(log), from), now);
    TotalOfNothing();
    SlidingLog.HistTotal(log, from);
    SlidingLog.HistTotal(log, oldest);
    SlidingLog.HistTotal(log, oldest + 1);
    OldestIsCounted(log, from, now);
    CutAtOldest(SlidingLog.Hist(log), from, now);
  }

  lemma {:induction false} OpensOneEarlier(e: Entry, u: nat, run: seq<Call>, due: int)
    requires Ordered(u, run) && OpensAt(e, run, due + 1)
    ensures OpensAt(e, run, due) <==> forall i | 0 <= i < |run| :: run[i].now != due
    decreases |run|
  {
    hide After, Answer;
    if run != [] {
      if run[0].now < due {
        OpensOneEarlier(After(e, run[0]), run[0].now, run[1..], due);
        assert forall i | 1 <= i < |run| :: run[i] == run[1..][i - 1];
        assert forall i | 0 <= i < |run[1..]| :: run[1..][i] == run[i + 1];
      } else if run[0].now > due {
        OrderedStays(run[0].now, run);
      }
    }
  }

  lemma {:induction false} OrderedStays(u: nat, run: seq<Call>)
    requires Ordered(u, run)
    ensures forall i | 0 <= i < |run| :: run[i].now >= u
    decreases |run|
  {
    if run != [] {
      OrderedStays(run[0].now, run[1..]);
      forall i | 0 <= i < |run| ensures run[i].now >= u {
        if i > 0 {
          assert run[i] == run[1..][i - 1];
        }
      }
    }
  }

  /**
   * Sliding window: the advice is one millisecond short. The cutoff keeps a bucket that is exactly W old, so a
   * call at the advised instant is still denied; the first call after it is admitted. So the advice is exact
   * exactly for the traffic in which nobody calls at the very millisecond that was advised.
   */
  lemma {:induction false} SlidingRetryIsOneShort(cfg: Policy, e: Entry, log: seq<nat>, u: int, c: Call, run: seq<Call>)
    requires cfg.SlidingWindow? && cfg.Valid() && c.cfg == cfg && u <= c.now && SlidingLog.Refines(cfg, e, log, u)
    requires (c.lapsed ==> MayLapse(e, c.now)) && !Answer(e, c).allowed
    requires Continues(cfg, After(e, c), c.now, run)
    ensures OpensAt(After(e, c), run, c.now + Answer(e, c).retryAfter + 1)
    ensures OpensAt(After(e, c), run, c.now + Answer(e, c).retryAfter) <==>
            forall i | 0 <= i < |run| :: run[i].now != c.now + Answer(e, c).retryAfter
  {
    hide After, Answer, SlidingLog.Refines, OpensAt;
    DenialFindsOldest(cfg, e, log, u, c);
    SlidingLog.StepRefines(cfg, e, log, u, c);
    FullLogOpens(cfg, After(e, c), log, c.now, c.now + Answer(e, c).retryAfter - cfg.window, run);
    OpensOneEarlier(After(e, c), c.now, run, c.now + Answer(e, c).retryAfter);
  }

  /**
   * In every run of a sliding window: a denial's advice is exact if and only if no later call falls on the
   * advised millisecond.
   */
  lemma {:induction false} SlidingAdviceFitsIff(cfg: Policy, from: nat, run: seq<Call>, c: Call, rest: seq<Call>)
    requires cfg.SlidingWindow? && cfg.Valid()
    requires Continues(cfg, BLANK, from, run + [c]) && Continues(cfg, After(Final(BLANK, run), c), c.now, rest)
    requires !Answer(Final(BLANK, run), c).allowed
    ensures AdviceFits(cfg, from, run, c, rest) <==>
            forall i | 0 <= i < |rest| :: rest[i].now != c.now + Answer(Final(BLANK, run), c).retryAfter
  {
    hide After, Answer, SlidingLog.Refines, SlidingBound.Spaced, OpensAt, Feasible, Ordered, Uses, Clock, MayLapse,
        Log, Final;
    LastCall(cfg, BLANK, from, run, c);
    SlidingBound.BlankRefines(cfg, from);
    SlidingBound.RunRefines(cfg, BLANK, [], from, run);
    SlidingRetryIsOneShort(cfg, Final(BLANK, run), [] + Log(BLANK, run), Clock(from, run), c, rest);
  }

  /**
   * The sliding window's advice fails for every configuration: fill the quota at a whole second, be denied, and
   * come back as told.
   */
  lemma {:induction false} SlidingAdviceFails(cfg: Policy, second: nat)
    requires cfg.SlidingWindow? && cfg.Valid() && second % 1000 == 0
    ensures
      var run, c := Burst(cfg, second, cfg.limit), Call(cfg, second, false);
      && !Answer(Final(BLANK, run), c).allowed && Answer(Final(BLANK, run), c).retryAfter == cfg.window
      && !AdviceFits(cfg, second, run, c, [Call(cfg, second + cfg.window, false)])
  {
    var run, c, back := Burst(cfg, second, cfg.limit), Call(cfg, second, false), Call(cfg, second + cfg.window, false);
    FullAtSecond(cfg, second);
    var e := Final(BLANK, run);
    hide After, Answer, OpensAt, AdviceFits, Feasible, Ordered, Final, MayLapse;
    OneCall(cfg, e, second, c);
    OneCall(cfg, After(e, c), second, back);
    assert run + [c] == Burst(cfg, second, cfg.limit + 1);
    BurstIsOrdered(cfg, second, second, cfg.limit + 1);
    FeasibleAppend(BLANK, run, [c]);
    SlidingAdviceFitsIff(cfg, second, run, c, [back]);
    assert [back][0].now == c.now + Answer(e, c).retryAfter;
  }

  /** So from no instant on does it hold for all runs. */
  lemma {:induction false} SlidingAdviceNeverHolds(cfg: Policy, from: nat)
    requires cfg.SlidingWindow? && cfg.Valid()
    ensures !AdviceHolds(cfg, from)
  {
    var second := 1000 * from;
    SlidingAdviceFails(cfg, second);
    if AdviceHolds(cfg, from) {
      var run, c, back := Burst(cfg, second, cfg.limit), Call(cfg, second, false),
          Call(cfg, second + cfg.window, false);
      hide AdviceFits, Final, Answer;
      assert AdviceFits(cfg, from, run, c, [back]);
      FitsLater(cfg, second, from, run, c, [back]);
    }
  }

  lemma FitsLater(cfg: Policy, late: nat, early: nat, run: seq<Call>, c: Call, rest: seq<Call>)
    requires early <= late && AdviceFits(cfg, early, run, c, rest)
    ensures AdviceFits(cfg, late, run, c, rest)
  {
    hide After, Answer, OpensAt, Feasible, Final;
    if Ordered(late, run + [c]) {
      SlidingBound.OrderedFrom(late, early, run + [c]);
    }
  }

  lemma OneCall(cfg: Policy, e: Entry, u: nat, c: Call)
    requires c.cfg == cfg && u <= c.now && !c.lapsed
    ensures Continues(cfg, e, u, [c])
  {
    assert [c][1..] == [];
  }

  /** A quota filled at a whole second is one bucket there, so the denial that follows advises the whole window. */
  lemma {:induction false} FullAtSecond(cfg: Policy, second: nat)
    requires cfg.SlidingWindow? && cfg.Valid() && second % 1000 == 0
    ensures
      var run, c := Burst(cfg, second, cfg.limit), Call(cfg, second, false);
      && Feasible(BLANK, run)
      && !Answer(Final(BLANK, run), c).allowed && Answer(Final(BLANK, run), c).retryAfter == cfg.window
  {
    hide After, Answer, SlidingLog.Refines, SlidingBound.Spaced, Final, Log, Feasible, SlidingLog.Hist,
        SlidingLog.CountFrom;
    var run, c := Burst(cfg, second, cfg.limit), Call(cfg, second, false);
    var e, log := Final(BLANK, run), SlidingBound.Repeated(second, cfg.limit);
    assert Bucket(second) == second;
    SlidingBound.BlankRefines(cfg, second);
    SlidingBound.CountFromNone([], second - cfg.window);
    SlidingBound.BurstAdmitted(cfg, BLANK, [], second, second, cfg.limit);
    assert [] + log == log;
    AllCounted(log, second - cfg.window);
    SlidingLog.StepRefines(cfg, e, log, second, c);
    DenialFindsOldest(cfg, e, log, second, c);
    var oldest := c.now + Answer(e, c).retryAfter - cfg.window;
    if oldest > second {
      SlidingBound.CountFromNone(log, oldest);
    } else if oldest < second {
      AllCounted(log, oldest + 1);
    }
  }

  lemma {:induction false} AllCounted(log: seq<nat>, from: int)
    requires forall i | 0 <= i < |log| :: Bucket(log[i]) >= from
    ensures SlidingLog.CountFrom(log, from) == |log|
  {
    if log != [] {
      AllCounted(log[..|log| - 1], from);
    }
  }
}
