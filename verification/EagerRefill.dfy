/** The lazy refill of the scripts against a bucket that is topped up by a timer. */
module EagerRefill {
  import opened Prelude
  import opened Arithmetic
  import opened Config
  import opened Limits
  import opened Runs
  import opened Bisimulation

  /** A bucket with a running timer: the next tick is due at `due`. */
  datatype Timed = Timed(tokens: int, due: int)

  /** One timer tick. */
  function Tick(cfg: Policy, b: Timed): Timed
    requires cfg.TokenBucket?
  {
    Timed(Min(cfg.capacity, b.tokens + cfg.rate), b.due + cfg.period)
  }

  /** All ticks that are due by `now`. */
  function TickTo(cfg: Policy, b: Timed, now: nat): Timed
    requires cfg.TokenBucket?
    decreases now - b.due
  {
    if now < b.due then b else TickTo(cfg, Tick(cfg, b), now)
  }

  /** A request at `now` takes a token if there is one. */
  function Take(cfg: Policy, b: Timed, now: nat): (Timed, Reply)
    requires cfg.TokenBucket?
  {
    var b' := TickTo(cfg, b, now);
    if b'.tokens >= 1 then (b'.(tokens := b'.tokens - 1), Reply(true, b'.tokens - 1, 0))
    else (b', Reply(false, b'.tokens, Max(0, b'.due - now)))
  }

  function Started(cfg: Policy, now: nat): Timed
    requires cfg.TokenBucket?
  {
    Timed(cfg.capacity, now + cfg.period)
  }

  function TakeAll(cfg: Policy, b: Timed, run: seq<Call>): seq<Reply>
    requires cfg.TokenBucket?
    decreases |run|
  {
    if run == [] then []
    else [Take(cfg, b, run[0].now).1] + TakeAll(cfg, Take(cfg, b, run[0].now).0, run[1..])
  }

  lemma PeriodsStep(last: int, now: nat, period: int)
    requires period >= 1 && now >= last + period
    ensures Periods(last, now, period) == Periods(last + period, now, period) + 1
  {
    var rest := now - last - period;
    DivBounds(rest, period);
    Distribute(period, rest / period, 1);
    DivUnique(now - last, period, rest / period + 1);
    DivUnique(0, period, 0);
  }

  /** Ticking one period at a time lands where the closed form of the script does. */
  lemma {:induction false} LazyIsEager(cfg: Policy, tokens: int, last: int, now: nat)
    requires cfg.TokenBucket? && tokens <= cfg.capacity
    ensures
      var k := Periods(last, now, cfg.period);
      TickTo(cfg, Timed(tokens, last + cfg.period), now)
      == Timed(if k == 0 then tokens else Min(cfg.capacity, tokens + k * cfg.rate), last + k * cfg.period + cfg.period)
    decreases now - last
  {
    if now < last + cfg.period {
      if now > last {
        DivUnique(now - last, cfg.period, 0);
      }
    } else {
      LazyIsEager(cfg, Min(cfg.capacity, tokens + cfg.rate), last + cfg.period, now);
      var k := Periods(last + cfg.period, now, cfg.period);
      PeriodsStep(last, now, cfg.period);
      Distribute(cfg.rate, k, 1);
      Distribute(cfg.period, k, 1);
      MulMono(0, k, cfg.rate);
    }
  }

  /** Refilling at `t1` and again at `t2` is refilling once at `t2`. */
  lemma {:induction false} RefillsCompose(cfg: Policy, b: Timed, t1: nat, t2: nat)
    requires cfg.TokenBucket? && t1 <= t2
    ensures TickTo(cfg, TickTo(cfg, b, t1), t2) == TickTo(cfg, b, t2)
    decreases t1 - b.due
  {
    if t1 >= b.due {
      RefillsCompose(cfg, Tick(cfg, b), t1, t2);
    }
  }

  predicate Tracks(cfg: Policy, e: Entry, b: Timed)
    requires cfg.TokenBucket?
  {
    e.state.Tokens? && e.state.cfg == cfg && e.state.tokens <= cfg.capacity
    && b == Timed(e.state.tokens, e.state.last + cfg.period)
  }

  lemma StepTracks(cfg: Policy, e: Entry, b: Timed, c: Call)
    requires cfg.TokenBucket? && Tracks(cfg, e, b) && c.cfg == cfg && !c.lapsed
    ensures Tracks(cfg, After(e, c), Take(cfg, b, c.now).0)
    ensures Answer(e, c) == Take(cfg, b, c.now).1
  {
    LazyIsEager(cfg, e.state.tokens, e.state.last, c.now);
  }

  /** Over every run without expiry, under any clock, the script answers as the timer-driven bucket does. */
  lemma {:induction false} ScriptIsTimerBucket(cfg: Policy, e: Entry, b: Timed, run: seq<Call>)
    requires cfg.TokenBucket? && Tracks(cfg, e, b) && Uses(cfg, run) && NoLapse(run)
    ensures Replies(e, run) == TakeAll(cfg, b, run)
    decreases |run|
  {
    if run != [] {
      StepTracks(cfg, e, b, run[0]);
      ScriptIsTimerBucket(cfg, After(e, run[0]), Take(cfg, b, run[0].now).0, run[1..]);
    }
  }

  /**
   * From an unused key both buckets start full at the first call; so does the leaky bucket, drained by the same
   * timer.
   */
  lemma {:induction false} BothScriptsAreTimerBuckets(cfg: Policy, run: seq<Call>)
    requires cfg.TokenBucket? && cfg.Valid() && Uses(cfg, run) && NoLapse(run) && run != []
    ensures Replies(BLANK, run) == TakeAll(cfg, Started(cfg, run[0].now), run)
    ensures Replies(BLANK, TwinRun(run)) == TakeAll(cfg, Started(cfg, run[0].now), run)
  {
    var full := Entry(Tokens(cfg, cfg.capacity, run[0].now), None);
    ScriptIsTimerBucket(cfg, full, Started(cfg, run[0].now), run);
    assert After(full, run[0]) == After(BLANK, run[0]) && Answer(full, run[0]) == Answer(BLANK, run[0]);
    Bisimilar(BLANK, BLANK, run);
  }
}
