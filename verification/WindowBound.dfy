/** How much a fixed window can admit in an interval, and that the boundary burst really happens. */
module WindowBound {
  import opened Arithmetic
  import opened Config
  import opened Limits
  import opened Runs
  import opened RequestLog
  import opened Observation

  function InWindow(cfg: Policy, log: seq<nat>, w: int): nat
    requires cfg.FixedWindow?
  {
    Count(log, w, w + cfg.window - 1)
  }

  ghost predicate WithinQuota(cfg: Policy, log: seq<nat>)
    requires cfg.FixedWindow?
  {
    forall w: int | w % cfg.window == 0 :: InWindow(cfg, log, w) <= cfg.limit
  }

  /** The stored count is the number of admissions of the stored window, which is the latest one used. */
  ghost predicate Accounts(cfg: Policy, e: Entry, log: seq<nat>, u: nat)
    requires cfg.FixedWindow?
  {
    && WithinQuota(cfg, log)
    && if e.state.Window? && e.state.cfg == cfg then
         && e.state.start % cfg.window == 0 && e.state.start <= u
         && e.state.count == InWindow(cfg, log, e.state.start)
         && (forall i | 0 <= i < |log| :: log[i] < e.state.start + cfg.window)
         && (e.expiresAt.Some? ==> e.expiresAt.value >= e.state.start + cfg.window)
       else log == []
  }

  /** The counter that a call reads is exact, whether it finds the key, a stale window or nothing. */
  lemma {:induction false} CurrentCountIsExact(cfg: Policy, e: Entry, log: seq<nat>, u: nat, c: Call)
    requires cfg.FixedWindow? && cfg.Valid() && c.cfg == cfg && u <= c.now && Accounts(cfg, e, log, u)
    requires c.lapsed ==> MayLapse(e, c.now)
    ensures
      var begin := WindowStart(c.now, cfg.window);
      && begin % cfg.window == 0
      && begin <= c.now < begin + cfg.window
      && CurrentWindow(cfg, Settle(e, c), c.now) == (InWindow(cfg, log, begin), begin)
      && (forall i | 0 <= i < |log| :: log[i] < begin + cfg.window)
  {
    var begin := WindowStart(c.now, cfg.window);
    WindowStartIsMultiple(c.now, cfg.window);
    if e.state.Window? && e.state.cfg == cfg {
      var start := e.state.start;
      if begin < start {
        MultiplesApart(begin, start, cfg.window);
      } else if start < begin {
        MultiplesApart(start, begin, cfg.window);
        CountNone(log, begin, begin + cfg.window - 1);
      }
    }
  }

  lemma StepAccounts(cfg: Policy, e: Entry, log: seq<nat>, u: nat, c: Call)
    requires cfg.FixedWindow? && cfg.Valid() && c.cfg == cfg && u <= c.now && Accounts(cfg, e, log, u)
    requires c.lapsed ==> MayLapse(e, c.now)
    ensures Answer(e, c).allowed <==> InWindow(cfg, log, WindowStart(c.now, cfg.window)) < cfg.limit
    ensures Accounts(cfg, After(e, c), Logged(log, Answer(e, c), c.now), c.now)
  {
    CurrentCountIsExact(cfg, e, log, u, c);
    var begin := WindowStart(c.now, cfg.window);
    var log' := Logged(log, Answer(e, c), c.now);
    forall w: int | w % cfg.window == 0
      ensures InWindow(cfg, log', w) <= cfg.limit
      ensures w == begin && Answer(e, c).allowed ==> InWindow(cfg, log', w) == InWindow(cfg, log, w) + 1
    {
      CountPush(log, c.now, w, w + cfg.window - 1);
      if w < begin {
        MultiplesApart(w, begin, cfg.window);
      } else if begin < w {
        MultiplesApart(begin, w, cfg.window);
      }
      assert InWindow(cfg, log, w) <= cfg.limit;
    }
  }

  /** After any run the stored counter accounts for the log, which is within quota. */
  lemma {:induction false} RunAccounts(cfg: Policy, e: Entry, log: seq<nat>, u: nat, run: seq<Call>)
    requires cfg.FixedWindow? && cfg.Valid() && Uses(cfg, run) && Ordered(u, run) && Feasible(e, run)
    requires Accounts(cfg, e, log, u)
    ensures Accounts(cfg, Final(e, run), log + Log(e, run), Clock(u, run))
    decreases |run|
  {
    hide After, Answer, Accounts, WithinQuota;
    if run == [] {
      assert log + Log(e, run) == log;
    } else {
      var c := run[0];
      StepAccounts(cfg, e, log, u, c);
      var log' := Logged(log, Answer(e, c), c.now);
      RunAccounts(cfg, After(e, c), log', c.now, run[1..]);
      assert log + Log(e, run) == log' + Log(After(e, c), run[1..]);
    }
  }

  lemma BlankAccounts(cfg: Policy, u: nat)
    requires cfg.FixedWindow? && cfg.Valid()
    ensures Accounts(cfg, BLANK, [], u)
  {
  }

  lemma AccountsWithinQuota(cfg: Policy, e: Entry, log: seq<nat>, u: nat)
    requires cfg.FixedWindow? && Accounts(cfg, e, log, u)
    ensures WithinQuota(cfg, log)
  {
  }

  /** Windows number `a` to `b` together hold at most one quota each. */
  lemma {:induction false} QuotaPerWindow(cfg: Policy, log: seq<nat>, a: int, b: int)
    requires cfg.FixedWindow? && WithinQuota(cfg, log) && a <= b
    ensures Count(log, a * cfg.window, b * cfg.window + cfg.window - 1) <= cfg.limit * (b - a + 1)
    decreases b - a
  {
    MultipleHasNoRemainder(a, cfg.window);
    assert InWindow(cfg, log, a * cfg.window) <= cfg.limit;
    if a < b {
      QuotaPerWindow(cfg, log, a + 1, b);
      Distribute(cfg.window, a, 1);
      MulMono(a + 1, b, cfg.window);
      CountSplit(log, a * cfg.window, a * cfg.window + cfg.window - 1, b * cfg.window + cfg.window - 1);
      Distribute(cfg.limit, b - a, 1);
    }
  }

  lemma SpanQuota(cfg: Policy, log: seq<nat>, s: nat, t: nat)
    requires cfg.FixedWindow? && WithinQuota(cfg, log) && s <= t
    ensures t / cfg.window >= s / cfg.window
    ensures Count(log, s, t) <= cfg.limit * (t / cfg.window - s / cfg.window + 1)
  {
    var a, b := s / cfg.window, t / cfg.window;
    DivBounds(s, cfg.window);
    DivBounds(t, cfg.window);
    if b < a {
      MulMono(b + 1, a, cfg.window);
      Distribute(cfg.window, b, 1);
    }
    QuotaPerWindow(cfg, log, a, b);
    CountMono(log, s, t, a * cfg.window, b * cfg.window + cfg.window - 1);
  }

  /** Any interval admits at most one quota per window it touches, so at most two in the length of a window. */
  lemma {:induction false} CountingBound(cfg: Policy, run: seq<Call>, s: nat, t: nat)
    requires cfg.FixedWindow? && cfg.Valid() && Uses(cfg, run) && Ordered(0, run) && Feasible(BLANK, run) && s <= t
    ensures t / cfg.window >= s / cfg.window
    ensures Count(Log(BLANK, run), s, t) <= cfg.limit * (t / cfg.window - s / cfg.window + 1)
    ensures t - s < cfg.window ==> Count(Log(BLANK, run), s, t) <= 2 * cfg.limit
  {
    hide After, Answer, Accounts, WithinQuota, Count, Log, Final, Feasible, Ordered, Uses;
    BlankAccounts(cfg, 0);
    RunAccounts(cfg, BLANK, [], 0, run);
    AccountsWithinQuota(cfg, Final(BLANK, run), [] + Log(BLANK, run), Clock(0, run));
    assert [] + Log(BLANK, run) == Log(BLANK, run);
    SpanQuota(cfg, Log(BLANK, run), s, t);
    if t - s < cfg.window {
      var size := cfg.window;
      DivBounds(s, size);
      DivBounds(t, size);
      if t / size > s / size + 1 {
        MulMono(s / size + 2, t / size, size);
        Distribute(size, s / size, 2);
      }
      MulMono(t / size - s / size + 1, 2, cfg.limit);
    }
  }

  /** A burst inside one window is admitted until the quota is used up. */
  lemma {:induction false} BurstAdmitted(cfg: Policy, e: Entry, now: nat, n: nat, s: int, t: int)
    requires cfg.FixedWindow? && s <= now <= t && CurrentWindow(cfg, e, now).0 + n <= cfg.limit
    requires CurrentWindow(cfg, e, now).1 == WindowStart(now, cfg.window)
    ensures Count(Log(e, Burst(cfg, now, n)), s, t) == n
    ensures n > 0 ==>
              Final(e, Burst(cfg, now, n)).state
              == Window(cfg, CurrentWindow(cfg, e, now).0 + n, WindowStart(now, cfg.window))
    ensures Feasible(e, Burst(cfg, now, n))
    decreases n
  {
    if n > 0 {
      var run, c := Burst(cfg, now, n), Call(cfg, now, false);
      assert run[1..] == Burst(cfg, now, n - 1);
      BurstAdmitted(cfg, After(e, c), now, n - 1, s, t);
      CountAppend([now], Log(After(e, c), run[1..]), s, t);
      assert n == 1 ==> Final(After(e, c), run[1..]) == After(e, c);
    }
  }

  /** Two quotas within two milliseconds: the doubled burst does occur, at every window boundary. */
  lemma {:induction false} BoundaryBurst(cfg: Policy, k: nat)
    requires cfg.FixedWindow? && cfg.Valid() && cfg.window >= 2 && k >= 1
    ensures k * cfg.window >= 2
    ensures
      var boundary := k * cfg.window;
      var run := Burst(cfg, boundary - 1, cfg.limit) + Burst(cfg, boundary, cfg.limit);
      && Uses(cfg, run) && Ordered(0, run) && Feasible(BLANK, run)
      && Count(Log(BLANK, run), boundary - 1, boundary) == 2 * cfg.limit
  {
    MulMono(1, k, cfg.window);
    var boundary := k * cfg.window;
    Distribute(cfg.window, k - 1, 1);
    DivUnique(boundary - 1, cfg.window, k - 1);
    DivUnique(boundary, cfg.window, k);
    assert WindowStart(boundary, cfg.window) == boundary
           && WindowStart(boundary - 1, cfg.window) == boundary - cfg.window;
    var first, second := Burst(cfg, boundary - 1, cfg.limit), Burst(cfg, boundary, cfg.limit);
    BurstAdmitted(cfg, BLANK, boundary - 1, cfg.limit, boundary - 1, boundary);
    BurstAdmitted(cfg, Final(BLANK, first), boundary, cfg.limit, boundary - 1, boundary);
    LogAppend(BLANK, first, second);
    FeasibleAppend(BLANK, first, second);
    BurstIsOrdered(cfg, 0, boundary - 1, cfg.limit);
    BurstIsOrdered(cfg, boundary - 1, boundary, cfg.limit);
    OrderedAppend(0, first, second);
    CountAppend(Log(BLANK, first), Log(Final(BLANK, first), second), boundary - 1, boundary);
  }
}
