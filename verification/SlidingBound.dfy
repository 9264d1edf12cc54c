/**
 * What the one-second truncation costs: denials are always justified, and the quota holds on W - 999 ms but on
 * no more.
 */
module SlidingBound {
  import opened Prelude
  import opened Config
  import opened Limits
  import opened Sums
  import opened Runs
  import opened RequestLog
  import opened SlidingLog

  /** Entries in the closed interval of length `d` that starts at `s`. */
  function InSpan(log: seq<nat>, s: int, d: int): nat {
    Count(log, s, s + d)
  }

  /** Every closed interval of length `d` holds at most `limit` entries. */
  ghost predicate Spaced(log: seq<nat>, d: int, limit: int) {
    forall s: int :: InSpan(log, s, d) <= limit
  }

  lemma PushSpaced(cfg: Policy, log: seq<nat>, now: nat)
    requires cfg.SlidingWindow? && Spaced(log, cfg.window - 999, cfg.limit)
             && CountFrom(log, now - cfg.window) < cfg.limit
    requires forall i | 0 <= i < |log| :: log[i] <= now
    ensures Spaced(log + [now], cfg.window - 999, cfg.limit)
  {
    var d := cfg.window - 999;
    forall s: int
      ensures InSpan(log + [now], s, d) <= cfg.limit
    {
      var t := s + d;
      CountPush(log, now, s, t);
      assert InSpan(log, s, d) <= cfg.limit;
      if s <= now <= t {
        CountSplitAtEnd(log, s, now, t);
        CountMono(log, s, now, now - cfg.window + 999, now);
        CountFromSandwich(log, now - cfg.window, now);
      }
    }
  }

  lemma CountSplitAtEnd(log: seq<nat>, s: int, m: int, t: int)
    requires s <= m <= t && forall i | 0 <= i < |log| :: log[i] <= m
    ensures Count(log, s, t) == Count(log, s, m)
  {
    CountSplit(log, s, m, t);
    CountNone(log, m + 1, t);
  }

  lemma RefinesIsPast(cfg: Policy, e: Entry, log: seq<nat>, u: int)
    requires cfg.SlidingWindow? && Refines(cfg, e, log, u)
    ensures forall i | 0 <= i < |log| :: log[i] <= u
  {
  }

  lemma {:induction false} RunRefines(cfg: Policy, e: Entry, log: seq<nat>, u: nat, run: seq<Call>)
    requires cfg.SlidingWindow? && cfg.Valid() && Uses(cfg, run) && Ordered(u, run) && Feasible(e, run)
    requires Refines(cfg, e, log, u) && Spaced(log, cfg.window - 999, cfg.limit)
    ensures Refines(cfg, Final(e, run), log + Log(e, run), Clock(u, run))
    ensures Spaced(log + Log(e, run), cfg.window - 999, cfg.limit)
    decreases |run|
  {
    hide After, Answer, Refines, Spaced;
    if run == [] {
      assert log + Log(e, run) == log;
    } else {
      var c := run[0];
      StepRefines(cfg, e, log, u, c);
      if Answer(e, c).allowed {
        RefinesIsPast(cfg, e, log, u);
        PushSpaced(cfg, log, c.now);
      }
      var log' := Logged(log, Answer(e, c), c.now);
      RunRefines(cfg, After(e, c), log', c.now, run[1..]);
      assert log + Log(e, run) == log' + Log(After(e, c), run[1..]);
    }
  }

  lemma BlankRefines(cfg: Policy, u: nat)
    requires cfg.SlidingWindow?
    ensures Refines(cfg, BLANK, [], u) && Spaced([], cfg.window - 999, cfg.limit)
  {
  }

  /**
   * In every run with timestamps that never decrease, any closed interval of length W - 999 admits at most the
   * limit.
   */
  lemma {:induction false} QuotaHoldsOnShortenedWindow(cfg: Policy, run: seq<Call>, s: int)
    requires cfg.SlidingWindow? && cfg.Valid() && Uses(cfg, run) && Ordered(0, run) && Feasible(BLANK, run)
    ensures Count(Log(BLANK, run), s, s + cfg.window - 999) <= cfg.limit
  {
    hide After, Answer, Refines, Count, Log, Final, Feasible, Ordered, Uses;
    BlankRefines(cfg, 0);
    RunRefines(cfg, BLANK, [], 0, run);
    assert [] + Log(BLANK, run) == Log(BLANK, run);
    var d := cfg.window - 999;
    assert InSpan(Log(BLANK, run), s, d) <= cfg.limit;
  }

  /** The total a call counts lies between the exact counts of the last W - 999 ms and of the last W ms. */
  lemma {:induction false} CountedTotal(cfg: Policy, e: Entry, log: seq<nat>, u: int, c: Call)
    requires cfg.SlidingWindow? && c.cfg == cfg && u <= c.now && Refines(cfg, e, log, u)
    requires c.lapsed ==> MayLapse(e, c.now)
    ensures
      var total := Total(Recent(Held(cfg, Settle(e, c)), c.now - cfg.window));
      Count(log, c.now - cfg.window + 999, c.now) <= total <= Count(log, c.now - cfg.window, c.now)
  {
    hide Refines, Count, CountFrom, Total, Recent, Held;
    ReadsTheLog(cfg, e, log, u, c);
    RefinesIsPast(cfg, e, log, u);
    CountFromSandwich(log, c.now - cfg.window, c.now);
  }

  lemma StepMatches(cfg: Policy, e: Entry, log: seq<nat>, u: int, c: Call)
    requires cfg.SlidingWindow? && cfg.Valid() && c.cfg == cfg && u <= c.now && Refines(cfg, e, log, u)
    requires c.lapsed ==> MayLapse(e, c.now)
    ensures !Answer(e, c).allowed ==> Count(log, c.now - cfg.window, c.now) >= cfg.limit
    ensures Answer(e, c).allowed ==> Count(log, c.now - cfg.window + 999, c.now) < cfg.limit
  {
    hide After, Answer, Refines, Count, CountFrom;
    StepRefines(cfg, e, log, u, c);
    RefinesIsPast(cfg, e, log, u);
    CountFromSandwich(log, c.now - cfg.window, c.now);
  }

  /** A denial means a full quota within the last W ms; an admission means less than one within the last W - 999 ms. */
  lemma {:induction false} DecisionsMatchTheLog(cfg: Policy, run: seq<Call>, c: Call)
    requires cfg.SlidingWindow? && cfg.Valid() && Uses(cfg, run) && Ordered(0, run) && Feasible(BLANK, run)
    requires c.cfg == cfg && Clock(0, run) <= c.now && (c.lapsed ==> MayLapse(Final(BLANK, run), c.now))
    ensures var log := Log(BLANK, run);
            && (!Answer(Final(BLANK, run), c).allowed ==> Count(log, c.now - cfg.window, c.now) >= cfg.limit)
            && (Answer(Final(BLANK, run), c).allowed ==> Count(log, c.now - cfg.window + 999, c.now) < cfg.limit)
  {
    hide After, Answer, Refines, Spaced, Count, Log, Final, Feasible, Ordered, Clock, Uses, MayLapse;
    BlankRefines(cfg, 0);
    RunRefines(cfg, BLANK, [], 0, run);
    assert [] + Log(BLANK, run) == Log(BLANK, run);
    StepMatches(cfg, Final(BLANK, run), Log(BLANK, run), Clock(0, run), c);
  }

  function Repeated(now: nat, n: nat): seq<nat> { seq(n, _ => now) }

  lemma {:induction false} RepeatedCount(now: nat, n: nat, s: int, t: int)
    requires s <= now <= t
    ensures Count(Repeated(now, n), s, t) == n
  {
    if n > 0 {
      assert Repeated(now, n)[1..] == Repeated(now, n - 1);
      RepeatedCount(now, n - 1, s, t);
    }
  }

  lemma RoomAdmits(cfg: Policy, e: Entry, log: seq<nat>, u: nat, now: nat, n: nat)
    requires cfg.SlidingWindow? && cfg.Valid() && u <= now && Refines(cfg, e, log, u)
    requires n >= 1 && CountFrom(log, now - cfg.window) + n <= cfg.limit
    ensures
      var c := Call(cfg, now, false);
      && Answer(e, c).allowed && Refines(cfg, After(e, c), log + [now], now)
      && CountFrom(log + [now], now - cfg.window) + (n - 1) <= cfg.limit
  {
    hide After, Answer, Refines, CountFrom;
    StepRefines(cfg, e, log, u, Call(cfg, now, false));
    PushBumps(log, now, now - cfg.window);
  }

  /** While the log has room a burst is admitted call by call. */
  lemma {:induction false} BurstAdmitted(cfg: Policy, e: Entry, log: seq<nat>, u: nat, now: nat, n: nat)
    requires cfg.SlidingWindow? && cfg.Valid() && u <= now && Refines(cfg, e, log, u)
    requires CountFrom(log, now - cfg.window) + n <= cfg.limit
    ensures Log(e, Burst(cfg, now, n)) == Repeated(now, n) && Feasible(e, Burst(cfg, now, n))
    ensures Refines(cfg, Final(e, Burst(cfg, now, n)), log + Repeated(now, n), if n > 0 then now else u)
    decreases n
  {
    hide After, Answer, Refines, CountFrom;
    if n == 0 {
      assert log + Repeated(now, 0) == log;
    } else {
      var c := Call(cfg, now, false);
      assert Burst(cfg, now, n)[1..] == Burst(cfg, now, n - 1);
      RoomAdmits(cfg, e, log, u, now, n);
      BurstAdmitted(cfg, After(e, c), log + [now], now, now, n - 1);
      assert [now] + Repeated(now, n - 1) == Repeated(now, n);
      assert log + [now] + Repeated(now, n - 1) == log + Repeated(now, n);
    }
  }

  lemma {:induction false} CountFromNone(log: seq<nat>, from: int)
    requires forall i | 0 <= i < |log| :: Bucket(log[i]) < from
    ensures CountFrom(log, from) == 0
  {
    if log != [] {
      CountFromNone(log[..|log| - 1], from);
    }
  }

  /** A full quota in the last millisecond of a second, and one more call once that second has left the window. */
  function Overfull(cfg: Policy, second: nat): seq<Call>
    requires cfg.SlidingWindow?
  {
    Burst(cfg, second + 999, cfg.limit) + Burst(cfg, second + Max(999, cfg.window + 1), 1)
  }

  lemma {:induction false} OverfullIsAdmitted(cfg: Policy, second: nat)
    requires cfg.SlidingWindow? && cfg.Valid() && second % 1000 == 0
    ensures
      var run := Overfull(cfg, second);
      && Uses(cfg, run) && Ordered(second, run) && Feasible(BLANK, run)
      && Count(Log(BLANK, run), second + 999, second + Max(999, cfg.window + 1)) == cfg.limit + 1
  {
    hide After, Answer, Refines, Count, CountFrom, Log, Feasible, Final, Ordered;
    var s: nat, t: nat := second + 999, second + Max(999, cfg.window + 1);
    var first, last := Burst(cfg, s, cfg.limit), Burst(cfg, t, 1);
    BlankRefines(cfg, 0);
    CountFromNone([], s - cfg.window);
    BurstAdmitted(cfg, BLANK, [], 0, s, cfg.limit);
    RepeatedCount(s, cfg.limit, s, t);
    RepeatedCount(t, 1, s, t);
    var mid, log := Final(BLANK, first), Log(BLANK, first);
    assert [] + log == log;
    assert Bucket(s) == second;
    CountFromNone(log, t - cfg.window);
    BurstAdmitted(cfg, mid, log, s, t, 1);
    LogAppend(BLANK, first, last);
    FeasibleAppend(BLANK, first, last);
    BurstIsOrdered(cfg, second, s, cfg.limit);
    BurstIsOrdered(cfg, s, t, 1);
    OrderedAppend(second, first, last);
    CountAppend(log, Log(mid, last), s, t);
  }

  /** No run from `from` on admits more than the limit in any closed interval of length `d`. */
  ghost predicate QuotaHolds(cfg: Policy, from: nat, d: nat)
    requires cfg.SlidingWindow?
  {
    forall run, s: int | Uses(cfg, run) && Ordered(from, run) && Feasible(BLANK, run) ::
      InSpan(Log(BLANK, run), s, d) <= cfg.limit
  }

  /**
   * From whatever instant on: the quota holds on intervals of length W - 999 and on no longer ones. A window of W
   * itself can hold more than the limit.
   */
  lemma {:induction false} QuotaHoldsIff(cfg: Policy, from: nat, d: nat)
    requires cfg.SlidingWindow? && cfg.Valid()
    ensures QuotaHolds(cfg, from, d) <==> d <= cfg.window - 999
  {
    hide Count, Log, Feasible, Ordered, Uses, Overfull;
    if d <= cfg.window - 999 {
      forall run, s: int | Uses(cfg, run) && Ordered(from, run) && Feasible(BLANK, run)
        ensures InSpan(Log(BLANK, run), s, d) <= cfg.limit
      {
        OrderedFromZero(from, run);
        QuotaHoldsOnShortenedWindow(cfg, run, s);
        CountMono(Log(BLANK, run), s, s + d, s, s + cfg.window - 999);
      }
    } else {
      var second := 1000 * (from + 1);
      var run := Overfull(cfg, second);
      OverfullIsAdmitted(cfg, second);
      OrderedFrom(second, from, run);
      CountMono(Log(BLANK, run), second + 999, second + Max(999, cfg.window + 1), second + 999, second + 999 + d);
      assert InSpan(Log(BLANK, run), second + 999, d) > cfg.limit;
    }
  }

  lemma OrderedFrom(late: nat, early: nat, run: seq<Call>)
    requires Ordered(late, run) && early <= late
    ensures Ordered(early, run)
  {
  }
}
