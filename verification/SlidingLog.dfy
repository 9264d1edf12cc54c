/** The one-second histogram of the sliding window against the log of admitted requests. */
module SlidingLog {
  import opened Prelude
  import opened Arithmetic
  import opened Config
  import opened Limits
  import opened Sums
  import opened Runs
  import opened RequestLog

  /** Per-second counts of a log. */
  function Hist(log: seq<nat>): map<int, int> {
    if log == [] then map[] else Bump(Hist(log[..|log| - 1]), Bucket(log[|log| - 1]))
  }

  /** Entries whose whole-second bucket is at or after `from`. */
  function CountFrom(log: seq<nat>, from: int): nat {
    if log == [] then 0
    else CountFrom(log[..|log| - 1], from) + (if Bucket(log[|log| - 1]) >= from then 1 else 0)
  }

  lemma {:induction false} HistTotal(log: seq<nat>, from: int)
    ensures Total(Recent(Hist(log), from)) == CountFrom(log, from)
  {
    if log == [] {
      assert Recent(map[], from) == map[];
    } else {
      var shorter, b := log[..|log| - 1], Bucket(log[|log| - 1]);
      HistTotal(shorter, from);
      RecentOfBump(Hist(shorter), b, from);
      var m := Recent(Hist(shorter), from);
      TotalUpdate(m, b, (if b in m then m[b] else 0) + 1);
    }
  }

  lemma {:induction false} HistBuckets(log: seq<nat>)
    ensures forall b | b in Hist(log) :: Hist(log)[b] >= 1 && exists i :: 0 <= i < |log| && Bucket(log[i]) == b
  {
    if log != [] {
      var shorter := log[..|log| - 1];
      HistBuckets(shorter);
      forall b | b in Hist(log)
        ensures Hist(log)[b] >= 1 && exists i :: 0 <= i < |log| && Bucket(log[i]) == b
      {
        if b in Hist(shorter) {
          var i :| 0 <= i < |shorter| && Bucket(shorter[i]) == b;
          assert log[i] == shorter[i];
        } else {
          assert b == Bucket(log[|log| - 1]);
        }
      }
    }
  }

  lemma {:induction false} CountFromMono(log: seq<nat>, a: int, b: int)
    requires a <= b
    ensures CountFrom(log, b) <= CountFrom(log, a)
  {
    if log != [] {
      CountFromMono(log[..|log| - 1], a, b);
    }
  }

  /** Truncation to seconds counts at most 999 ms too many and never one too few. */
  lemma {:induction false} CountFromSandwich(log: seq<nat>, from: int, t: int)
    requires forall i | 0 <= i < |log| :: log[i] <= t
    ensures Count(log, from + 999, t) <= CountFrom(log, from) <= Count(log, from, t)
  {
    if log != [] {
      var shorter, x := log[..|log| - 1], log[|log| - 1];
      assert log == shorter + [x];
      CountFromSandwich(shorter, from, t);
      CountPush(shorter, x, from, t);
      CountPush(shorter, x, from + 999, t);
      DivBounds(x, 1000);
    }
  }

  ghost function Held(cfg: Policy, e: Entry): map<int, int>
    requires cfg.SlidingWindow?
  {
    if e.state.Histogram? && e.state.cfg == cfg then e.state.counts else map[]
  }

  /** From `u` on the buckets and the histogram of the whole log are interchangeable, and the quota is kept. */
  ghost predicate Mirrors(cfg: Policy, held: map<int, int>, log: seq<nat>, u: int)
    requires cfg.SlidingWindow?
  {
    && Recent(held, u - cfg.window) == Recent(Hist(log), u - cfg.window)
    && CountFrom(log, u - cfg.window) <= cfg.limit
    && forall i | 0 <= i < |log| :: log[i] <= u
  }

  /** The key outlives everything it has to remember. */
  ghost predicate Outlives(cfg: Policy, e: Entry, log: seq<nat>)
    requires cfg.SlidingWindow?
  {
    e.state.Histogram? && e.state.cfg == cfg && e.expiresAt.Some? ==>
      forall i | 0 <= i < |log| :: log[i] + cfg.window < e.expiresAt.value
  }

  ghost predicate Refines(cfg: Policy, e: Entry, log: seq<nat>, u: int)
    requires cfg.SlidingWindow?
  {
    Mirrors(cfg, Held(cfg, e), log, u) && Outlives(cfg, e, log)
  }

  /** Buckets that have left the window by the time the key may lapse. */
  lemma LapsedLogIsStale(cfg: Policy, e: Entry, log: seq<nat>, now: nat)
    requires cfg.SlidingWindow? && Outlives(cfg, e, log) && MayLapse(e, now)
    requires e.state.Histogram? && e.state.cfg == cfg
    ensures Recent(Hist(log), now - cfg.window) == map[]
  {
    HistBuckets(log);
    forall b | b in Hist(log)
      ensures b < now - cfg.window
    {
      var i :| 0 <= i < |log| && Bucket(log[i]) == b;
      DivBounds(log[i], 1000);
    }
  }

  /** What a call reads at `now`: exactly the log's counts for the seconds still in the window. */
  lemma ReadsTheLog(cfg: Policy, e: Entry, log: seq<nat>, u: int, c: Call)
    requires cfg.SlidingWindow? && c.cfg == cfg && u <= c.now && Refines(cfg, e, log, u)
    requires c.lapsed ==> MayLapse(e, c.now)
    ensures Recent(Held(cfg, Settle(e, c)), c.now - cfg.window) == Recent(Hist(log), c.now - cfg.window)
    ensures Total(Recent(Held(cfg, Settle(e, c)), c.now - cfg.window)) == CountFrom(log, c.now - cfg.window)
  {
    var from := c.now - cfg.window;
    HistTotal(log, from);
    RecentOfRecent(Held(cfg, e), u - cfg.window, from);
    RecentOfRecent(Hist(log), u - cfg.window, from);
    if c.lapsed {
      assert Recent(map[], from) == map[];
      if e.state.Histogram? && e.state.cfg == cfg {
        LapsedLogIsStale(cfg, e, log, c.now);
      }
    }
  }

  /** The decision and the new buckets, in terms of the buckets still in the window. */
  lemma StepShape(cfg: Policy, e: Entry, c: Call)
    requires cfg.SlidingWindow? && cfg.Valid() && c.cfg == cfg
    ensures
      var kept := Recent(Held(cfg, Settle(e, c)), c.now - cfg.window);
      var allowed := Total(kept) < cfg.limit;
      && Answer(e, c).allowed == allowed
      && Held(cfg, After(e, c)) == (if allowed then Bump(kept, Bucket(c.now)) else kept)
      && After(e, c).state.Histogram? && After(e, c).state.cfg == cfg
      && (allowed ==> After(e, c).expiresAt == Some(c.now + 1000 * (CeilDiv(cfg.window, 1000) + 60)))
      && (!allowed ==> e.state.Histogram? && e.state.cfg == cfg && After(e, c).expiresAt == e.expiresAt)
  {
    assert Recent(map[], c.now - cfg.window) == map[];
  }

  /** Pushing `x` on the log and bumping its bucket go together. */
  lemma PushBumps(log: seq<nat>, x: nat, from: int)
    ensures CountFrom(log + [x], from) == CountFrom(log, from) + (if Bucket(x) >= from then 1 else 0)
    ensures Recent(Bump(Recent(Hist(log), from), Bucket(x)), from) == Recent(Hist(log + [x]), from)
    ensures Bucket(x) >= from ==> Bump(Recent(Hist(log), from), Bucket(x)) == Recent(Hist(log + [x]), from)
  {
    assert (log + [x])[..|log|] == log;
    RecentOfBump(Hist(log), Bucket(x), from);
    RecentOfBump(Recent(Hist(log), from), Bucket(x), from);
    RecentOfRecent(Hist(log), from, from);
  }

  lemma AdmitMirrors(cfg: Policy, held: map<int, int>, log: seq<nat>, u: int, now: nat)
    requires cfg.SlidingWindow? && u <= now && Mirrors(cfg, held, log, u)
    requires CountFrom(log, now - cfg.window) < cfg.limit
    ensures Mirrors(cfg, Bump(Recent(Hist(log), now - cfg.window), Bucket(now)), log + [now], now)
  {
    hide Hist, Recent, Bump, CountFrom;
    PushBumps(log, now, now - cfg.window);
  }

  lemma DenyMirrors(cfg: Policy, held: map<int, int>, log: seq<nat>, u: int, now: nat)
    requires cfg.SlidingWindow? && u <= now && Mirrors(cfg, held, log, u)
    ensures Mirrors(cfg, Recent(Hist(log), now - cfg.window), log, now)
  {
    RecentOfRecent(Hist(log), now - cfg.window, now - cfg.window);
    CountFromMono(log, u - cfg.window, now - cfg.window);
  }

  lemma AdmitOutlives(cfg: Policy, e: Entry, log: seq<nat>, now: nat)
    requires cfg.SlidingWindow?
    requires forall i | 0 <= i < |log| :: log[i] <= now
    requires e.expiresAt == Some(now + 1000 * (CeilDiv(cfg.window, 1000) + 60))
    ensures Outlives(cfg, e, log + [now])
  {
  }

  /** A call is admitted exactly when the log has room, and the refinement carries on. */
  lemma {:induction false} StepRefines(cfg: Policy, e: Entry, log: seq<nat>, u: int, c: Call)
    requires cfg.SlidingWindow? && cfg.Valid() && c.cfg == cfg && u <= c.now && Refines(cfg, e, log, u)
    requires c.lapsed ==> MayLapse(e, c.now)
    ensures Answer(e, c).allowed <==> CountFrom(log, c.now - cfg.window) < cfg.limit
    ensures Refines(cfg, After(e, c), Logged(log, Answer(e, c), c.now), c.now)
  {
    hide After, Answer, Total, Hist, Recent, Bump;
    ReadsTheLog(cfg, e, log, u, c);
    StepShape(cfg, e, c);
    if Answer(e, c).allowed {
      AdmitMirrors(cfg, Held(cfg, e), log, u, c.now);
      AdmitOutlives(cfg, After(e, c), log, c.now);
    } else {
      DenyMirrors(cfg, Held(cfg, e), log, u, c.now);
    }
  }

  /**
   * With a window of at least one bucket, the stored fields are the log's per-second counts in the window, no
   * more and no less.
   */
  lemma {:induction false} StoresTheLog(cfg: Policy, e: Entry, log: seq<nat>, u: int, c: Call)
    requires cfg.SlidingWindow? && cfg.Valid() && c.cfg == cfg && u <= c.now && Refines(cfg, e, log, u)
    requires c.lapsed ==> MayLapse(e, c.now)
    requires cfg.window >= 1000
    ensures Held(cfg, After(e, c)) == Recent(Hist(Logged(log, Answer(e, c), c.now)), c.now - cfg.window)
  {
    hide After, Answer, Total, Hist;
    ReadsTheLog(cfg, e, log, u, c);
    StepShape(cfg, e, c);
    DivBounds(c.now, 1000);
    PushBumps(log, c.now, c.now - cfg.window);
  }
}
