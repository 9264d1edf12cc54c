/** The log of admitted requests of a run, and counting in it. */
module RequestLog {
  import opened Config
  import opened Limits
  import opened Runs

  /** The timestamps of the admitted calls, in call order. */
  ghost function Log(e: Entry, run: seq<Call>): seq<nat>
    decreases |run|
  {
    if run == [] then []
    else (if Answer(e, run[0]).allowed then [run[0].now] else []) + Log(After(e, run[0]), run[1..])
  }

  /** Entries of the log in `[s, t]`. */
  function Count(log: seq<nat>, s: int, t: int): nat {
    if log == [] then 0 else (if s <= log[0] <= t then 1 else 0) + Count(log[1..], s, t)
  }

  lemma {:induction false} CountAppend(a: seq<nat>, b: seq<nat>, s: int, t: int)
    ensures Count(a + b, s, t) == Count(a, s, t) + Count(b, s, t)
  {
    if a == [] {
      assert a + b == b;
    } else {
      assert (a + b)[1..] == a[1..] + b;
      CountAppend(a[1..], b, s, t);
    }
  }

  lemma CountPush(log: seq<nat>, x: nat, s: int, t: int)
    ensures Count(log + [x], s, t) == Count(log, s, t) + (if s <= x <= t then 1 else 0)
  {
    CountAppend(log, [x], s, t);
  }

  lemma {:induction false} CountMono(log: seq<nat>, s: int, t: int, s': int, t': int)
    requires s' <= s && t <= t'
    ensures Count(log, s, t) <= Count(log, s', t')
  {
    if log != [] {
      CountMono(log[1..], s, t, s', t');
    }
  }

  lemma {:induction false} CountSplit(log: seq<nat>, s: int, m: int, t: int)
    requires s <= m + 1 && m <= t
    ensures Count(log, s, t) == Count(log, s, m) + Count(log, m + 1, t)
  {
    if log != [] {
      CountSplit(log[1..], s, m, t);
    }
  }

  lemma {:induction false} CountNone(log: seq<nat>, s: int, t: int)
    requires forall i | 0 <= i < |log| :: log[i] < s || log[i] > t
    ensures Count(log, s, t) == 0
  {
    if log != [] {
      CountNone(log[1..], s, t);
    }
  }

  lemma {:induction false} AdmittedIsCount(e: Entry, run: seq<Call>, s: int, t: int)
    ensures Admitted(e, run, s, t) == Count(Log(e, run), s, t)
    decreases |run|
  {
    if run != [] {
      AdmittedIsCount(After(e, run[0]), run[1..], s, t);
      var head := if Answer(e, run[0]).allowed then [run[0].now] else [];
      CountAppend(head, Log(After(e, run[0]), run[1..]), s, t);
    }
  }

  function Logged(log: seq<nat>, r: Reply, now: nat): seq<nat> {
    if r.allowed then log + [now] else log
  }

  lemma {:induction false} LogAppend(e: Entry, a: seq<Call>, b: seq<Call>)
    ensures Log(e, a + b) == Log(e, a) + Log(Final(e, a), b)
    decreases |a|
  {
    if a == [] {
      assert a + b == b;
    } else {
      assert (a + b)[0] == a[0] && (a + b)[1..] == a[1..] + b;
      LogAppend(After(e, a[0]), a[1..], b);
    }
  }

  lemma AdmittedAppend(e: Entry, a: seq<Call>, b: seq<Call>, s: int, t: int)
    ensures Admitted(e, a + b, s, t) == Admitted(e, a, s, t) + Admitted(Final(e, a), b, s, t)
  {
    AdmittedIsCount(e, a + b, s, t);
    AdmittedIsCount(e, a, s, t);
    AdmittedIsCount(Final(e, a), b, s, t);
    LogAppend(e, a, b);
    CountAppend(Log(e, a), Log(Final(e, a), b), s, t);
  }

  lemma {:induction false} FeasibleAppend(e: Entry, a: seq<Call>, b: seq<Call>)
    requires Feasible(e, a) && Feasible(Final(e, a), b)
    ensures Feasible(e, a + b)
    decreases |a|
  {
    if a == [] {
      assert a + b == b;
    } else {
      assert (a + b)[0] == a[0] && (a + b)[1..] == a[1..] + b;
      FeasibleAppend(After(e, a[0]), a[1..], b);
    }
  }

  /** `n` calls at the same instant. */
  function Burst(cfg: Policy, now: nat, n: nat): seq<Call> {
    seq(n, _ => Call(cfg, now, false))
  }

  lemma {:induction false} OrderedAppend(u: nat, a: seq<Call>, b: seq<Call>)
    requires Ordered(u, a) && Ordered(Clock(u, a), b)
    ensures Ordered(u, a + b)
    decreases |a|
  {
    if a == [] {
      assert a + b == b;
    } else {
      assert (a + b)[0] == a[0] && (a + b)[1..] == a[1..] + b;
      OrderedAppend(a[0].now, a[1..], b);
    }
  }

  lemma OrderedFromZero(u: nat, run: seq<Call>)
    requires Ordered(u, run)
    ensures Ordered(0, run)
  {
  }

  lemma {:induction false} BurstIsOrdered(cfg: Policy, u: nat, now: nat, n: nat)
    requires u <= now
    ensures Ordered(u, Burst(cfg, now, n))
    decreases n
  {
    if n > 0 {
      assert Burst(cfg, now, n)[1..] == Burst(cfg, now, n - 1);
      BurstIsOrdered(cfg, now, now, n - 1);
    }
  }
}
