/** A denied call might as well not have been made. */
module DeniedCalls {
  import opened Arithmetic
  import opened Config
  import opened Limits
  import opened Sums
  import opened Runs
  import opened Observation

  /** No call from `u` on, whatever its configuration, can tell the two entries apart. */
  ghost predicate SameFrom(e: Entry, f: Entry, u: nat) {
    forall cfg: Policy, t: nat | t >= u :: View(cfg, e, t) == View(cfg, f, t)
  }

  lemma {:induction false} DenialIsSilent(e: Entry, c: Call)
    requires Sane(e) && c.cfg.Valid() && !c.lapsed && !Answer(e, c).allowed
    ensures SameFrom(After(e, c), e, c.now)
  {
    var g := After(e, c);
    match c.cfg
    case TokenBucket(_, rate, period) =>
      if e.state.Tokens? && Periods(e.state.last, c.now, period) >= 1 {
        MulMono(1, Periods(e.state.last, c.now, period), rate);
      }
      assert g.state == e.state;
    case LeakyBucket(_, rate, period) =>
      if e.state.Level? && Periods(e.state.last, c.now, period) >= 1 {
        MulMono(1, Periods(e.state.last, c.now, period), rate);
      }
      assert g.state == e.state;
    case FixedWindow(_, _) =>
      assert g.state == e.state;
    case SlidingWindow(_, window) =>
      assert Recent(map[], c.now - window) == map[];
      assert e.state.Histogram? && e.state.cfg == c.cfg;
      forall cfg: Policy, t: nat | t >= c.now
        ensures View(cfg, g, t) == View(cfg, e, t)
      {
        RecentOfRecent(e.state.counts, c.now - window, t - window);
      }
  }

  function Keep<T>(s: seq<T>, mask: seq<bool>): seq<T>
    requires |s| == |mask|
  {
    if s == [] then [] else (if mask[0] then [s[0]] else []) + Keep(s[1..], mask[1..])
  }

  /** Every struck-out call of the run was denied. */
  ghost predicate StrikesDenials(e: Entry, run: seq<Call>, mask: seq<bool>)
    requires |mask| == |run|
    decreases |run|
  {
    run == [] || ((mask[0] || !Answer(e, run[0]).allowed) && StrikesDenials(After(e, run[0]), run[1..], mask[1..]))
  }

  lemma {:induction false} RepliesLength(e: Entry, run: seq<Call>)
    ensures |Replies(e, run)| == |run|
    decreases |run|
  {
    if run != [] {
      RepliesLength(After(e, run[0]), run[1..]);
    }
  }

  lemma KeptCall(e: Entry, f: Entry, u: nat, c: Call)
    requires Sane(e) && Sane(f) && SameFrom(e, f, u)
    requires c.cfg.Valid() && u <= c.now && !c.lapsed
    ensures Answer(e, c) == Answer(f, c)
    ensures Sane(After(e, c)) && Sane(After(f, c)) && SameFrom(After(e, c), After(f, c), c.now)
  {
    assert c.(lapsed := false) == c;
    assert View(c.cfg, e, c.now) == View(c.cfg, f, c.now);
    ViewDecides(e, f, c);
    StepSane(e, c);
    StepSane(f, c);
  }

  lemma StruckCall(e: Entry, f: Entry, u: nat, c: Call)
    requires Sane(e) && SameFrom(e, f, u)
    requires c.cfg.Valid() && u <= c.now && !c.lapsed && !Answer(e, c).allowed
    ensures Sane(After(e, c)) && SameFrom(After(e, c), f, c.now)
  {
    StepSane(e, c);
    DenialIsSilent(e, c);
    forall cfg: Policy, t: nat | t >= c.now
      ensures View(cfg, After(e, c), t) == View(cfg, f, t)
    {
      assert View(cfg, e, t) == View(cfg, f, t);
    }
  }

  lemma KeepStep<T>(s: seq<T>, mask: seq<bool>)
    requires |s| == |mask| && s != []
    ensures Keep(s, mask) == if mask[0] then [s[0]] + Keep(s[1..], mask[1..]) else Keep(s[1..], mask[1..])
  {
  }

  lemma {:induction false} KeepReplies(e: Entry, f: Entry, u: nat, run: seq<Call>, mask: seq<bool>)
    requires Sane(e) && Sane(f) && SameFrom(e, f, u)
    requires AllValid(run) && Ordered(u, run) && NoLapse(run)
    requires |mask| == |run| == |Replies(e, run)| && StrikesDenials(e, run, mask)
    ensures Replies(f, Keep(run, mask)) == Keep(Replies(e, run), mask)
    decreases |run|
  {
    if run != [] {
      var c, rest := run[0], run[1..];
      var e' := After(e, c);
      RepliesLength(e', rest);
      assert Replies(e, run) == [Answer(e, c)] + Replies(e', rest);
      assert Replies(e, run)[1..] == Replies(e', rest);
      KeepStep(run, mask);
      KeepStep(Replies(e, run), mask);
      if mask[0] {
        KeptCall(e, f, u, c);
        var f' := After(f, c);
        KeepReplies(e', f', c.now, rest, mask[1..]);
        var kept := Keep(run, mask);
        assert kept[0] == c && kept[1..] == Keep(rest, mask[1..]);
        assert Replies(f, kept) == [Answer(f, c)] + Replies(f', kept[1..]);
      } else {
        StruckCall(e, f, u, c);
        KeepReplies(e', f, c.now, rest, mask[1..]);
      }
    }
  }

  /**
   * Strike out any of the denied calls of a run: every other call is answered as before. Algorithms and
   * configurations may change along the run; timestamps never decrease and the key does not lapse.
   */
  lemma {:induction false} DeniedCallsAreInvisible(e: Entry, u: nat, run: seq<Call>, mask: seq<bool>)
    requires Sane(e) && AllValid(run) && Ordered(u, run) && NoLapse(run)
    requires |mask| == |run| && StrikesDenials(e, run, mask)
    ensures |Replies(e, run)| == |run|
    ensures Replies(e, Keep(run, mask)) == Keep(Replies(e, run), mask)
  {
    RepliesLength(e, run);
    KeepReplies(e, e, u, run, mask);
  }
}
