/** What a later call can see of a stored state, and what it cannot. */
module Observation {
  import opened Arithmetic
  import opened Config
  import opened Limits
  import opened Sums
  import opened Runs

  /**
   * The part of the state that a call with configuration `cfg` at `now` reads: nothing of another
   * configuration, nothing stale.
   */
  ghost function View(cfg: Policy, e: Entry, now: nat): State {
    if e.state.Fresh? || e.state.cfg != cfg then Fresh
    else
      match e.state
      case Window(_, _, start) => if cfg.FixedWindow? && start >= WindowStart(now, cfg.window) then e.state else Fresh
      case Histogram(_, counts) =>
        if cfg.SlidingWindow? && Recent(counts, now - cfg.window) != map[]
        then Histogram(cfg, Recent(counts, now - cfg.window))
        else Fresh
      case _ => e.state
  }

  /** Stored states belong to the algorithm of their configuration and stay within its limits. */
  ghost predicate Sane(e: Entry) {
    e.state.Fresh? ||
    (&& e.state.Matches() && e.state.cfg.Valid()
     && match e.state
        case Tokens(cfg, tokens, _) => 0 <= tokens <= cfg.capacity
        case Level(cfg, level, _) => 0 <= level <= cfg.capacity
        case Window(cfg, count, start) => 0 <= count <= cfg.limit && start % cfg.window == 0
        case Histogram(_, counts) => forall b | b in counts :: counts[b] >= 1)
  }

  predicate AllValid(run: seq<Call>) {
    forall i | 0 <= i < |run| :: run[i].cfg.Valid()
  }

  lemma StepSane(e: Entry, c: Call)
    requires Sane(e) && c.cfg.Valid()
    ensures Sane(After(e, c))
  {
    match c.cfg
    case TokenBucket(_, rate, period) =>
      if e.state.Tokens? {
        MulMono(0, Periods(e.state.last, c.now, period), rate);
      }
    case LeakyBucket(_, rate, period) =>
      if e.state.Level? {
        MulMono(0, Periods(e.state.last, c.now, period), rate);
      }
    case FixedWindow(_, window) =>
      WindowStartIsMultiple(c.now, window);
    case SlidingWindow(_, _) =>
  }

  lemma WindowStartIsMultiple(now: nat, window: int)
    requires window >= 1
    ensures WindowStart(now, window) % window == 0
    ensures WindowStart(now, window) <= now < WindowStart(now, window) + window
  {
    DivBounds(now, window);
    MultipleHasNoRemainder(now / window, window);
  }

  /** A call's answer, and the state it leaves, depend on the view alone. */
  lemma {:induction false} ViewDecides(e: Entry, f: Entry, c: Call)
    requires Sane(e) && Sane(f) && c.cfg.Valid()
    requires View(c.cfg, Settle(e, c), c.now) == View(c.cfg, f, c.now)
    ensures Answer(e, c) == Answer(f, c.(lapsed := false))
    ensures After(e, c).state == After(f, c.(lapsed := false)).state
  {
  }
}
