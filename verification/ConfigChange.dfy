/** Changing a key's configuration, even its algorithm, starts the key over. */
module ConfigChange {
  import opened Prelude
  import opened Config
  import opened Limits
  import opened Sums
  import opened Runs
  import opened Observation

  lemma {:induction false} RestartIsBlank(e: Entry, c: Call)
    requires c.cfg.Valid() && !e.state.Fresh? && e.state.cfg != c.cfg
    ensures After(e, c) == After(BLANK, c) && Answer(e, c) == Answer(BLANK, c)
  {
    assert Recent(map[], c.now - (if c.cfg.SlidingWindow? then c.cfg.window else 0)) == map[];
  }

  /**
   * The leaky script's restart admits without a capacity check, so it needs a validated capacity; the others
   * need nothing.
   */
  lemma {:induction false} RestartNeedsCapacity(cfg: Policy)
    ensures (cfg.LeakyBucket? ==> cfg.capacity >= 1) <==>
            forall e: Entry, now: nat | !e.state.Fresh? && e.state.cfg != cfg ::
              Check(cfg, e, now).1 == Check(cfg, BLANK, now).1
  {
    if cfg.LeakyBucket? && cfg.capacity == 0 {
      var e := Entry(Tokens(TokenBucket(1, 1, 1), 0, 0), None);
      assert Check(cfg, e, 0).1 != Check(cfg, BLANK, 0).1;
    }
  }

  /** Length of the longest prefix of the run with a single configuration. */
  function BlockLength(run: seq<Call>): (n: nat)
    ensures n <= |run| && (run != [] ==> n >= 1)
    ensures forall i | 0 <= i < n :: run[i].cfg == run[0].cfg
    ensures n < |run| ==> run[n].cfg != run[n - 1].cfg
  {
    if |run| <= 1 then |run|
    else if run[0].cfg == run[1].cfg then 1 + BlockLength(run[1..])
    else 1
  }

  /** The run cut at every configuration change, each block played on a deleted key. */
  ghost function BlockReplies(run: seq<Call>): seq<Reply>
    decreases |run|
  {
    if run == [] then []
    else
      var n := BlockLength(run);
      Replies(BLANK, run[..n]) + BlockReplies(run[n..])
  }

  lemma {:induction false} RepliesAppend(e: Entry, a: seq<Call>, b: seq<Call>)
    ensures Replies(e, a + b) == Replies(e, a) + Replies(Final(e, a), b)
    ensures Final(e, a + b) == Final(Final(e, a), b)
    decreases |a|
  {
    if a == [] {
      assert a + b == b;
    } else {
      assert (a + b)[1..] == a[1..] + b;
      RepliesAppend(After(e, a[0]), a[1..], b);
    }
  }

  lemma {:induction false} FinalRemembersLast(e: Entry, run: seq<Call>)
    requires run != []
    ensures !Final(e, run).state.Fresh? && Final(e, run).state.cfg == run[|run| - 1].cfg
    decreases |run|
  {
    if |run| > 1 {
      FinalRemembersLast(After(e, run[0]), run[1..]);
    } else {
      assert Final(e, run) == After(e, run[0]);
    }
  }

  lemma {:induction false} BlocksFrom(e: Entry, run: seq<Call>)
    requires AllValid(run)
    requires run == [] || e == BLANK || (!e.state.Fresh? && e.state.cfg != run[0].cfg)
    ensures Replies(e, run) == BlockReplies(run)
    decreases |run|
  {
    if run != [] {
      var n := BlockLength(run);
      var block, rest := run[..n], run[n..];
      assert run == block + rest;
      RepliesAppend(e, block, rest);
      if e != BLANK {
        RestartIsBlank(e, run[0]);
      }
      assert Replies(e, block) == Replies(BLANK, block);
      FinalRemembersLast(e, block);
      BlocksFrom(Final(e, block), rest);
    }
  }

  /**
   * One key, any sequence of algorithms, configurations, timestamps and lapses: no block sees what an earlier
   * one left.
   */
  lemma {:induction false} ConfigChangesRestartCleanly(run: seq<Call>)
    requires AllValid(run)
    ensures Replies(BLANK, run) == BlockReplies(run)
  {
    BlocksFrom(BLANK, run);
  }
}
