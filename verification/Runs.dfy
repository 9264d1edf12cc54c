/** Runs of timestamped calls on one key. */
module Runs {
  import opened Config
  import opened Limits

  /** One call; `lapsed` says that Redis had dropped the key when the call read it. */
  datatype Call = Call(cfg: Policy, now: nat, lapsed: bool)

  /** Redis may drop a key at any instant from its expiry on. */
  predicate MayLapse(e: Entry, now: nat) {
    e.expiresAt.Some? && now >= e.expiresAt.value
  }

  function Settle(e: Entry, c: Call): Entry {
    if c.lapsed then BLANK else e
  }

  ghost function After(e: Entry, c: Call): Entry {
    Check(c.cfg, Settle(e, c), c.now).0
  }

  ghost function Answer(e: Entry, c: Call): Reply {
    Check(c.cfg, Settle(e, c), c.now).1
  }

  ghost function Replies(e: Entry, run: seq<Call>): seq<Reply>
    decreases |run|
  {
    if run == [] then [] else [Answer(e, run[0])] + Replies(After(e, run[0]), run[1..])
  }

  ghost function Final(e: Entry, run: seq<Call>): Entry
    decreases |run|
  {
    if run == [] then e else Final(After(e, run[0]), run[1..])
  }

  ghost predicate Feasible(e: Entry, run: seq<Call>)
    decreases |run|
  {
    run == [] || ((run[0].lapsed ==> MayLapse(e, run[0].now)) && Feasible(After(e, run[0]), run[1..]))
  }

  /** Timestamps never decrease, starting from `from`. */
  predicate Ordered(from: nat, run: seq<Call>)
    decreases |run|
  {
    run == [] || (from <= run[0].now && Ordered(run[0].now, run[1..]))
  }

  /** Timestamp of the last call of a run that starts at or after `from`. */
  function Clock(from: nat, run: seq<Call>): nat {
    if run == [] then from else run[|run| - 1].now
  }

  predicate Uses(cfg: Policy, run: seq<Call>) {
    forall i | 0 <= i < |run| :: run[i].cfg == cfg
  }

  predicate NoLapse(run: seq<Call>) {
    forall i | 0 <= i < |run| :: !run[i].lapsed
  }

  /** How many calls of the run with a timestamp in `[s, t]` are admitted. */
  ghost function Admitted(e: Entry, run: seq<Call>, s: int, t: int): nat
    decreases |run|
  {
    if run == [] then 0
    else
      (if Answer(e, run[0]).allowed && s <= run[0].now <= t then 1 else 0)
      + Admitted(After(e, run[0]), run[1..], s, t)
  }
}
