/** Counters kept in a map, and their sum. */
module Sums {
  import opened Prelude

  /** Sum of the values of a finite map. */
  ghost function Total(m: map<int, int>): int
    decreases |m|
  {
    if m == map[] then 0
    else
      var k := Pick(m.Keys);
      m[k] + Total(m - {k})
  }

  function Recent(m: map<int, int>, from: int): map<int, int> {
    map b | b in m && b >= from :: m[b]
  }

  function Bump(m: map<int, int>, b: int): map<int, int> {
    m[b := (if b in m then m[b] else 0) + 1]
  }

  lemma TotalOfNothing()
    ensures Total(map[]) == 0
  {
  }

  /** Sums are independent of the order in which the keys are taken. */
  lemma {:induction false} TotalRemove(m: map<int, int>, k: int)
    requires k in m
    ensures Total(m) == m[k] + Total(m - {k})
    decreases |m|
  {
    var p := Pick(m.Keys);
    if p != k {
      TotalRemove(m - {p}, k);
      TotalRemove(m - {k}, p);
      assert m - {p} - {k} == m - {k} - {p};
    }
  }

  lemma TotalUpdate(m: map<int, int>, k: int, v: int)
    ensures Total(m[k := v]) == Total(m) + v - (if k in m then m[k] else 0)
  {
    var n := m[k := v];
    TotalRemove(n, k);
    if k in m {
      TotalRemove(m, k);
      assert n - {k} == m - {k};
    } else {
      assert n - {k} == m;
    }
  }

  lemma RecentOfRecent(m: map<int, int>, a: int, b: int)
    requires a <= b
    ensures Recent(Recent(m, a), b) == Recent(m, b)
  {
  }

  lemma RecentOfBump(m: map<int, int>, b: int, from: int)
    ensures Recent(Bump(m, b), from) == if b >= from then Bump(Recent(m, from), b) else Recent(m, from)
  {
  }
}
