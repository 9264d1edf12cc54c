/** Redis keys of the limiters: which ids can share a key and which cannot. */
module Keys {

  datatype KeyId =
    | GlobalKey
    | TenantKey(tenant: string)
    | EndpointKey(methods: seq<string>, path: string, tenant: string)

  const PREFIX := "ctrl:limiter:"

  /** strings.Join(methods, "_") */
  function Join(methods: seq<string>): string {
    if methods == [] then "" else if |methods| == 1 then methods[0] else methods[0] + "_" + Join(methods[1..])
  }

  function ConstructKey(id: KeyId): string {
    match id
    case GlobalKey => PREFIX + "global"
    case TenantKey(t) => PREFIX + "pertenant:" + t
    case EndpointKey(ms, p, t) => PREFIX + "perendpoint:" + Join(ms) + ":" + p + ":" + t
  }

  // ----- a left inverse -----

  /** Everything before the first `sep`, and everything after it. */
  function Cut(s: string, sep: char): (string, string) {
    if s == "" then ("", "")
    else if s[0] == sep then ("", s[1..])
    else var (a, b) := Cut(s[1..], sep); ([s[0]] + a, b)
  }

  function Split(s: string): (parts: seq<string>)
    decreases |s|
  {
    if '_' in s then
      var (a, b) := Cut(s, '_');
      CutShrinks(s, '_');
      [a] + Split(b)
    else [s]
  }

  lemma {:induction false} CutShrinks(s: string, sep: char)
    requires s != ""
    ensures |Cut(s, sep).1| < |s|
  {
    if s[0] != sep && |s| > 1 {
      CutShrinks(s[1..], sep);
    }
  }

  function Deconstruct(key: string): KeyId
    requires PREFIX <= key
  {
    var rest := key[|PREFIX|..];
    if "pertenant:" <= rest then TenantKey(rest[|"pertenant:"|..])
    else if "perendpoint:" <= rest then
      var (ms, tail) := Cut(rest[|"perendpoint:"|..], ':');
      var (p, t) := Cut(tail, ':');
      EndpointKey(if ms == "" then [] else Split(ms), p, t)
    else GlobalKey
  }

  /** Methods are words, and paths contain no colon; tenant keys may. */
  predicate Clean(id: KeyId) {
    id.EndpointKey? ==>
      && (forall i | 0 <= i < |id.methods| :: IsWord(id.methods[i]))
      && ':' !in id.path
  }

  predicate IsWord(m: string) {
    m != "" && ':' !in m && '_' !in m
  }

  lemma {:induction false} CutAt(a: string, sep: char, b: string)
    requires sep !in a
    ensures Cut(a + [sep] + b, sep) == (a, b)
  {
    var s := a + [sep] + b;
    if a == "" {
      assert s[1..] == b;
    } else {
      assert s[0] == a[0] && s[1..] == a[1..] + [sep] + b;
      CutAt(a[1..], sep, b);
      assert [a[0]] + a[1..] == a;
    }
  }

  lemma {:induction false} SplitJoin(ms: seq<string>)
    requires ms != [] && forall i | 0 <= i < |ms| :: IsWord(ms[i])
    ensures Split(Join(ms)) == ms
    ensures ':' !in Join(ms) && Join(ms) != ""
  {
    if |ms| > 1 {
      SplitJoin(ms[1..]);
      assert Join(ms) == ms[0] + ['_'] + Join(ms[1..]);
      CutAt(ms[0], '_', Join(ms[1..]));
      assert Join(ms)[|ms[0]|] == '_';
      assert [ms[0]] + ms[1..] == ms;
    }
  }

  /** Distinct limiter ids never share a key: the key determines the level, the methods, the path and the tenant. */
  lemma {:induction false} KeyDeterminesId(id: KeyId)
    requires Clean(id)
    ensures PREFIX <= ConstructKey(id) && Deconstruct(ConstructKey(id)) == id
  {
    var key := ConstructKey(id);
    match id
    case GlobalKey =>
      assert key[|PREFIX|..] == "global";
    case TenantKey(t) =>
      assert key[|PREFIX|..] == "pertenant:" + t;
      assert ("pertenant:" + t)[|"pertenant:"|..] == t;
    case EndpointKey(ms, p, t) =>
      var tail := p + [':'] + t;
      var rest := Join(ms) + [':'] + tail;
      assert key == PREFIX + ("perendpoint:" + rest);
      assert key[|PREFIX|..] == "perendpoint:" + rest;
      assert ("perendpoint:" + rest)[0] == 'p' && ("perendpoint:" + rest)[3] == 'e' && "pertenant:"[3] == 't';
      assert ("perendpoint:" + rest)[|"perendpoint:"|..] == rest;
      if ms != [] {
        SplitJoin(ms);
      }
      CutAt(Join(ms), ':', tail);
      CutAt(p, ':', t);
  }

  lemma EndpointKeyFormat()
    ensures ConstructKey(EndpointKey(["GET", "POST"], "/a", "u")) == "ctrl:limiter:perendpoint:GET_POST:/a:u"
  {
    var ms := ["GET", "POST"];
    assert Join(ms) == "GET_POST" by { assert ms[1..] == ["POST"]; }
    hide Join;
    assert PREFIX + "perendpoint:" == "ctrl:limiter:perendpoint:";
    assert PREFIX + "perendpoint:" + Join(ms) + ":" == "ctrl:limiter:perendpoint:GET_POST:";
  }

  /** One key of each level, letter by letter. */
  lemma {:induction false} KeyFormat()
    ensures ConstructKey(GlobalKey) == "ctrl:limiter:global"
    ensures ConstructKey(TenantKey("u")) == "ctrl:limiter:pertenant:u"
    ensures ConstructKey(EndpointKey(["GET", "POST"], "/a", "u")) == "ctrl:limiter:perendpoint:GET_POST:/a:u"
  {
    EndpointKeyFormat();
  }

  /** Exactly which rules can collide: same methods, and one path continues the other past a colon. */
  lemma {:induction false} RulesCollideIff(ms1: seq<string>, p1: string, ms2: seq<string>, p2: string)
    requires ':' !in Join(ms1) && ':' !in Join(ms2)
    ensures
      (exists t1, t2 :: ConstructKey(EndpointKey(ms1, p1, t1)) == ConstructKey(EndpointKey(ms2, p2, t2)))
      <==> Join(ms1) == Join(ms2) && (p1 == p2 || p1 + ":" <= p2 || p2 + ":" <= p1)
  {
    if Join(ms1) == Join(ms2) {
      if p1 == p2 {
        assert ConstructKey(EndpointKey(ms1, p1, "")) == ConstructKey(EndpointKey(ms2, p2, ""));
      } else if p1 + ":" <= p2 {
        ContinuedPathCollides(ms1, p1, ms2, p2);
      } else if p2 + ":" <= p1 {
        ContinuedPathCollides(ms2, p2, ms1, p1);
      }
    }
    forall t1, t2 | ConstructKey(EndpointKey(ms1, p1, t1)) == ConstructKey(EndpointKey(ms2, p2, t2))
      ensures Join(ms1) == Join(ms2) && (p1 == p2 || p1 + ":" <= p2 || p2 + ":" <= p1)
    {
      CollisionShape(ms1, p1, t1, ms2, p2, t2);
    }
  }

  lemma EndpointKeyIs(ms: seq<string>, p: string, t: string)
    ensures ConstructKey(EndpointKey(ms, p, t)) == PREFIX + "perendpoint:" + Join(ms) + ":" + (p + ":" + t)
  {
    var head := PREFIX + "perendpoint:" + Join(ms) + ":";
    assert head + (p + ":" + t) == head + p + ":" + t;
  }

  lemma ContinuedPathCollides(ms1: seq<string>, p1: string, ms2: seq<string>, p2: string)
    requires Join(ms1) == Join(ms2) && p1 + ":" <= p2
    ensures exists t1, t2 :: ConstructKey(EndpointKey(ms1, p1, t1)) == ConstructKey(EndpointKey(ms2, p2, t2))
  {
    var more := p2[|p1| + 1..];
    EndpointKeyIs(ms1, p1, more + ":");
    EndpointKeyIs(ms2, p2, "");
    assert p2 == p1 + ":" + more;
    assert p1 + ":" + (more + ":") == p2 + ":" + "";
    hide ConstructKey, Join;
    assert ConstructKey(EndpointKey(ms1, p1, more + ":")) == ConstructKey(EndpointKey(ms2, p2, ""));
  }

  lemma CollisionShape(ms1: seq<string>, p1: string, t1: string, ms2: seq<string>, p2: string, t2: string)
    requires ':' !in Join(ms1) && ':' !in Join(ms2)
    requires ConstructKey(EndpointKey(ms1, p1, t1)) == ConstructKey(EndpointKey(ms2, p2, t2))
    ensures Join(ms1) == Join(ms2) && (p1 == p2 || p1 + ":" <= p2 || p2 + ":" <= p1)
  {
    var a := EndpointTail(ms1, p1, t1);
    var b := EndpointTail(ms2, p2, t2);
    CutAt(Join(ms1), ':', a);
    CutAt(Join(ms2), ':', b);
    PathContinues(p1, t1, p2, t2);
  }

  /** What follows the methods in an endpoint key. */
  lemma EndpointTail(ms: seq<string>, p: string, t: string) returns (tail: string)
    ensures tail == p + ":" + t
    ensures ConstructKey(EndpointKey(ms, p, t))[|PREFIX + "perendpoint:"|..] == Join(ms) + [':'] + tail
  {
    var head := PREFIX + "perendpoint:";
    tail := p + ":" + t;
    assert ConstructKey(EndpointKey(ms, p, t)) == head + (Join(ms) + [':'] + tail);
  }

  lemma PathContinues(p1: string, t1: string, p2: string, t2: string)
    requires p1 + ":" + t1 == p2 + ":" + t2
    ensures p1 == p2 || p1 + ":" <= p2 || p2 + ":" <= p1
  {
    var a := p1 + ":" + t1;
    if |p1| < |p2| {
      assert a[..|p1| + 1] == p1 + ":" && a[..|p2|] == p2;
    } else if |p2| < |p1| {
      assert a[..|p2| + 1] == p2 + ":" && a[..|p1|] == p1;
    } else {
      assert a[..|p1|] == p1 && a[..|p2|] == p2;
    }
  }
}
