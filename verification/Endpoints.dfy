/** Which rule a request falls under. */
module Endpoints {
  import opened Prelude
  import opened Config

  /** A layer's algorithm as configured: complete, not a known name, or a known name with parameters missing. */
  datatype AlgoSpec = Known(cfg: Policy) | Unnamed | Incomplete

  datatype Rule = Rule(path: string, methods: seq<string>, bypass: bool, algo: AlgoSpec)

  predicate HasSuffix(s: string, suffix: string) {
    |s| >= |suffix| && s[|s| - |suffix|..] == suffix
  }

  /** A leading slash, and no trailing one except on the root. */
  function NormalizePath(path: string): (r: string)
    ensures "/" <= r && (|r| > 1 && HasSuffix(r, "/") ==> HasSuffix(path, "//"))
  {
    var p := if "/" <= path then path else "/" + path;
    if |p| > 1 && HasSuffix(p, "/") then p[..|p| - 1] else p
  }

  predicate PathMatches(rulePath: string, requestPath: string) {
    var rule, request := NormalizePath(rulePath), NormalizePath(requestPath);
    || rule == "*"
    || rule == request
    || (HasSuffix(rule, "/*") &&
        var prefix := rule[..|rule| - 2];
        prefix + "/" <= request || request == prefix)
  }

  function Lower(c: char): char {
    if 'A' <= c <= 'Z' then (c as int + 32) as char else c
  }

  /** strings.EqualFold on ASCII letters. */
  predicate EqualFold(a: string, b: string) {
    |a| == |b| && forall i | 0 <= i < |a| :: Lower(a[i]) == Lower(b[i])
  }

  predicate MethodMatches(methods: seq<string>, method_: string) {
    methods == [] || exists i | 0 <= i < |methods| :: EqualFold(methods[i], method_)
  }

  predicate Matches(rule: Rule, path: string, method_: string) {
    PathMatches(rule.path, path) && MethodMatches(rule.methods, method_)
  }

  /** The first matching rule wins. */
  function FirstMatch(rules: seq<Rule>, path: string, method_: string): Option<Rule> {
    if rules == [] then None
    else if Matches(rules[0], path, method_) then Some(rules[0])
    else FirstMatch(rules[1..], path, method_)
  }

  predicate IsFirst(rules: seq<Rule>, i: int, path: string, method_: string) {
    && 0 <= i < |rules| && Matches(rules[i], path, method_)
    && forall j | 0 <= j < i :: !Matches(rules[j], path, method_)
  }

  method MapRequestToEndpointConfig(rules: seq<Rule>, path: string, method_: string) returns (rule: Option<Rule>)
    ensures rule == FirstMatch(rules, path, method_)
    ensures rule.None? ==> forall i | 0 <= i < |rules| :: !Matches(rules[i], path, method_)
    ensures rule.Some? ==> exists i :: IsFirst(rules, i, path, method_) && rules[i] == rule.value
  {
    var i := 0;
    while i < |rules|
      invariant 0 <= i <= |rules|
      invariant forall j | 0 <= j < i :: !Matches(rules[j], path, method_)
      invariant FirstMatch(rules, path, method_) == FirstMatch(rules[i..], path, method_)
    {
      if Matches(rules[i], path, method_) {
        assert IsFirst(rules, i, path, method_);
        return Some(rules[i]);
      }
      i := i + 1;
    }
    return None;
  }

  /** "*" is normalised to a prefix wildcard before it is compared, and as such still catches every path. */
  lemma StarCatchesAll(path: string)
    ensures NormalizePath("*") == "/*" && PathMatches("*", path)
  {
    assert "*"[0] != '/' && "/" + "*" == "/*";
    assert "/*"[1..][0] == '*';
    var request := NormalizePath(path);
    assert "/*"[..0] + "/" == "/";
    assert "/" <= request;
  }
}
