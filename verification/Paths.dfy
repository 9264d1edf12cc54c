/** Rule matching read segment by segment. */
module Paths {
  import opened Endpoints

  /** The pieces of a string between its slashes; there is always at least one. */
  function Pieces(s: string): (r: seq<string>)
    ensures r != []
  {
    if s == "" then [""]
    else
      var rest := Pieces(s[1..]);
      if s[0] == '/' then [""] + rest else [[s[0]] + rest[0]] + rest[1..]
  }

  /** The pieces with a slash between each two. */
  function Joined(pieces: seq<string>): string
    requires pieces != []
  {
    if |pieces| == 1 then pieces[0] else pieces[0] + "/" + Joined(pieces[1..])
  }

  /** A path without one leading and one trailing slash. */
  function Core(path: string): string {
    var s := if path != "" && path[0] == '/' then path[1..] else path;
    if s != "" && s[|s| - 1] == '/' then s[..|s| - 1] else s
  }

  function Segments(path: string): (r: seq<string>)
    ensures r != []
  {
    Pieces(Core(path))
  }

  // ----- cutting and joining -----

  lemma JoinedTwo(first: string, rest: seq<string>)
    requires rest != []
    ensures Joined([first] + rest) == first + "/" + Joined(rest)
  {
    assert ([first] + rest)[1..] == rest && ([first] + rest)[0] == first;
  }

  lemma ConcatAssociates(a: string, b: string, c: string)
    ensures a + b + c == a + (b + c)
  {
  }

  /** Putting a character in front of the first piece puts it in front of the whole. */
  lemma JoinedGrows(c: char, rest: seq<string>)
    requires rest != []
    ensures Joined([[c] + rest[0]] + rest[1..]) == [c] + Joined(rest)
  {
    if |rest| == 1 {
      assert [[c] + rest[0]] + rest[1..] == [[c] + rest[0]];
    } else {
      var first, tail := rest[0], rest[1..];
      assert rest == [first] + tail;
      JoinedTwo([c] + first, tail);
      JoinedTwo(first, tail);
      hide Joined;
      ConcatAssociates([c], first, "/");
      ConcatAssociates([c], first + "/", Joined(tail));
    }
  }

  lemma {:induction false} JoinedPieces(s: string)
    ensures Joined(Pieces(s)) == s
  {
    if s != "" {
      JoinedPieces(s[1..]);
      JoinedGrows(s[0], Pieces(s[1..]));
      JoinedTwo("", Pieces(s[1..]));
      assert s == [s[0]] + s[1..];
      hide Joined;
    }
  }

  lemma {:induction false} PiecesOfBoth(a: string, b: string)
    ensures Pieces(a + "/" + b) == Pieces(a) + Pieces(b)
  {
    var s := a + "/" + b;
    if a == "" {
      assert s[1..] == b;
    } else {
      assert s[0] == a[0] && s[1..] == a[1..] + "/" + b;
      PiecesOfBoth(a[1..], b);
    }
  }

  lemma {:induction false} JoinedBoth(p: seq<string>, q: seq<string>)
    requires p != [] && q != []
    ensures Joined(p + q) == Joined(p) + "/" + Joined(q)
  {
    assert (p + q)[1..] == p[1..] + q;
    if |p| > 1 {
      JoinedBoth(p[1..], q);
      assert p[0] + "/" + (Joined(p[1..]) + "/" + Joined(q)) == p[0] + "/" + Joined(p[1..]) + "/" + Joined(q);
    } else {
      assert p[1..] + q == q;
    }
  }

  /** One string's pieces begin another's exactly when it is the other or stops at one of its slashes. */
  lemma {:induction false} PrefixOfPieces(a: string, b: string)
    ensures Pieces(a) <= Pieces(b) <==> a == b || a + "/" <= b
  {
    if a + "/" <= b {
      var rest := b[|a| + 1..];
      assert b == a + "/" + rest;
      PiecesOfBoth(a, rest);
    }
    if Pieces(a) <= Pieces(b) {
      var rest := Pieces(b)[|Pieces(a)|..];
      assert Pieces(b) == Pieces(a) + rest;
      JoinedPieces(a);
      JoinedPieces(b);
      if rest != [] {
        JoinedBoth(Pieces(a), rest);
      } else {
        assert Pieces(a) + rest == Pieces(a);
      }
    }
  }

  lemma PiecesAreInjective(a: string, b: string)
    ensures Pieces(a) == Pieces(b) <==> a == b
  {
    JoinedPieces(a);
    JoinedPieces(b);
  }

  lemma LeadingSlash(path: string)
    ensures (if "/" <= path then path else "/" + path) == "/" + if path != "" && path[0] == '/' then path[1..] else path
  {
    if path != "" && path[0] == '/' {
      assert path == "/" + path[1..];
    }
  }

  lemma TrailingSlash(s: string)
    ensures
      var p := "/" + s;
      (if |p| > 1 && HasSuffix(p, "/") then p[..|p| - 1] else p)
      == "/" + if s != "" && s[|s| - 1] == '/' then s[..|s| - 1] else s
  {
    var p := "/" + s;
    if s != "" {
      assert p[|p| - 1..] == [s[|s| - 1]];
      assert p[..|p| - 1] == "/" + s[..|s| - 1];
    }
  }

  /** A path is normalised to its core after one slash. */
  lemma NormalIsCore(path: string)
    ensures NormalizePath(path) == "/" + Core(path)
  {
    hide HasSuffix;
    LeadingSlash(path);
    TrailingSlash(if path != "" && path[0] == '/' then path[1..] else path);
  }

  /** What comes before a final star, with the slash that precedes it. */
  lemma StarEnds(core: string)
    ensures HasSuffix("/" + core, "/*") <==> Pieces(core)[|Pieces(core)| - 1] == "*"
    ensures HasSuffix("/" + core, "/*") ==>
              core == "*" || (|core| >= 2 && core == core[..|core| - 2] + "/" + "*")
  {
    var s := "/" + core;
    if HasSuffix(s, "/*") {
      assert s[|s| - 2..] == "/*";
      if |core| == 1 {
        assert core[0] == s[1] == "/*"[1];
      } else {
        var head := core[..|core| - 2];
        assert core[|core| - 2] == s[|s| - 2] == "/*"[0] && core[|core| - 1] == s[|s| - 1] == "/*"[1];
        assert core == head + "/" + "*";
        PiecesOfBoth(head, "*");
        StarAlone();
      }
    }
    if Pieces(core)[|Pieces(core)| - 1] == "*" {
      LastPiece(core);
    }
  }

  /** A string ends with its last piece, and with a slash before that if there is another. */
  lemma LastPiece(core: string)
    ensures HasSuffix("/" + core, "/" + Pieces(core)[|Pieces(core)| - 1])
  {
    var pieces := Pieces(core);
    var n := |pieces| - 1;
    JoinedPieces(core);
    if n > 0 {
      JoinedBoth(pieces[..n], pieces[n..]);
      assert pieces == pieces[..n] + pieces[n..] && pieces[n..] == [pieces[n]];
      var head := Joined(pieces[..n]);
      assert "/" + core == "/" + head + ("/" + pieces[n]);
    }
  }

  lemma StarAlone()
    ensures Pieces("*") == ["*"]
  {
    assert "*"[0] == '*' && "*"[1..] == "" && Pieces("") == [""];
    assert ['*'] + "" == "*";
  }

  lemma StarPieces(head: string)
    ensures Pieces(head + "/" + "*") == Pieces(head) + ["*"]
  {
    PiecesOfBoth(head, "*");
    StarAlone();
  }

  lemma HeadCovers(head: string, b: string)
    ensures Pieces(head) <= Pieces(b) <==> "/" + head + "/" <= "/" + b || "/" + b == "/" + head
  {
    hide Pieces;
    PrefixOfPieces(head, b);
    SlashPrefix(head + "/", b);
    assert "/" + head + "/" == "/" + (head + "/");
    assert ("/" + b == "/" + head) <==> head == b by { assert ("/" + b)[1..] == b && ("/" + head)[1..] == head; }
  }

  lemma StarCovers(a: string, head: string, b: string)
    requires a == head + "/" + "*"
    ensures
      var prefix, n := ("/" + a)[..|"/" + a| - 2], |Pieces(a)| - 1;
      && (Pieces(a)[..n] <= Pieces(b) <==> prefix + "/" <= "/" + b || "/" + b == prefix)
      && (a == b ==> Pieces(a)[..n] <= Pieces(b))
  {
    StarPieces(head);
    HeadCovers(head, b);
    hide Pieces;
    assert ("/" + a)[..|"/" + a| - 2] == "/" + head;
    assert (Pieces(head) + ["*"])[..|Pieces(head)|] == Pieces(head);
  }

  lemma SlashPrefix(x: string, y: string)
    ensures "/" + x <= "/" + y <==> x <= y
  {
    if "/" + x <= "/" + y {
      assert forall i | 0 <= i < |x| :: x[i] == ("/" + x)[i + 1] && y[i] == ("/" + y)[i + 1];
      assert x == y[..|x|];
    }
  }

  /** A rule on normalised paths, after their leading slash. */
  predicate CoreMatches(a: string, b: string) {
    || "/" + a == "/" + b
    || (HasSuffix("/" + a, "/*") &&
        var prefix := ("/" + a)[..|"/" + a| - 2];
        prefix + "/" <= "/" + b || "/" + b == prefix)
  }

  predicate SegmentsMatch(rule: seq<string>, request: seq<string>)
    requires rule != []
  {
    if rule[|rule| - 1] == "*" then rule[..|rule| - 1] <= request else rule == request
  }

  lemma CoreMatchesIff(a: string, b: string)
    ensures CoreMatches(a, b) <==> SegmentsMatch(Pieces(a), Pieces(b))
  {
    StarEnds(a);
    PiecesAreInjective(a, b);
    SlashedIff(a, b);
    if HasSuffix("/" + a, "/*") {
      if a == "*" {
        StarAlone();
        LoneStarCovers(b);
      } else {
        StarCovers(a, a[..|a| - 2], b);
        hide Pieces, HasSuffix;
      }
    } else {
      hide Pieces, HasSuffix;
    }
  }

  lemma SlashedIff(a: string, b: string)
    ensures "/" + a == "/" + b <==> a == b
  {
    assert ("/" + a)[1..] == a && ("/" + b)[1..] == b;
  }

  lemma LoneStarCovers(b: string)
    ensures CoreMatches("*", b)
  {
    var s := "/" + "*";
    assert s == "/*" && HasSuffix(s, "/*");
    assert s[..|s| - 2] + "/" == "/";
    assert "/" <= "/" + b;
  }

  /**
   * What a rule path covers, read in segments, with one leading and one trailing slash ignored on both sides: a rule
   * whose last segment is a star covers every request that begins with the segments before the star; any other rule
   * covers the requests with the same segments.
   */
  lemma {:induction false} PathMatchesIff(rulePath: string, requestPath: string)
    ensures
      var rule, request := Segments(rulePath), Segments(requestPath);
      var n := |rule| - 1;
      PathMatches(rulePath, requestPath) <==> if rule[n] == "*" then rule[..n] <= request else rule == request
  {
    hide NormalizePath, Pieces, Core, HasSuffix;
    var a, b := Core(rulePath), Core(requestPath);
    NormalIsCore(rulePath);
    NormalIsCore(requestPath);
    CoreMatchesIff(a, b);
    assert "/" + a != "*" by { assert ("/" + a)[0] == '/'; }
  }

  // ----- methods -----

  function Upper(s: string): string {
    seq(|s|, i requires 0 <= i < |s| => if 'a' <= s[i] <= 'z' then (s[i] as int - 32) as char else s[i])
  }

  lemma UpperChar(a: char, b: char)
    ensures Lower(a) == Lower(b) <==> Upper([a]) == Upper([b])
  {
    assert Upper([a])[0] == Upper([b])[0] <==> Upper([a]) == Upper([b]);
  }

  lemma {:induction false} EqualFoldIff(a: string, b: string)
    ensures EqualFold(a, b) <==> Upper(a) == Upper(b)
  {
    if |a| == |b| {
      forall i | 0 <= i < |a|
        ensures Lower(a[i]) == Lower(b[i]) <==> Upper(a)[i] == Upper(b)[i]
      {
        UpperChar(a[i], b[i]);
        assert Upper(a)[i] == Upper([a[i]])[0] && Upper(b)[i] == Upper([b[i]])[0];
      }
      if Upper(a) == Upper(b) {
        assert forall i | 0 <= i < |a| :: Upper(a)[i] == Upper(b)[i];
      }
    } else {
      assert |Upper(a)| == |a| && |Upper(b)| == |b|;
    }
  }

  /**
   * A rule without methods takes every method, and one with methods those that have the upper-case form of an
   * entry.
   */
  lemma {:induction false} MethodMatchesIff(methods: seq<string>, method_: string)
    ensures MethodMatches(methods, method_) <==>
            methods == [] || Upper(method_) in (seq(|methods|, i requires 0 <= i < |methods| => Upper(methods[i])))
  {
    var upper := seq(|methods|, i requires 0 <= i < |methods| => Upper(methods[i]));
    forall i | 0 <= i < |methods|
      ensures EqualFold(methods[i], method_) <==> upper[i] == Upper(method_)
    {
      EqualFoldIff(methods[i], method_);
    }
  }
}
