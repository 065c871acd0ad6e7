/**
 URL patterns: the greedy matcher of internal/scripting/glob.go and the older
 unanchored scan `matchURL` of internal/scripting/scripting.go.
 */
module Glob {
  import opened Common
  import opened GoStrings
  import opened PathMatch

  const STAR := '*'

  /** What a pattern means: `*` stands for any substring, the rest for itself. */
  ghost predicate Matches(p: string, s: string)
    decreases p
  {
    if p == [] then s == []
    else if p[0] == STAR then exists k :: 0 <= k <= |s| && Matches(p[1..], s[k..])
    else s != [] && s[0] == p[0] && Matches(p[1..], s[1..])
  }

  // ----- case -----

  /** The signs that part a URL have no case. */
  ghost predicate KeepsSigns(f: char -> char) {
    forall c :: (f(c) == ':' <==> c == ':') && (f(c) == '/' <==> c == '/')
  }

  /** The lower case of a character, as the Unicode tables have it. */
  type CaseMap = f: char -> char | KeepsSigns(f) witness (c: char) => c

  function Lower(f: CaseMap, s: string): (r: string)
    ensures |r| == |s|
  {
    seq(|s|, i requires 0 <= i < |s| => f(s[i]))
  }

  lemma LowerAppend(f: CaseMap, a: string, b: string)
    ensures Lower(f, a + b) == Lower(f, a) + Lower(f, b)
  {
  }

  lemma LowerKeepsSigns(f: CaseMap, s: string)
    ensures ':' in Lower(f, s) <==> ':' in s
    ensures '/' in Lower(f, s) <==> '/' in s
  {
    var r := Lower(f, s);
    assert forall i :: 0 <= i < |s| ==> r[i] == f(s[i]);
    forall c | c == ':' || c == '/' ensures c in r <==> c in s {
      if c in s {
        var i :| 0 <= i < |s| && s[i] == c;
        assert r[i] == c;
      }
    }
  }

  // ----- literals and stars -----

  ghost predicate MatchesAt(q: string, s: string, k: nat) {
    k <= |s| && Matches(q, s[k..])
  }

  /** `q` matches after skipping any number of characters. */
  ghost predicate Floats(q: string, s: string) {
    exists k: nat :: MatchesAt(q, s, k)
  }

  lemma StarFloats(q: string, s: string)
    ensures Matches([STAR] + q, s) <==> Floats(q, s)
  {
    assert ([STAR] + q)[1..] == q;
    if Matches([STAR] + q, s) {
      var k :| 0 <= k <= |s| && Matches(q, s[k..]);
      assert MatchesAt(q, s, k);
    }
  }

  /** A literal in front of a pattern has to be a prefix of the text. */
  lemma {:induction false} LiteralFirst(lit: string, q: string, s: string)
    requires STAR !in lit
    ensures Matches(lit + q, s) <==> lit <= s && Matches(q, s[|lit|..])
  {
    if lit == [] {
      assert lit + q == q && s[0..] == s;
    } else {
      assert (lit + q)[1..] == lit[1..] + q;
      if s != [] {
        LiteralFirst(lit[1..], q, s[1..]);
        assert lit <= s <==> lit[0] == s[0] && lit[1..] <= s[1..] by {
          assert lit == [lit[0]] + lit[1..] && s == [s[0]] + s[1..];
        }
        if lit <= s {
          assert s[1..][|lit| - 1..] == s[|lit|..];
        }
      }
    }
  }

  lemma LiteralOnly(lit: string, s: string)
    requires STAR !in lit
    ensures Matches(lit, s) <==> lit == s
  {
    LiteralFirst(lit, [], s);
    assert lit + [] == lit;
    assert lit <= s && s[|lit|..] == [] ==> s == lit;
  }

  /** Skipping less of the text never loses a match. */
  lemma FloatsEarlier(q: string, s: string, i: nat, j: nat)
    requires i <= j <= |s| && Floats(q, s[j..])
    ensures Floats(q, s[i..])
  {
    var k: nat :| MatchesAt(q, s[j..], k);
    assert s[j..][k..] == s[i..][j - i + k..];
    assert MatchesAt(q, s[i..], j - i + k);
  }

  /** The last literal after a star has to be a suffix. */
  lemma LastLiteral(lit: string, s: string)
    requires STAR !in lit
    ensures Floats(lit, s) <==> HasSuffix(s, lit)
  {
    forall k: nat | k <= |s|
      ensures MatchesAt(lit, s, k) <==> lit == s[k..]
    {
      LiteralOnly(lit, s[k..]);
    }
    if HasSuffix(s, lit) {
      assert MatchesAt(lit, s, |s| - |lit|);
    }
  }

  lemma LiteralThenStar(lit: string, q: string, s: string, k: nat)
    requires STAR !in lit
    ensures MatchesAt(lit + [STAR] + q, s, k) <==> OccursAt(s, lit, k) && Floats(q, s[k + |lit|..])
  {
    if k <= |s| {
      var rest := s[k..];
      assert lit + [STAR] + q == lit + ([STAR] + q);
      LiteralFirst(lit, [STAR] + q, rest);
      if lit <= rest {
        StarFloats(q, rest[|lit|..]);
        assert rest[|lit|..] == s[k + |lit|..];
      }
    }
  }

  /** Taking the first occurrence of a literal between two stars loses nothing. */
  lemma MiddleLiteral(lit: string, q: string, s: string)
    requires STAR !in lit
    ensures Floats(lit + [STAR] + q, s) <==> Index(s, lit) >= 0 && Floats(q, s[Index(s, lit) + |lit|..])
  {
    hide Matches, MatchesAt, Index;
    var first := Index(s, lit);
    IndexIsFirst(s, lit);
    if Floats(lit + [STAR] + q, s) {
      var k: nat :| MatchesAt(lit + [STAR] + q, s, k);
      LiteralThenStar(lit, q, s, k);
      FloatsEarlier(q, s, first + |lit|, k + |lit|);
    }
    if first >= 0 {
      LiteralThenStar(lit, q, s, first);
    }
  }

  lemma FloatsEmpty(s: string)
    ensures Floats([], s)
  {
    assert MatchesAt([], s, |s|);
  }

  lemma JoinFrom(parts: seq<string>, i: nat)
    requires i + 1 < |parts|
    ensures Join(parts[i..], STAR) == parts[i] + [STAR] + Join(parts[i + 1..], STAR)
  {
    assert parts[i..][1..] == parts[i + 1..];
  }

  lemma SplitSingle(s: string, c: char)
    requires |Split(s, c)| == 1
    ensures c !in s
  {
  }

  lemma LastPart(parts: seq<string>)
    requires 1 <= |parts|
    ensures Join(parts[|parts| - 1..], STAR) == parts[|parts| - 1]
  {
  }

  lemma FirstLiteral(parts: seq<string>, s: string)
    requires 2 <= |parts| && STAR !in parts[0]
    ensures Matches(Join(parts, STAR), s) <==>
            HasPrefix(s, parts[0]) && Floats(Join(parts[1..], STAR), s[|parts[0]|..])
  {
    var rest := Join(parts[1..], STAR);
    assert Join(parts, STAR) == parts[0] + ([STAR] + rest);
    LiteralFirst(parts[0], [STAR] + rest, s);
    if HasPrefix(s, parts[0]) {
      StarFloats(rest, s[|parts[0]|..]);
    }
  }

  method WildcardMatch(pattern: string, text: string) returns (r: bool)
    ensures r <==> Matches(pattern, text)
  {
    hide Matches, Floats, Index, Join;
    var parts := Split(pattern, STAR);
    if |parts| == 1 {
      assert parts == [parts[0]];
      SplitSingle(pattern, STAR);
      LiteralOnly(pattern, text);
      return pattern == text;
    }
    var s := text;
    FirstLiteral(parts, s);
    if !HasPrefix(s, parts[0]) {
      return false;
    }
    s := s[|parts[0]|..];
    for i := 1 to |parts| - 1
      invariant Matches(pattern, text) <==> Floats(Join(parts[i..], STAR), s)
    {
      JoinFrom(parts, i);
      MiddleLiteral(parts[i], Join(parts[i + 1..], STAR), s);
      var idx := Index(s, parts[i]);
      if idx < 0 {
        return false;
      }
      s := s[idx + |parts[i]|..];
    }
    LastPart(parts);
    LastLiteral(parts[|parts| - 1], s);
    return HasSuffix(s, parts[|parts| - 1]);
  }

  /** A pattern `p` that may start and end anywhere, as a pattern. */
  function Unanchored(p: string): string {
    [STAR] + p + [STAR]
  }

  lemma {:induction false} JoinThenStar(parts: seq<string>)
    requires 1 <= |parts|
    ensures Join(parts, STAR) + [STAR] == Join(parts + [[]], STAR)
  {
    assert (parts + [[]])[1..] == parts[1..] + [[]];
    if |parts| == 1 {
      assert parts + [[]] == [parts[0], []];
      assert Join([[]], STAR) == [];
    } else {
      JoinThenStar(parts[1..]);
    }
  }

  /** The part of the scan that is still to do after `i` literals. */
  ghost predicate Remaining(parts: seq<string>, i: nat, s: string)
    requires i <= |parts|
  {
    Floats(Join((parts + [[]])[i..], STAR), s)
  }

  lemma RemainingStep(parts: seq<string>, i: nat, s: string)
    requires i < |parts| && STAR !in parts[i]
    ensures Remaining(parts, i, s) <==>
            Index(s, parts[i]) >= 0 && Remaining(parts, i + 1, s[Index(s, parts[i]) + |parts[i]|..])
  {
    hide Floats, Index;
    var all := parts + [[]];
    var q := Join(all[i + 1..], STAR);
    assert Join(all[i..], STAR) == parts[i] + [STAR] + q by {
      JoinFrom(all, i);
    }
    MiddleLiteral(parts[i], q, s);
  }

  lemma RemainingDone(parts: seq<string>, s: string)
    ensures Remaining(parts, |parts|, s)
  {
    assert (parts + [[]])[|parts|..] == [[]];
    FloatsEmpty(s);
  }

  lemma RemainingAll(pattern: string, s: string)
    ensures Matches(Unanchored(pattern), s) <==> Remaining(Split(pattern, STAR), 0, s)
  {
    var parts := Split(pattern, STAR);
    JoinThenStar(parts);
    assert Unanchored(pattern) == [STAR] + (pattern + [STAR]);
    assert (parts + [[]])[0..] == parts + [[]];
    StarFloats(pattern + [STAR], s);
  }

  lemma IndexOfEmpty(s: string)
    ensures Index(s, "") == 0
  {
  }

  lemma UnanchoredLiteral(lit: string, s: string)
    requires STAR !in lit
    ensures Matches(Unanchored(lit), s) <==> Index(s, lit) >= 0
  {
    SplitOfPart(lit, STAR);
    RemainingAll(lit, s);
    RemainingStep([lit], 0, s);
    if Index(s, lit) >= 0 {
      RemainingDone([lit], s[Index(s, lit) + |lit|..]);
    }
  }

  method MatchURL(rawPattern: string, rawHostPath: string, lower: CaseMap) returns (r: bool)
    ensures r <==> Matches(Unanchored(Lower(lower, rawPattern)), Lower(lower, rawHostPath))
  {
    hide Matches, Remaining, Unanchored, Index, Lower;
    var pattern, hostPath := Lower(lower, rawPattern), Lower(lower, rawHostPath);
    if STAR !in pattern {
      UnanchoredLiteral(pattern, hostPath);
      return Index(hostPath, pattern) >= 0;
    }

    ghost var matches := Matches(Unanchored(pattern), hostPath);
    var parts := Split(pattern, STAR);
    RemainingAll(pattern, hostPath);
    var pos := 0;
    assert hostPath[0..] == hostPath;
    for i := 0 to |parts|
      invariant 0 <= pos <= |hostPath|
      invariant matches <==> Remaining(parts, i, hostPath[pos..])
    {
      var rest := hostPath[pos..];
      RemainingStep(parts, i, rest);
      if parts[i] == "" {
        IndexOfEmpty(rest);
        assert rest[0..] == rest;
        continue;
      }
      var idx := Index(rest, parts[i]);
      if idx < 0 {
        return false;
      }
      assert rest[idx + |parts[i]|..] == hostPath[pos + idx + |parts[i]|..];
      pos := pos + idx + |parts[i]|;
    }
    RemainingDone(parts, hostPath[pos..]);
    return true;
  }

  // ----- whole URLs -----

  function SplitScheme(s: string): (string, string) {
    var k := Index(s, "://");
    if k < 0 then ("", s) else (s[..k], s[k + 3..])
  }

  function SplitHostPath(s: string): (string, string) {
    var k := Index(s, "/");
    if k < 0 then (s, "") else (s[..k], "/" + s[k + 1..])
  }

  /** Scheme and rest are the texts around the first "://"; without one there is no scheme. */
  lemma SchemeAndRest(s: string)
    ensures var (scheme, rest) := SplitScheme(s);
            || (s == scheme + "://" + rest && forall i: nat :: OccursAt(s, "://", i) ==> |scheme| <= i)
            || (scheme == "" && rest == s && forall i: nat :: !OccursAt(s, "://", i))
  {
    hide Index;
    var k := Index(s, "://");
    IndexIsFirst(s, "://");
    if 0 <= k {
      CutAround(s, "://", k);
    }
  }

  lemma CutAround(s: string, t: string, k: nat)
    requires k + |t| <= |s| && OccursAt(s, t, k)
    ensures s == s[..k] + t + s[k + |t|..]
  {
    assert s == s[..k] + s[k..];
    assert s[k..] == t + s[k..][|t|..];
    assert s[k..][|t|..] == s[k + |t|..];
  }

  /** Host and path make up the text; the host has no slash, the path none or starts with one. */
  lemma HostAndPath(s: string)
    ensures var (host, path) := SplitHostPath(s);
            host + path == s && '/' !in host && (path == "" || path[0] == '/')
  {
    hide Index;
    var k := Index(s, "/");
    NoneBefore(s, '/');
    if 0 <= k {
      CharOccurs(s, '/', k);
      CutAround(s, "/", k);
    }
  }

  /** A URL in three parts that the two splitters can tell apart. */
  datatype Url = Url(scheme: string, host: string, path: string)
  {
    predicate Valid() {
      ':' !in scheme && '/' !in host && (path == "" || path[0] == '/')
    }

    function Text(): string {
      scheme + "://" + host + path
    }
  }

  function Parts(s: string): Url {
    var (scheme, rest) := SplitScheme(s);
    var (host, path) := SplitHostPath(rest);
    Url(scheme, host, path)
  }

  lemma AbsentNowhere(a: string, t: string, s: string, i: nat)
    requires t != "" && t[0] !in a && i < |a|
    ensures !OccursAt(a + (t + s), t, i) && !OccursAt(a, t, i)
  {
    assert (a + (t + s))[i..][0] == a[i] && a[i..][0] == a[i];
  }

  lemma IndexOfAbsent(a: string, t: string, s: string)
    requires t != "" && t[0] !in a
    ensures Index(a + (t + s), t) == |a|
    ensures Index(a, t) == -1
  {
    hide Index;
    var whole := a + (t + s);
    assert whole[|a|..] == t + s;
    assert OccursAt(whole, t, |a|);
    forall i: nat ensures i < |a| ==> !OccursAt(whole, t, i) && !OccursAt(a, t, i) {
      if i < |a| {
        AbsentNowhere(a, t, s, i);
      }
    }
    IndexIs(whole, t, |a|);
    IndexIsFirst(a, t);
  }

  lemma SplitSchemeOfText(scheme: string, rest: string)
    requires ':' !in scheme
    ensures SplitScheme(scheme + "://" + rest) == (scheme, rest)
  {
    var s := scheme + "://" + rest;
    assert s == scheme + ("://" + rest);
    IndexOfAbsent(scheme, "://", rest);
    assert s[..|scheme|] == scheme && s[|scheme| + 3..] == rest;
  }

  lemma SplitHostPathOfText(host: string, path: string)
    requires '/' !in host && (path == "" || path[0] == '/')
    ensures SplitHostPath(host + path) == (host, path)
  {
    var s := host + path;
    if path == "" {
      IndexOfAbsent(host, "/", "");
      assert s == host;
    } else {
      assert s == host + ("/" + path[1..]);
      IndexOfAbsent(host, "/", path[1..]);
      assert s[..|host|] == host && s[|host| + 1..] == path[1..];
    }
  }

  /** Splitting a URL gives back the parts it was put together from. */
  lemma PartsOfText(u: Url)
    requires u.Valid()
    ensures Parts(u.Text()) == u
  {
    assert u.Text() == u.scheme + "://" + (u.host + u.path);
    SplitSchemeOfText(u.scheme, u.host + u.path);
    SplitHostPathOfText(u.host, u.path);
  }

  /** The parts of a URL in lower case. */
  function Lowered(f: CaseMap, u: Url): Url {
    Url(Lower(f, u.scheme), Lower(f, u.host), Lower(f, u.path))
  }

  lemma PartsOfLowered(f: CaseMap, u: Url)
    requires u.Valid()
    ensures Lowered(f, u).Valid() && Parts(Lower(f, u.Text())) == Lowered(f, u)
  {
    LowerKeepsSigns(f, u.scheme);
    LowerKeepsSigns(f, u.host);
    PartsOfText(Lowered(f, u));
    var colon := "://";
    assert forall i :: 0 <= i < 3 ==> f(colon[i]) == colon[i];
    assert Lower(f, colon) == colon;
    LowerAppend(f, u.scheme + "://" + u.host, u.path);
    LowerAppend(f, u.scheme + "://", u.host);
    LowerAppend(f, u.scheme, "://");
  }

  // ----- hosts -----

  /** No sign but the star. */
  predicate StarOnly(p: string) {
    '?' !in p && '[' !in p && '\\' !in p
  }

  /** On such patterns and texts without a slash, the library's match is that of this file. */
  lemma {:induction false} StarOnlyHost(p: string, s: string)
    requires StarOnly(p) && '/' !in s
    ensures PathMatches(p, s) <==> Matches(p, s)
  {
    TermsOfStarOnly(p);
    if p != [] {
      var ts := Terms(p).value;
      assert ts[1..] == Terms(p[1..]).value;
      if p[0] == STAR {
        forall k | 0 <= k <= |s| ensures TermsMatch(ts[1..], s[k..]) <==> Matches(p[1..], s[k..]) {
          StarOnlyHost(p[1..], s[k..]);
        }
      } else if s != [] {
        StarOnlyHost(p[1..], s[1..]);
      }
    }
  }

  lemma {:induction false} TermsOfStarOnly(p: string)
    requires StarOnly(p)
    ensures Terms(p).Some?
    ensures p != [] ==>
              && StarOnly(p[1..]) && Terms(p[1..]).Some?
              && Terms(p).value == [if p[0] == STAR then Star else Literal(p[0])] + Terms(p[1..]).value
  {
    if p != [] {
      TermsOfStarOnly(p[1..]);
    }
  }

  /** Like `Matches`, where what a star stands for stays inside one label. */
  ghost predicate LabelsMatch(p: string, s: string)
    decreases p
  {
    if p == [] then s == []
    else if p[0] == STAR then exists k :: 0 <= k <= |s| && '.' !in s[..k] && LabelsMatch(p[1..], s[k..])
    else s != [] && s[0] == p[0] && LabelsMatch(p[1..], s[1..])
  }

  function Dots(s: string): nat {
    if s == [] then 0 else (if s[0] == '.' then 1 else 0) + Dots(s[1..])
  }

  lemma {:induction false} DotsAround(s: string, k: nat)
    requires k <= |s|
    ensures Dots(s) == Dots(s[..k]) + Dots(s[k..])
    ensures Dots(s[..k]) == 0 <==> '.' !in s[..k]
  {
    if k == 0 {
      assert s[0..] == s;
    } else {
      DotsAround(s[1..], k - 1);
      assert s[..k][1..] == s[1..][..k - 1] && s[k..] == s[1..][k - 1..];
      assert s[..k] == [s[0]] + s[1..][..k - 1];
    }
  }

  lemma {:induction false} MatchHasDots(p: string, s: string)
    requires Matches(p, s)
    ensures Dots(p) <= Dots(s)
  {
    if p != [] {
      if p[0] == STAR {
        var k :| 0 <= k <= |s| && Matches(p[1..], s[k..]);
        MatchHasDots(p[1..], s[k..]);
        DotsAround(s, k);
      } else {
        MatchHasDots(p[1..], s[1..]);
      }
    }
  }

  /** The stars of a match stay inside one label each exactly when the host has no more dots than the pattern. */
  lemma {:induction false} StarStaysInLabel(p: string, s: string)
    ensures LabelsMatch(p, s) <==> Matches(p, s) && Dots(p) == Dots(s)
  {
    if p != [] {
      if p[0] == STAR {
        if k :| 0 <= k <= |s| && '.' !in s[..k] && LabelsMatch(p[1..], s[k..]) {
          StarStaysInLabel(p[1..], s[k..]);
          DotsAround(s, k);
        }
        if Matches(p, s) && Dots(p) == Dots(s) {
          var k :| 0 <= k <= |s| && Matches(p[1..], s[k..]);
          MatchHasDots(p[1..], s[k..]);
          DotsAround(s, k);
          StarStaysInLabel(p[1..], s[k..]);
        }
      } else if s != [] {
        StarStaysInLabel(p[1..], s[1..]);
      }
    }
  }

  // ----- the whole match -----

  predicate SchemeMatches(p: Url, u: Url) {
    p.scheme == "*" || p.scheme == u.scheme
  }

  ghost predicate UrlMatches(p: Url, u: Url) {
    SchemeMatches(p, u) && PathMatches(p.host, u.host) && Matches(p.path, u.path)
  }

  /** What the comment of `GlobMatch` promises: a star of the host stays inside one label. */
  ghost predicate UrlLabelsMatch(p: Url, u: Url) {
    SchemeMatches(p, u) && LabelsMatch(p.host, u.host) && Matches(p.path, u.path)
  }

  method GlobMatch(rawPattern: string, rawUrl: string, lower: CaseMap) returns (r: bool)
    ensures r <==> UrlMatches(Parts(Lower(lower, rawPattern)), Parts(Lower(lower, rawUrl)))
    ensures forall p: Url, u: Url :: p.Valid() && u.Valid() && rawPattern == p.Text() && rawUrl == u.Text() ==>
              (r <==> UrlMatches(Lowered(lower, p), Lowered(lower, u)))
  {
    forall u: Url | u.Valid() ensures Parts(Lower(lower, u.Text())) == Lowered(lower, u) {
      PartsOfLowered(lower, u);
    }
    hide Lower, Index, Lowered, Url.Text, Matches, PathMatches;
    var pattern, url := Lower(lower, rawPattern), Lower(lower, rawUrl);
    var (pScheme, pRest) := SplitScheme(pattern);
    var (uScheme, uRest) := SplitScheme(url);
    if pScheme != "*" && pScheme != uScheme {
      return false;
    }
    var (pHost, pPath) := SplitHostPath(pRest);
    var (uHost, uPath) := SplitHostPath(uRest);
    if !PathMatches(pHost, uHost) {
      return false;
    }
    r := WildcardMatch(pPath, uPath);
  }

  /** With only stars in the host pattern, the promise is kept exactly when the dots are as many. */
  lemma PromisedMatchIff(p: Url, u: Url)
    requires u.Valid() && StarOnly(p.host)
    ensures UrlLabelsMatch(p, u) <==> UrlMatches(p, u) && Dots(p.host) == Dots(u.host)
  {
    hide Matches, PathMatches, LabelsMatch;
    StarOnlyHost(p.host, u.host);
    StarStaysInLabel(p.host, u.host);
  }

  /** A star in front also matches several labels, so a host may be any number of levels deeper. */
  lemma StarCrossesDots(p: Url, u: Url, q: string, labels: string)
    requires p.Valid() && u.Valid() && StarOnly(q) && p.host == [STAR] + q
    requires UrlLabelsMatch(p.(host := q), u) && '.' in labels && '/' !in labels
    ensures var deeper := u.(host := labels + u.host);
            deeper.Valid() && UrlMatches(p, deeper) && !UrlLabelsMatch(p, deeper)
  {
    var s := u.host;
    StarStaysInLabel(q, s);
    StarStaysInLabel(p.host, labels + s);
    DotsAround(labels + s, |labels|);
    assert (labels + s)[..|labels|] == labels && (labels + s)[|labels|..] == s;
    assert p.host[1..] == q;
    StarOnlyHost(p.host, labels + s);
  }
}
