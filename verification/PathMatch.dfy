/**
 `path.Match` of Go's library, by the pattern grammar of its documentation:
 stars, question marks, character classes, escapes and literal characters. A
 malformed pattern matches nothing.
 */
module PathMatch {
  import opened Common

  datatype Range = Range(lo: char, hi: char)

  datatype Term =
    | Star
    | AnyChar
    | Literal(c: char)
    | Class(negated: bool, ranges: seq<Range>)

  /** Something read off the front of a pattern, and what is left. */
  datatype Taken<+T> = Taken(value: T, rest: string)

  // ----- reading a pattern -----

  /** One end of a range, escaped or not. */
  function TakeChar(p: string): (r: Option<Taken<char>>)
    ensures r.Some? ==> |r.value.rest| < |p|
  {
    if p == "" || p[0] == '-' || p[0] == ']' then None
    else if p[0] != '\\' then Some(Taken(p[0], p[1..]))
    else if |p| == 1 then None
    else Some(Taken(p[1], p[2..]))
  }

  function TakeRange(p: string): (r: Option<Taken<Range>>)
    ensures r.Some? ==> |r.value.rest| < |p|
  {
    match TakeChar(p)
    case None => None
    case Some(Taken(lo, rest)) =>
      if rest == "" || rest[0] != '-' then Some(Taken(Range(lo, lo), rest))
      else
        match TakeChar(rest[1..])
        case None => None
        case Some(Taken(hi, more)) => Some(Taken(Range(lo, hi), more))
  }

  /** The ranges of a class, at least one, up to its closing bracket. */
  function TakeRanges(p: string): (r: Option<Taken<seq<Range>>>)
    ensures r.Some? ==> |r.value.rest| < |p|
    decreases |p|
  {
    match TakeRange(p)
    case None => None
    case Some(Taken(range, rest)) =>
      if rest != "" && rest[0] == ']' then Some(Taken([range], rest[1..]))
      else
        match TakeRanges(rest)
        case None => None
        case Some(Taken(ranges, more)) => Some(Taken([range] + ranges, more))
  }

  function TakeClass(p: string): (r: Option<Taken<Term>>)
    ensures r.Some? ==> |r.value.rest| < |p|
  {
    var negated := p != "" && p[0] == '^';
    match TakeRanges(if negated then p[1..] else p)
    case None => None
    case Some(Taken(ranges, rest)) => Some(Taken(Class(negated, ranges), rest))
  }

  function TakeTerm(p: string): (r: Option<Taken<Term>>)
    requires p != ""
    ensures r.Some? ==> |r.value.rest| < |p|
  {
    if p[0] == '*' then Some(Taken(Star, p[1..]))
    else if p[0] == '?' then Some(Taken(AnyChar, p[1..]))
    else if p[0] == '[' then TakeClass(p[1..])
    else if p[0] != '\\' then Some(Taken(Literal(p[0]), p[1..]))
    else if |p| == 1 then None
    else Some(Taken(Literal(p[1]), p[2..]))
  }

  /** The terms of a pattern, or `None` when it is malformed. */
  function Terms(p: string): Option<seq<Term>>
    decreases |p|
  {
    if p == "" then Some([])
    else
      match TakeTerm(p)
      case None => None
      case Some(Taken(t, rest)) =>
        match Terms(rest)
        case None => None
        case Some(ts) => Some([t] + ts)
  }

  // ----- matching -----

  predicate InRanges(c: char, ranges: seq<Range>) {
    exists i :: 0 <= i < |ranges| && ranges[i].lo <= c <= ranges[i].hi
  }

  /** A term other than a star stands for one character. */
  predicate IsOne(t: Term, c: char) {
    match t
    case Star => false
    case AnyChar => c != '/'
    case Literal(d) => c == d
    case Class(negated, ranges) => InRanges(c, ranges) != negated
  }

  predicate TermsMatch(ts: seq<Term>, s: string) {
    if ts == [] then s == ""
    else if ts[0].Star? then exists k :: 0 <= k <= |s| && '/' !in s[..k] && TermsMatch(ts[1..], s[k..])
    else s != "" && IsOne(ts[0], s[0]) && TermsMatch(ts[1..], s[1..])
  }

  predicate PathMatches(p: string, s: string) {
    match Terms(p)
    case None => false
    case Some(ts) => TermsMatch(ts, s)
  }
}
