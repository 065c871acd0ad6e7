/**
 The few functions of Go's `strings` package that the modelled code leans on.
 A string is a sequence of characters; where the Go code works on bytes
 (splitting, searching, prefixes) one character stands for one byte.
 */
module GoStrings {

  predicate HasPrefix(s: string, t: string) {
    t <= s
  }

  predicate HasSuffix(s: string, t: string) {
    |t| <= |s| && s[|s| - |t|..] == t
  }

  predicate OccursAt(s: string, t: string, k: nat) {
    k <= |s| && t <= s[k..]
  }

  /** Position of the first occurrence of `t` in `s`, or -1. */
  function Index(s: string, t: string): (k: int)
    ensures -1 <= k && (0 <= k ==> k + |t| <= |s|)
  {
    if t <= s then 0
    else if s == [] then -1
    else
      var k := Index(s[1..], t);
      if k < 0 then -1 else k + 1
  }

  lemma OccursLater(s: string, t: string, i: nat)
    requires s != []
    ensures OccursAt(s, t, i + 1) <==> OccursAt(s[1..], t, i)
  {
    if i + 1 <= |s| {
      assert s[i + 1..] == s[1..][i..];
    }
  }

  lemma OccursFirst(s: string, t: string)
    ensures OccursAt(s, t, 0) <==> t <= s
  {
    assert s[0..] == s;
  }

  /** `Index` finds an occurrence exactly when there is one, and the first one. */
  lemma {:induction false} IndexIsFirst(s: string, t: string)
    ensures Index(s, t) < 0 ==> forall i: nat :: !OccursAt(s, t, i)
    ensures 0 <= Index(s, t) ==> OccursAt(s, t, Index(s, t))
    ensures 0 <= Index(s, t) ==> forall i: nat :: OccursAt(s, t, i) ==> Index(s, t) <= i
  {
    hide OccursAt;
    OccursFirst(s, t);
    if s == [] {
      forall i: nat ensures OccursAt(s, t, i) <==> i == 0 && t <= s {
        NothingInEmpty(t, i);
      }
    } else if !(t <= s) {
      var k := Index(s[1..], t);
      IndexIsFirst(s[1..], t);
      forall i: nat ensures OccursAt(s, t, i) <==> 0 < i && OccursAt(s[1..], t, i - 1) {
        if 0 < i {
          OccursLater(s, t, i - 1);
        }
      }
    }
  }

  lemma IndexIs(s: string, t: string, k: nat)
    requires OccursAt(s, t, k) && forall i: nat :: i < k ==> !OccursAt(s, t, i)
    ensures Index(s, t) == k
  {
    hide OccursAt, Index;
    IndexIsFirst(s, t);
  }

  lemma CharOccurs(s: string, c: char, i: nat)
    requires i < |s|
    ensures OccursAt(s, [c], i) <==> s[i] == c
  {
    assert s[i..][0] == s[i];
  }

  /** A separator is found behind a text that does not hold it. */
  lemma IndexBehind(a: string, c: char, rest: string)
    requires c !in a
    ensures Index(a + ([c] + rest), [c]) == |a|
  {
    hide OccursAt, Index;
    var s := a + ([c] + rest);
    CharOccurs(s, c, |a|);
    forall i: nat | i < |a| ensures !OccursAt(s, [c], i) {
      CharOccurs(s, c, i);
      assert s[i] == a[i];
    }
    IndexIs(s, [c], |a|);
  }

  /** In front of the first one there is none. */
  lemma NoneBefore(s: string, c: char)
    ensures var k := Index(s, [c]);
            if k < 0 then c !in s else k < |s| && s[k] == c && c !in s[..k]
  {
    hide OccursAt, Index;
    var k := Index(s, [c]);
    IndexIsFirst(s, [c]);
    forall i: nat | i < |s| && (k < 0 || i <= k) ensures s[i] == c <==> i == k {
      CharOccurs(s, c, i);
    }
  }

  lemma NothingInEmpty(t: string, i: nat)
    ensures OccursAt([], t, i) <==> i == 0 && t == []
  {
  }

  /** `strings.Split` for a one-character separator. */
  function Split(s: string, c: char): (parts: seq<string>)
    ensures 1 <= |parts|
    ensures forall i :: 0 <= i < |parts| ==> c !in parts[i]
    ensures Join(parts, c) == s
  {
    if s == [] then
      [[]]
    else
      var rest := Split(s[1..], c);
      if s[0] == c then
        [[]] + rest
      else
        var parts := [[s[0]] + rest[0]] + rest[1..];
        assert parts[1..] == rest[1..];
        parts
  }

  /** `strings.Join` for a one-character separator. */
  function Join(parts: seq<string>, c: char): string {
    if parts == [] then []
    else if |parts| == 1 then parts[0]
    else parts[0] + [c] + Join(parts[1..], c)
  }

  /** Splitting undoes joining when no part holds the separator. */
  lemma {:induction false} SplitOfJoin(parts: seq<string>, c: char)
    requires 1 <= |parts|
    requires forall i :: 0 <= i < |parts| ==> c !in parts[i]
    ensures Split(Join(parts, c), c) == parts
  {
    if |parts| == 1 {
      SplitOfPart(parts[0], c);
    } else {
      SplitOfJoin(parts[1..], c);
      SplitAfterPart(parts[0], Join(parts[1..], c), c);
      assert parts[0] + [c] + Join(parts[1..], c) == parts[0] + ([c] + Join(parts[1..], c));
    }
  }

  lemma {:induction false} SplitOfPart(p: string, c: char)
    requires c !in p
    ensures Split(p, c) == [p]
  {
    if p != [] {
      SplitOfPart(p[1..], c);
    }
  }

  lemma {:induction false} SplitAfterPart(p: string, s: string, c: char)
    requires c !in p
    ensures Split(p + ([c] + s), c) == [p] + Split(s, c)
  {
    hide Join;
    if p == [] {
      assert ([c] + s)[1..] == s;
      assert p + ([c] + s) == [c] + s;
    } else {
      SplitAfterPart(p[1..], s, c);
      assert (p + ([c] + s))[1..] == p[1..] + ([c] + s);
      FirstPart(p, Split(s, c));
    }
  }

  lemma FirstPart(p: string, rest: seq<string>)
    requires p != []
    ensures var parts := [p[1..]] + rest; [[p[0]] + parts[0]] + parts[1..] == [p] + rest
  {
    assert [p[0]] + p[1..] == p;
  }

  /** `unicode.IsSpace`. */
  predicate IsSpace(c: char) {
    || c == ' ' || '\t' <= c <= '\r' || c == '\U{0085}' || c == '\U{00A0}' || c == '\U{1680}'
    || '\U{2000}' <= c <= '\U{200A}' || c == '\U{2028}' || c == '\U{2029}' || c == '\U{202F}'
    || c == '\U{205F}' || c == '\U{3000}'
  }

  predicate Trimmed(s: string) {
    s == [] || (!IsSpace(s[0]) && !IsSpace(s[|s| - 1]))
  }

  function TrimLeft(s: string): (r: string)
    ensures |r| <= |s| && (r == [] || !IsSpace(r[0]))
  {
    if s != [] && IsSpace(s[0]) then TrimLeft(s[1..]) else s
  }

  function TrimRight(s: string): (r: string)
    ensures r <= s && (r == [] || !IsSpace(r[|r| - 1]))
  {
    if s != [] && IsSpace(s[|s| - 1]) then TrimRight(s[..|s| - 1]) else s
  }

  /** `strings.TrimSpace`. */
  function TrimSpace(s: string): string {
    TrimRight(TrimLeft(s))
  }

  lemma TrimSpaceIsTrimmed(s: string)
    ensures Trimmed(TrimSpace(s))
  {
    hide IsSpace;
    var r := TrimSpace(s);
    assert r <= TrimLeft(s);
    assert r != [] ==> r[0] == TrimLeft(s)[0];
  }

  lemma {:induction false} TrimLeftKeeps(s: string)
    ensures forall c :: c in TrimLeft(s) ==> c in s
  {
    hide IsSpace;
    if s != [] && IsSpace(s[0]) {
      TrimLeftKeeps(s[1..]);
    }
  }

  /** Trimming brings in no new character. */
  lemma TrimSpaceKeeps(s: string)
    ensures forall c :: c in TrimSpace(s) ==> c in s
  {
    hide IsSpace, TrimLeft;
    TrimLeftKeeps(s);
    assert forall i :: 0 <= i < |TrimSpace(s)| ==> TrimSpace(s)[i] == TrimLeft(s)[i];
  }

  lemma {:induction false} TrimRightDropsBlank(s: string)
    ensures forall i :: |TrimRight(s)| <= i < |s| ==> IsSpace(s[i])
  {
    hide IsSpace;
    if s != [] && IsSpace(s[|s| - 1]) {
      TrimRightDropsBlank(s[..|s| - 1]);
    }
  }

  predicate Blank(s: string) {
    forall i :: 0 <= i < |s| ==> IsSpace(s[i])
  }

  lemma {:induction false} TrimLeftPadded(a: string, s: string)
    requires Blank(a) && (s == [] || !IsSpace(s[0]))
    ensures TrimLeft(a + s) == s
  {
    hide IsSpace;
    if a == [] {
      assert a + s == s;
    } else {
      var t := a + s;
      assert t[0] == a[0] && IsSpace(a[0]);
      assert t[1..] == a[1..] + s;
      TrimLeftPadded(a[1..], s);
    }
  }

  lemma {:induction false} TrimRightPadded(s: string, b: string)
    requires Blank(b) && (s == [] || !IsSpace(s[|s| - 1]))
    ensures TrimRight(s + b) == s
  {
    hide IsSpace;
    if b == [] {
      assert s + b == s;
    } else {
      var t := s + b;
      assert t[|t| - 1] == b[|b| - 1] && IsSpace(b[|b| - 1]);
      assert t[..|t| - 1] == s + b[..|b| - 1];
      TrimRightPadded(s, b[..|b| - 1]);
    }
  }

  lemma NothingBetweenBlanks(a: string, b: string)
    requires Blank(a) && Blank(b)
    ensures TrimSpace(a + b) == []
  {
    hide IsSpace, TrimLeft;
    TrimLeftPadded(a + b, []);
    assert a + b + [] == a + b;
    assert TrimRight("") == "";
  }

  /** Only the white space around a trimmed text is removed. */
  lemma TrimSpacePadded(a: string, s: string, b: string)
    requires Blank(a) && Trimmed(s) && Blank(b)
    ensures TrimSpace(a + s + b) == s
  {
    hide IsSpace, TrimLeft, TrimRight, Blank;
    if s == [] {
      NothingBetweenBlanks(a, b);
      assert a + s + b == a + b;
    } else {
      TrimLeftPadded(a, s + b);
      TrimRightPadded(s, b);
      assert a + s + b == a + (s + b);
    }
  }

  lemma TrimSpaceTrimmed(s: string)
    requires Trimmed(s)
    ensures TrimSpace(s) == s
  {
    hide IsSpace, TrimSpace, Trimmed;
    assert Blank([]);
    TrimSpacePadded([], s, []);
    assert [] + s + [] == s;
  }
}
