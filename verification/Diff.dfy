/**
 Line diff of two bodies: internal/diff/diff.go.
 */
module Diff {
  import opened Common
  import opened GoStrings

  datatype Kind = Ctx | Add | Del

  datatype DiffLine = DiffLine(kind: Kind, content: string)

  // ----- what a diff means -----

  /** The text a diff starts from: its unchanged and deleted lines. */
  function Before(d: seq<DiffLine>): seq<string> {
    if d == [] then []
    else (if d[0].kind != Add then [d[0].content] else []) + Before(d[1..])
  }

  /** The text a diff leads to: its unchanged and added lines. */
  function After(d: seq<DiffLine>): seq<string> {
    if d == [] then []
    else (if d[0].kind != Del then [d[0].content] else []) + After(d[1..])
  }

  /** The lines a diff keeps. */
  function Kept(d: seq<DiffLine>): seq<string> {
    if d == [] then []
    else (if d[0].kind == Ctx then [d[0].content] else []) + Kept(d[1..])
  }

  /** Number of added and deleted lines. */
  function Cost(d: seq<DiffLine>): nat {
    if d == [] then 0
    else (if d[0].kind == Ctx then 0 else 1) + Cost(d[1..])
  }

  predicate Changes(d: seq<DiffLine>) {
    exists i :: 0 <= i < |d| && d[i].kind != Ctx
  }

  ghost predicate IsDiff(d: seq<DiffLine>, a: seq<string>, b: seq<string>) {
    Before(d) == a && After(d) == b
  }

  ghost predicate IsMinimalDiff(d: seq<DiffLine>, a: seq<string>, b: seq<string>) {
    IsDiff(d, a, b) && forall e :: IsDiff(e, a, b) ==> Cost(d) <= Cost(e)
  }

  // ----- common subsequences -----

  /** `c` can be obtained from `a` by leaving out lines. */
  ghost predicate Subsequence(c: seq<string>, a: seq<string>) {
    || c == []
    || (a != [] && c[0] == a[0] && Subsequence(c[1..], a[1..]))
    || (a != [] && Subsequence(c, a[1..]))
  }

  /** The recurrence behind the table. */
  function Lcs(a: seq<string>, b: seq<string>): nat {
    if a == [] || b == [] then 0
    else if a[0] == b[0] then Lcs(a[1..], b[1..]) + 1
    else Max(Lcs(a[1..], b), Lcs(a, b[1..]))
  }

  lemma {:induction false} SubsequenceTail(c: seq<string>, a: seq<string>)
    requires Subsequence(c, a) && c != []
    ensures a != [] && Subsequence(c[1..], a[1..])
    decreases a
  {
    if !(c[0] == a[0] && Subsequence(c[1..], a[1..])) {
      SubsequenceTail(c, a[1..]);
      SubsequenceLonger(c[1..], a[1..]);
    }
  }

  lemma SubsequenceLonger(c: seq<string>, a: seq<string>)
    requires a != [] && Subsequence(c, a[1..])
    ensures Subsequence(c, a)
  {
  }

  /** No common subsequence is longer than the recurrence says. */
  lemma {:induction false} LcsIsUpperBound(c: seq<string>, a: seq<string>, b: seq<string>)
    requires Subsequence(c, a) && Subsequence(c, b)
    ensures |c| <= Lcs(a, b)
    decreases |a| + |b|
  {
    if c != [] {
      if a[0] == b[0] {
        SubsequenceTail(c, a);
        SubsequenceTail(c, b);
        LcsIsUpperBound(c[1..], a[1..], b[1..]);
      } else if c[0] != a[0] {
        LcsIsUpperBound(c, a[1..], b);
      } else {
        LcsIsUpperBound(c, a, b[1..]);
      }
    }
  }

  // ----- the walk over the table -----

  /** The lines the walk emits for two suffixes, read off the recurrence. */
  function Walk(a: seq<string>, b: seq<string>): seq<DiffLine>
    decreases |a| + |b|
  {
    if a == [] && b == [] then []
    else if a != [] && b != [] && a[0] == b[0] then
      [DiffLine(Ctx, a[0])] + Walk(a[1..], b[1..])
    else if b != [] && (a == [] || Lcs(a, b[1..]) >= Lcs(a[1..], b)) then
      [DiffLine(Add, b[0])] + Walk(a, b[1..])
    else
      [DiffLine(Del, a[0])] + Walk(a[1..], b)
  }

  /** One step of the walk, on suffixes given by their positions, behind what is `done`. */
  lemma WalkStep(a: seq<string>, b: seq<string>, i: nat, j: nat, rest: seq<DiffLine>, done: seq<DiffLine>)
    requires i <= |a| && j <= |b| && (i < |a| || j < |b|)
    ensures i < |a| && j < |b| && a[i] == b[j] && rest == Walk(a[i + 1..], b[j + 1..]) ==>
              done + Walk(a[i..], b[j..]) == done + [DiffLine(Ctx, a[i])] + rest
    ensures !(i < |a| && j < |b| && a[i] == b[j]) && j < |b| && rest == Walk(a[i..], b[j + 1..])
            && (i >= |a| || Lcs(a[i..], b[j + 1..]) >= Lcs(a[i + 1..], b[j..])) ==>
              done + Walk(a[i..], b[j..]) == done + [DiffLine(Add, b[j])] + rest
    ensures !(i < |a| && j < |b| && a[i] == b[j]) && i < |a| && rest == Walk(a[i + 1..], b[j..])
            && (j >= |b| || Lcs(a[i..], b[j + 1..]) < Lcs(a[i + 1..], b[j..])) ==>
              done + Walk(a[i..], b[j..]) == done + [DiffLine(Del, a[i])] + rest
  {
    assert i < |a| ==> a[i..][1..] == a[i + 1..];
    assert j < |b| ==> b[j..][1..] == b[j + 1..];
  }

  lemma {:induction false} WalkRebuilds(a: seq<string>, b: seq<string>)
    ensures IsDiff(Walk(a, b), a, b)
    ensures |Kept(Walk(a, b))| == Lcs(a, b)
    decreases |a| + |b|
  {
    hide Walk, Lcs, IsDiff, Kept;
    if a == [] && b == [] {
      NothingRebuilds();
    } else if a != [] && b != [] && a[0] == b[0] {
      WalkRebuilds(a[1..], b[1..]);
      CtxRebuilds(a, b);
    } else if b != [] && (a == [] || Lcs(a, b[1..]) >= Lcs(a[1..], b)) {
      WalkRebuilds(a, b[1..]);
      AddRebuilds(a, b);
    } else {
      WalkRebuilds(a[1..], b);
      DelRebuilds(a, b);
    }
  }

  lemma NothingRebuilds()
    ensures IsDiff(Walk([], []), [], []) && |Kept(Walk([], []))| == Lcs([], [])
  {
  }

  lemma CtxRebuilds(a: seq<string>, b: seq<string>)
    requires a != [] && b != [] && a[0] == b[0]
    requires var w := Walk(a[1..], b[1..]); IsDiff(w, a[1..], b[1..]) && |Kept(w)| == Lcs(a[1..], b[1..])
    ensures IsDiff(Walk(a, b), a, b) && |Kept(Walk(a, b))| == Lcs(a, b)
  {
    hide Walk, Lcs, Before, After, Kept;
    CtxStep(a, b);
    OneLineMore(DiffLine(Ctx, a[0]), Walk(a[1..], b[1..]));
  }

  lemma AddRebuilds(a: seq<string>, b: seq<string>)
    requires b != [] && !(a != [] && a[0] == b[0]) && (a == [] || Lcs(a, b[1..]) >= Lcs(a[1..], b))
    requires var w := Walk(a, b[1..]); IsDiff(w, a, b[1..]) && |Kept(w)| == Lcs(a, b[1..])
    ensures IsDiff(Walk(a, b), a, b) && |Kept(Walk(a, b))| == Lcs(a, b)
  {
    hide Walk, Lcs, Before, After, Kept;
    AddStep(a, b);
    OneLineMore(DiffLine(Add, b[0]), Walk(a, b[1..]));
  }

  lemma DelRebuilds(a: seq<string>, b: seq<string>)
    requires a != [] && !(b != [] && a[0] == b[0]) && !(b != [] && Lcs(a, b[1..]) >= Lcs(a[1..], b))
    requires var w := Walk(a[1..], b); IsDiff(w, a[1..], b) && |Kept(w)| == Lcs(a[1..], b)
    ensures IsDiff(Walk(a, b), a, b) && |Kept(Walk(a, b))| == Lcs(a, b)
  {
    hide Walk, Lcs, Before, After, Kept;
    DelStep(a, b);
    OneLineMore(DiffLine(Del, a[0]), Walk(a[1..], b));
  }

  lemma CtxStep(a: seq<string>, b: seq<string>)
    requires a != [] && b != [] && a[0] == b[0]
    ensures Walk(a, b) == [DiffLine(Ctx, a[0])] + Walk(a[1..], b[1..]) && Lcs(a, b) == Lcs(a[1..], b[1..]) + 1
  {
  }

  lemma AddStep(a: seq<string>, b: seq<string>)
    requires b != [] && !(a != [] && a[0] == b[0]) && (a == [] || Lcs(a, b[1..]) >= Lcs(a[1..], b))
    ensures Walk(a, b) == [DiffLine(Add, b[0])] + Walk(a, b[1..]) && Lcs(a, b) == Lcs(a, b[1..])
  {
  }

  lemma DelStep(a: seq<string>, b: seq<string>)
    requires a != [] && !(b != [] && a[0] == b[0]) && !(b != [] && Lcs(a, b[1..]) >= Lcs(a[1..], b))
    ensures Walk(a, b) == [DiffLine(Del, a[0])] + Walk(a[1..], b) && Lcs(a, b) == Lcs(a[1..], b)
  {
  }

  lemma OneLineMore(line: DiffLine, d: seq<DiffLine>)
    ensures Before([line] + d) == if line.kind == Add then Before(d) else [line.content] + Before(d)
    ensures After([line] + d) == if line.kind == Del then After(d) else [line.content] + After(d)
    ensures Kept([line] + d) == if line.kind == Ctx then [line.content] + Kept(d) else Kept(d)
  {
    assert ([line] + d)[1..] == d;
  }

  /** What any diff keeps is common to both sides, and the rest is its cost. */
  lemma {:induction false} DiffKeepsCommonLines(d: seq<DiffLine>)
    ensures Subsequence(Kept(d), Before(d)) && Subsequence(Kept(d), After(d))
    ensures Cost(d) + 2 * |Kept(d)| == |Before(d)| + |After(d)|
  {
    if d != [] {
      hide Before, After, Kept, Subsequence;
      var rest := d[1..];
      DiffKeepsCommonLines(rest);
      assert d == [d[0]] + rest;
      OneLineMore(d[0], rest);
      SubsequenceMore(Kept(rest), Before(rest), d[0].content);
      SubsequenceMore(Kept(rest), After(rest), d[0].content);
      CostMore(d[0], rest);
    }
  }

  lemma CostMore(line: DiffLine, d: seq<DiffLine>)
    ensures Cost([line] + d) == Cost(d) + if line.kind == Ctx then 0 else 1
  {
    assert ([line] + d)[1..] == d;
  }

  /** A line in front of the longer sequence may be taken or left out. */
  lemma SubsequenceMore(c: seq<string>, a: seq<string>, line: string)
    requires Subsequence(c, a)
    ensures Subsequence(c, [line] + a) && Subsequence([line] + c, [line] + a)
  {
    assert ([line] + a)[1..] == a && ([line] + c)[1..] == c;
  }

  /** `Lcs` is the length of a longest common subsequence. */
  lemma LcsIsLongest(a: seq<string>, b: seq<string>)
    ensures exists c :: Subsequence(c, a) && Subsequence(c, b) && |c| == Lcs(a, b)
    ensures forall c :: Subsequence(c, a) && Subsequence(c, b) ==> |c| <= Lcs(a, b)
  {
    WalkRebuilds(a, b);
    DiffKeepsCommonLines(Walk(a, b));
    forall c | Subsequence(c, a) && Subsequence(c, b)
      ensures |c| <= Lcs(a, b)
    {
      LcsIsUpperBound(c, a, b);
    }
  }

  lemma WalkIsMinimal(a: seq<string>, b: seq<string>)
    ensures IsMinimalDiff(Walk(a, b), a, b)
    ensures Cost(Walk(a, b)) == |a| + |b| - 2 * Lcs(a, b)
  {
    WalkRebuilds(a, b);
    DiffKeepsCommonLines(Walk(a, b));
    forall e | IsDiff(e, a, b)
      ensures Cost(Walk(a, b)) <= Cost(e)
    {
      DiffKeepsCommonLines(e);
      LcsIsUpperBound(Kept(e), a, b);
    }
  }

  /** A diff without added or deleted lines has equal sides. */
  lemma {:induction false} NoChangeMeansEqual(d: seq<DiffLine>)
    requires !Changes(d)
    ensures Before(d) == After(d)
  {
    if d != [] {
      assert d[0].kind == Ctx;
      assert !Changes(d[1..]) by {
        forall i | 0 <= i < |d[1..]| ensures d[1..][i].kind == Ctx { assert d[1..][i] == d[i + 1]; }
      }
      NoChangeMeansEqual(d[1..]);
    }
  }

  /** Two bodies with the same lines are the same body. */
  lemma SameLinesSameBody(s1: string, s2: string)
    requires Split(s1, '\n') == Split(s2, '\n')
    ensures s1 == s2
  {
    assert s1 == Join(Split(s1, '\n'), '\n');
  }

  function Lines(k: Kind, ls: seq<string>): (r: seq<DiffLine>)
    ensures |r| == |ls|
  {
    seq(|ls|, i requires 0 <= i < |ls| => DiffLine(k, ls[i]))
  }

  lemma LineInFront(l: DiffLine, d: seq<DiffLine>)
    ensures Before([l] + d) == (if l.kind == Add then [] else [l.content]) + Before(d)
    ensures After([l] + d) == (if l.kind == Del then [] else [l.content]) + After(d)
  {
    assert ([l] + d)[1..] == d;
  }

  lemma FirstLine(k: Kind, ls: seq<string>, d: seq<DiffLine>)
    requires ls != []
    ensures Lines(k, ls) + d == [DiffLine(k, ls[0])] + (Lines(k, ls[1..]) + d)
  {
  }

  lemma {:induction false} LinesInFront(k: Kind, ls: seq<string>, d: seq<DiffLine>)
    ensures Before(Lines(k, ls) + d) == (if k == Add then [] else ls) + Before(d)
    ensures After(Lines(k, ls) + d) == (if k == Del then [] else ls) + After(d)
  {
    hide Before, After, Lines;
    if ls == [] {
      assert Lines(k, ls) + d == d by {
        assert |Lines(k, ls)| == 0;
      }
    } else {
      LinesInFront(k, ls[1..], d);
      FirstLine(k, ls, d);
      LineInFront(DiffLine(k, ls[0]), Lines(k, ls[1..]) + d);
      assert [ls[0]] + (ls[1..] + Before(d)) == ls + Before(d);
      assert [ls[0]] + (ls[1..] + After(d)) == ls + After(d);
    }
  }

  lemma SequentialRebuilds(a: seq<string>, b: seq<string>)
    ensures IsDiff(Lines(Del, a) + Lines(Add, b), a, b)
  {
    LinesInFront(Del, a, Lines(Add, b));
    LinesInFront(Add, b, []);
    assert Lines(Add, b) + [] == Lines(Add, b);
  }

  // ----- the table -----

  /** Row `p` of the table is right from column `from` on. */
  ghost predicate RowDone(dp: array2<int>, a: seq<string>, b: seq<string>, p: nat, from: nat)
    requires dp.Length0 == |a| + 1 && dp.Length1 == |b| + 1 && p <= |a|
    reads dp
  {
    forall q :: from <= q <= |b| ==> dp[p, q] == Lcs(a[p..], b[q..])
  }

  method BuildTable(a: seq<string>, b: seq<string>) returns (dp: array2<int>)
    ensures fresh(dp) && dp.Length0 == |a| + 1 && dp.Length1 == |b| + 1
    ensures forall p, q :: 0 <= p <= |a| && 0 <= q <= |b| ==> dp[p, q] == Lcs(a[p..], b[q..])
  {
    var m, n := |a|, |b|;
    dp := new int[m + 1, n + 1]((i, j) => 0);
    for i := m downto 0
      invariant forall p :: i <= p <= m ==> RowDone(dp, a, b, p, 0)
      invariant forall p :: 0 <= p < i ==> dp[p, n] == 0
    {
      for j := n downto 0
        invariant forall p :: i < p <= m ==> RowDone(dp, a, b, p, 0)
        invariant RowDone(dp, a, b, i, j)
        invariant forall p :: 0 <= p < i ==> dp[p, n] == 0
      {
        assert RowDone(dp, a, b, i + 1, 0);
        assert dp[i + 1, j] == Lcs(a[i + 1..], b[j..]) && dp[i + 1, j + 1] == Lcs(a[i + 1..], b[j + 1..]);
        assert a[i..][1..] == a[i + 1..] && b[j..][1..] == b[j + 1..];
        label L:
        if a[i] == b[j] {
          dp[i, j] := dp[i + 1, j + 1] + 1;
        } else {
          dp[i, j] := Max(dp[i + 1, j], dp[i, j + 1]);
        }
        forall p | i < p <= m ensures RowDone(dp, a, b, p, 0) {
          assert old@L(RowDone(dp, a, b, p, 0));
        }
      }
    }
    assert forall p :: 0 <= p <= m ==> RowDone(dp, a, b, p, 0);
    forall p, q | 0 <= p <= m && 0 <= q <= n ensures dp[p, q] == Lcs(a[p..], b[q..]) {
      assert RowDone(dp, a, b, p, 0);
    }
  }

  // ----- the result under construction -----

  class Result {
    var lines: seq<DiffLine>

    constructor ()
      ensures lines == []
    {
      lines := [];
    }

    method HasChanges() returns (r: bool)
      ensures r <==> Changes(lines)
    {
      var i := 0;
      while i < |lines|
        invariant 0 <= i <= |lines|
        invariant forall k :: 0 <= k < i ==> lines[k].kind == Ctx
      {
        if lines[i].kind == Add || lines[i].kind == Del {
          return true;
        }
        i := i + 1;
      }
      return false;
    }

    /** The walk emits exactly the lines the recurrence prescribes. */
    method SimpleDiff(a: seq<string>, b: seq<string>)
      modifies this
      ensures lines == old(lines) + Walk(a, b)
    {
      var m, n := |a|, |b|;
      var dp := BuildTable(a, b);
      var i, j := 0, 0;
      assert a[0..] == a && b[0..] == b;
      while i < m || j < n
        invariant 0 <= i <= m && 0 <= j <= n
        invariant lines + Walk(a[i..], b[j..]) == old(lines) + Walk(a, b)
        modifies this
        decreases m + n - i - j
      {
        ghost var done := lines;
        if i < m && j < n && a[i] == b[j] {
          WalkStep(a, b, i, j, Walk(a[i + 1..], b[j + 1..]), done);
          lines := lines + [DiffLine(Ctx, a[i])];
          i, j := i + 1, j + 1;
        } else if j < n && (i >= m || dp[i, j + 1] >= dp[i + 1, j]) {
          WalkStep(a, b, i, j, Walk(a[i..], b[j + 1..]), done);
          lines := lines + [DiffLine(Add, b[j])];
          j := j + 1;
        } else {
          WalkStep(a, b, i, j, Walk(a[i + 1..], b[j..]), done);
          lines := lines + [DiffLine(Del, a[i])];
          i := i + 1;
        }
      }
    }

    /**
     The section for one body. Equal bodies give at most a context line;
     different bodies give a title and a diff that rebuilds both of them.
     */
    method DiffBody(section: string, s1: string, s2: string) returns (ghost d: seq<DiffLine>)
      modifies this
      ensures s1 == s2 ==> d == [] && lines == old(lines) +
                                (if s1 == "" then [] else [DiffLine(Ctx, "--- " + section + " (unchanged) ---")])
      ensures s1 != s2 ==> lines == old(lines) + [DiffLine(Ctx, "--- " + section + " ---")] + d
      ensures s1 != s2 ==> Join(Before(d), '\n') == s1 && Join(After(d), '\n') == s2
      ensures Changes(d) <==> s1 != s2
      ensures s1 != s2 && |Split(s1, '\n')| <= 200 && |Split(s2, '\n')| <= 200 ==>
                IsMinimalDiff(d, Split(s1, '\n'), Split(s2, '\n'))
      ensures |Split(s1, '\n')| > 200 || |Split(s2, '\n')| > 200 ==>
                s1 == s2 || d == Lines(Del, Split(s1, '\n')) + Lines(Add, Split(s2, '\n'))
    {
      d := [];
      if s1 == s2 {
        if s1 != "" {
          lines := lines + [DiffLine(Ctx, "--- " + section + " (unchanged) ---")];
        }
        return;
      }
      lines := lines + [DiffLine(Ctx, "--- " + section + " ---")];
      var lines1, lines2 := Split(s1, '\n'), Split(s2, '\n');
      var maxLen := Max(|lines1|, |lines2|);
      ghost var before := lines;
      if maxLen > 200 {
        AppendAll(Del, lines1);
        AppendAll(Add, lines2);
        d := Lines(Del, lines1) + Lines(Add, lines2);
        SequentialRebuilds(lines1, lines2);
        assert before + Lines(Del, lines1) + Lines(Add, lines2) == before + d;
      } else {
        SimpleDiff(lines1, lines2);
        d := Walk(lines1, lines2);
        WalkIsMinimal(lines1, lines2);
      }
      if !Changes(d) {
        NoChangeMeansEqual(d);
        SameLinesSameBody(s1, s2);
      }
    }

    /** One of the two loops that list a body sequentially. */
    method AppendAll(k: Kind, ls: seq<string>)
      modifies this
      ensures lines == old(lines) + Lines(k, ls)
    {
      for i := 0 to |ls|
        invariant lines == old(lines) + Lines(k, ls[..i])
      {
        assert Lines(k, ls[..i + 1]) == Lines(k, ls[..i]) + [DiffLine(k, ls[i])];
        lines := lines + [DiffLine(k, ls[i])];
      }
      assert ls[..|ls|] == ls;
    }
  }
}
