/**
 The header pane of the breakpoint editor: the printer and the parser of
 internal/tui/breakpoint.go.
 */
module HeaderEditor {
  import opened GoStrings

  type Headers = map<string, string>

  // ----- sorted names -----

  /** Go's order on strings. */
  predicate Less(a: string, b: string) {
    b != [] && (a == [] || a[0] < b[0] || (a[0] == b[0] && Less(a[1..], b[1..])))
  }

  lemma {:induction false} LessTotal(a: string, b: string)
    ensures a == b || Less(a, b) || Less(b, a)
    ensures !(Less(a, b) && Less(b, a)) && !Less(a, a)
  {
    if a != [] && b != [] {
      LessTotal(a[1..], b[1..]);
      assert a == [a[0]] + a[1..] && b == [b[0]] + b[1..];
    }
    if a != [] {
      LessTotal(a[1..], a[1..]);
    }
  }

  lemma {:induction false} LessTransitive(a: string, b: string, c: string)
    requires Less(a, b) && Less(b, c)
    ensures Less(a, c)
  {
    if a != [] && a[0] == b[0] == c[0] {
      LessTransitive(a[1..], b[1..], c[1..]);
    }
  }

  predicate IsLeast(k: string, names: set<string>) {
    k in names && forall j :: j in names ==> j == k || Less(k, j)
  }

  lemma LeastExists(names: set<string>)
    requires names != {}
    ensures exists k :: IsLeast(k, names)
    decreases |names|
  {
    var x :| x in names;
    var rest := names - {x};
    if rest == {} {
      assert names == {x};
      assert IsLeast(x, names);
    } else {
      LeastExists(rest);
      var k :| IsLeast(k, rest);
      LessTotal(x, k);
      if Less(x, k) {
        forall j | j in names ensures j == x || Less(x, j) {
          if j in rest && j != k {
            LessTransitive(x, k, j);
          }
        }
        assert IsLeast(x, names);
      } else {
        assert IsLeast(k, names);
      }
    }
  }

  function Least(names: set<string>): (k: string)
    requires names != {}
    ensures IsLeast(k, names)
  {
    LeastExists(names);
    assert forall k, j :: IsLeast(k, names) && IsLeast(j, names) ==> j == k by {
      forall k, j | IsLeast(k, names) && IsLeast(j, names) ensures j == k {
        LessTotal(k, j);
      }
    }
    var k :| IsLeast(k, names);
    k
  }

  /** The names in ascending order. */
  function Sorted(names: set<string>): (keys: seq<string>)
    ensures forall k :: k in keys <==> k in names
    ensures forall i, j :: 0 <= i < j < |keys| ==> Less(keys[i], keys[j])
    decreases |names|
  {
    if names == {} then []
    else
      var k := Least(names);
      var rest := Sorted(names - {k});
      assert forall j :: 0 <= j < |rest| ==> rest[j] in names - {k};
      [k] + rest
  }

  // ----- printing -----

  function Line(name: string, value: string): string {
    name + ": " + value
  }

  /** One line per header, each with its newline. */
  function Text(keys: seq<string>, h: Headers): string
    requires forall k :: k in keys ==> k in h
  {
    if keys == [] then []
    else
      var last := keys[|keys| - 1];
      Text(keys[..|keys| - 1], h) + Line(last, h[last]) + "\n"
  }

  function TrimNewlines(s: string): string {
    if s != [] && s[|s| - 1] == '\n' then TrimNewlines(s[..|s| - 1]) else s
  }

  function Format(h: Headers): string {
    TrimNewlines(Text(Sorted(h.Keys), h))
  }

  lemma TextOfNothing(h: Headers)
    ensures Text([], h) == ""
  {
  }

  lemma TextStep(keys: seq<string>, i: nat, h: Headers)
    requires i < |keys| && forall k :: k in keys ==> k in h
    ensures Text(keys[..i + 1], h) == Text(keys[..i], h) + keys[i] + ": " + h[keys[i]] + "\n"
  {
    assert keys[..i + 1][..i] == keys[..i];
  }

  method FormatHeadersForEditor(h: Headers) returns (s: string)
    ensures s == Format(h)
  {
    if |h| == 0 {
      assert Sorted({}) == [] && h == map[];
      return "";
    }
    hide Text, Sorted, TrimNewlines;
    TextOfNothing(h);
    var keys := Sorted(h.Keys);
    var sb := "";
    for i := 0 to |keys|
      invariant sb == Text(keys[..i], h)
    {
      TextStep(keys, i, h);
      sb := sb + keys[i];
      sb := sb + ": ";
      sb := sb + h[keys[i]];
      sb := sb + "\n";
    }
    assert keys[..|keys|] == keys;
    return TrimNewlines(sb);
  }

  // ----- parsing -----

  /** What one line of the editor does to the headers read so far. */
  function Put(h: Headers, line: string): Headers {
    var t := TrimSpace(line);
    var k := Index(t, ":");
    if t == "" || k < 0 then h
    else h[TrimSpace(t[..k]) := TrimSpace(t[k + 1..])]
  }

  function ParseLines(lines: seq<string>): Headers {
    if lines == [] then map[] else Put(ParseLines(lines[..|lines| - 1]), lines[|lines| - 1])
  }

  function Parse(s: string): Headers {
    ParseLines(Split(s, '\n'))
  }

  lemma ParseStep(lines: seq<string>, i: nat)
    requires i < |lines|
    ensures ParseLines(lines[..i + 1]) == Put(ParseLines(lines[..i]), lines[i])
  {
    assert lines[..i + 1][..i] == lines[..i];
  }

  lemma ParseNothing()
    ensures ParseLines([]) == map[]
  {
  }

  method ParseHeadersFromEditor(s: string) returns (h: Headers)
    ensures h == Parse(s)
  {
    hide ParseLines, Index, TrimSpace, Split;
    ParseNothing();
    h := map[];
    var lines := Split(s, '\n');
    for i := 0 to |lines|
      invariant h == ParseLines(lines[..i])
    {
      ParseStep(lines, i);
      var line := TrimSpace(lines[i]);
      if line == "" {
        continue;
      }
      var k := Index(line, ":");
      if k >= 0 {
        h := h[TrimSpace(line[..k]) := TrimSpace(line[k + 1..])];
      }
    }
    assert lines[..|lines|] == lines;
  }

  // ----- the two undo each other -----

  predicate GoodName(name: string) {
    Trimmed(name) && '\n' !in name && ':' !in name
  }

  predicate GoodValue(value: string) {
    Trimmed(value) && '\n' !in value
  }

  /** Field names and values as sections 5.1 and 5.5 of RFC 9110 have them. */
  predicate Good(h: Headers) {
    forall k :: k in h ==> GoodName(k) && GoodValue(h[k])
  }

  function LinesOf(keys: seq<string>, h: Headers): (lines: seq<string>)
    requires forall k :: k in keys ==> k in h
    ensures |lines| == |keys|
  {
    seq(|keys|, i requires 0 <= i < |keys| => Line(keys[i], h[keys[i]]))
  }

  lemma {:induction false} JoinAppend(lines: seq<string>, l: string)
    requires lines != []
    ensures Join(lines + [l], '\n') == Join(lines, '\n') + "\n" + l
  {
    assert (lines + [l])[1..] == lines[1..] + [l];
    if |lines| > 1 {
      JoinAppend(lines[1..], l);
    } else {
      assert lines[1..] + [l] == [l];
    }
  }

  /** The printed text is the lines joined by newlines, and one newline more. */
  lemma {:induction false} TextIsJoined(keys: seq<string>, h: Headers)
    requires keys != [] && forall k :: k in keys ==> k in h
    ensures Text(keys, h) == Join(LinesOf(keys, h), '\n') + "\n"
  {
    var before, last := keys[..|keys| - 1], keys[|keys| - 1];
    var l := Line(last, h[last]);
    if before == [] {
      assert LinesOf(keys, h) == [l];
      assert Text(before, h) == "";
    } else {
      TextIsJoined(before, h);
      assert LinesOf(keys, h) == LinesOf(before, h) + [l];
      JoinAppend(LinesOf(before, h), l);
    }
  }

  lemma {:induction false} JoinEndsLikeLast(lines: seq<string>)
    requires lines != [] && lines[|lines| - 1] != []
    ensures var s, l := Join(lines, '\n'), lines[|lines| - 1];
            s != [] && s[|s| - 1] == l[|l| - 1]
  {
    if |lines| > 1 {
      JoinEndsLikeLast(lines[1..]);
    }
  }

  lemma TrimOneNewline(s: string)
    requires s != [] && s[|s| - 1] != '\n'
    ensures TrimNewlines(s + "\n") == s
  {
    assert (s + "\n")[..|s|] == s;
  }

  lemma LineEnd(name: string, value: string)
    requires GoodValue(value)
    ensures Line(name, value) != [] && Line(name, value)[|Line(name, value)| - 1] != '\n'
  {
  }

  lemma SortedNonempty(h: Headers)
    requires |h| > 0
    ensures Sorted(h.Keys) != []
  {
    hide Sorted;
    var k :| k in h;
    assert k in Sorted(h.Keys);
  }

  lemma FormatIsJoined(h: Headers)
    requires Good(h) && |h| > 0
    ensures Format(h) == Join(LinesOf(Sorted(h.Keys), h), '\n')
  {
    hide Sorted, Join, Text, Line, GoodValue, GoodName, TrimNewlines;
    var keys := Sorted(h.Keys);
    SortedNonempty(h);
    var lines, last := LinesOf(keys, h), keys[|keys| - 1];
    assert last in h;
    LineEnd(last, h[last]);
    TextIsJoined(keys, h);
    JoinEndsLikeLast(lines);
    TrimOneNewline(Join(lines, '\n'));
  }

  lemma PutTrimmed(h: Headers, line: string, name: string, rest: string)
    requires TrimSpace(line) == name + (":" + rest) && ':' !in name
    ensures Put(h, line) == h[TrimSpace(name) := TrimSpace(rest)]
  {
    hide TrimSpace, Index;
    var t := name + (":" + rest);
    IndexBehind(name, ':', rest);
    assert t[..|name|] == name && t[|name| + 1..] == rest;
  }

  /** A printed line puts exactly its header. */
  lemma PutLine(h: Headers, name: string, value: string)
    requires GoodName(name) && GoodValue(value)
    ensures Put(h, Line(name, value)) == h[name := value]
  {
    hide TrimSpace, Index, Put;
    TrimSpaceTrimmed(name);
    if value == "" {
      assert Line(name, value) == "" + (name + (":" + "")) + " ";
      TrimSpacePadded("", name + (":" + ""), " ");
      PutTrimmed(h, Line(name, value), name, "");
      TrimSpaceTrimmed("");
    } else {
      var core := name + (":" + (" " + value));
      assert Line(name, value) == core;
      assert Trimmed(core);
      TrimSpaceTrimmed(core);
      PutTrimmed(h, Line(name, value), name, " " + value);
      TrimSpacePadded(" ", value, "");
      assert " " + value + "" == " " + value;
    }
  }

  lemma {:induction false} ParsePrinted(keys: seq<string>, h: Headers)
    requires Good(h) && forall k :: k in keys ==> k in h
    ensures ParseLines(LinesOf(keys, h)) == map k | k in keys :: h[k]
  {
    hide Put, Line, GoodName, GoodValue;
    if keys == [] {
      ParseNothing();
      assert LinesOf(keys, h) == [];
    } else {
      var before, last := keys[..|keys| - 1], keys[|keys| - 1];
      ParsePrinted(before, h);
      assert LinesOf(keys, h) == LinesOf(before, h) + [Line(last, h[last])];
      ParseStep(LinesOf(keys, h), |before|);
      assert LinesOf(keys, h)[..|before|] == LinesOf(before, h);
      assert LinesOf(keys, h)[..|before| + 1] == LinesOf(keys, h);
      PutLine(ParseLines(LinesOf(before, h)), last, h[last]);
      assert keys == before + [last];
    }
  }

  lemma EmptyRoundTrip()
    ensures Parse(Format(map[])) == map[]
  {
    assert Sorted({}) == [];
    assert Format(map[]) == "";
    assert TrimSpace("") == "";
    assert ParseLines([""]) == Put(ParseLines([]), "") by {
      assert [""][..0] == [];
    }
  }

  /** Printing good headers and parsing the text gives them back. */
  lemma ParseOfFormat(h: Headers)
    requires Good(h)
    ensures Parse(Format(h)) == h
  {
    hide Sorted, Join, Split, Format, ParseLines;
    if |h| == 0 {
      assert h == map[];
      EmptyRoundTrip();
    } else {
      var keys := Sorted(h.Keys);
      var lines := LinesOf(keys, h);
      FormatIsJoined(h);
      SortedNonempty(h);
      forall i | 0 <= i < |lines| ensures '\n' !in lines[i] {
        assert keys[i] in h;
      }
      SplitOfJoin(lines, '\n');
      ParsePrinted(keys, h);
      assert h == map k | k in keys :: h[k];
    }
  }

  lemma PutIsGood(h: Headers, line: string)
    requires Good(h) && '\n' !in line
    ensures Good(Put(h, line))
  {
    hide TrimSpace, Index, Trimmed;
    var t := TrimSpace(line);
    var k := Index(t, ":");
    TrimSpaceKeeps(line);
    if 0 <= k {
      NoneBefore(t, ':');
      PartIsGood(t[..k], t);
      PartIsGood(t[k + 1..], t);
    }
  }

  lemma PartIsGood(part: string, t: string)
    requires '\n' !in t && forall c :: c in part ==> c in t
    ensures GoodValue(TrimSpace(part)) && (':' !in part ==> GoodName(TrimSpace(part)))
  {
    hide TrimSpace, Trimmed;
    TrimSpaceIsTrimmed(part);
    TrimSpaceKeeps(part);
  }

  /** Whatever the text, what is parsed from it is good. */
  lemma {:induction false} ParsedIsGood(lines: seq<string>)
    requires forall i :: 0 <= i < |lines| ==> '\n' !in lines[i]
    ensures Good(ParseLines(lines))
  {
    if lines != [] {
      ParsedIsGood(lines[..|lines| - 1]);
      PutIsGood(ParseLines(lines[..|lines| - 1]), lines[|lines| - 1]);
    }
  }

  /** Printing and parsing undo each other exactly on good headers. */
  lemma RoundTripIffGood(h: Headers)
    ensures Parse(Format(h)) == h <==> Good(h)
  {
    ParsedIsGood(Split(Format(h), '\n'));
    if Good(h) {
      ParseOfFormat(h);
    }
  }

  /** One trip through the editor settles any text. */
  lemma ParseSettles(s: string)
    ensures Parse(Format(Parse(s))) == Parse(s)
  {
    ParsedIsGood(Split(s, '\n'));
    ParseOfFormat(Parse(s));
  }
}
