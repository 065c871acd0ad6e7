/**
 The comment header of script files: parsing (internal/scripting/header.go) and
 the two line edits that rewrite it (internal/scripting/loader.go).
 */
module ScriptHeader {
  import opened Common
  import opened GoStrings
  import opened HeaderYaml

  const DELIMITER := "// ---"
  const MARK := "// enabled:"

  predicate IsDelimiter(line: string) {
    TrimSpace(line) == DELIMITER
  }

  /** A line the toggle takes for the setting. */
  predicate IsMark(line: string) {
    HasPrefix(TrimSpace(line), MARK)
  }

  // ----- the file -----

  /** A file cut at its first two delimiters. */
  datatype Script = Script(pre: seq<string>, open: string, header: seq<string>, close: string, body: seq<string>)
  {
    predicate Valid() {
      && IsDelimiter(open) && IsDelimiter(close)
      && NoDelimiter(pre) && NoDelimiter(header)
    }

    function Lines(): seq<string> {
      pre + [open] + header + [close] + body
    }
  }

  predicate NoDelimiter(lines: seq<string>) {
    forall i :: 0 <= i < |lines| ==> !IsDelimiter(lines[i])
  }

  function NextDelimiter(lines: seq<string>, from: nat): (k: nat)
    requires from <= |lines|
    ensures from <= k <= |lines|
    ensures forall i :: from <= i < k ==> !IsDelimiter(lines[i])
    ensures k < |lines| ==> IsDelimiter(lines[k])
  {
    FirstWhere(IsDelimiter, lines, from)
  }

  function Cut(lines: seq<string>): Option<Script> {
    var start := NextDelimiter(lines, 0);
    if start == |lines| then None
    else
      var end := NextDelimiter(lines, start + 1);
      if end == |lines| then None
      else Some(Script(lines[..start], lines[start], lines[start + 1..end], lines[end], lines[end + 1..]))
  }

  lemma NextDelimiterIs(lines: seq<string>, from: nat, k: nat)
    requires from <= k <= |lines| && (k < |lines| ==> IsDelimiter(lines[k]))
    requires forall i :: from <= i < k ==> !IsDelimiter(lines[i])
    ensures NextDelimiter(lines, from) == k
  {
    hide IsDelimiter;
    FirstWhereIs(IsDelimiter, lines, from, k);
  }

  lemma DelimiterPlaces(s: Script)
    requires s.Valid()
    ensures var lines, start := s.Lines(), |s.pre|;
            var end := start + 1 + |s.header|;
            && (forall i :: 0 <= i <= end ==> (IsDelimiter(lines[i]) <==> i == start || i == end))
            && lines[..end] == s.pre + [s.open] + s.header
            && lines[end..] == [s.close] + s.body
  {
    hide IsDelimiter;
    var lines, start := s.Lines(), |s.pre|;
    forall i | 0 <= i <= start + 1 + |s.header|
      ensures IsDelimiter(lines[i]) <==> i == start || i == start + 1 + |s.header|
    {
      assert i < start ==> lines[i] == s.pre[i];
      assert start < i < start + 1 + |s.header| ==> lines[i] == s.header[i - start - 1];
    }
  }

  lemma CutOfLines(s: Script)
    requires s.Valid()
    ensures Cut(s.Lines()) == Some(s)
  {
    hide IsDelimiter, NextDelimiter;
    var lines, start := s.Lines(), |s.pre|;
    var end := start + 1 + |s.header|;
    DelimiterPlaces(s);
    assert lines[..start] == s.pre && lines[start + 1..end] == s.header && lines[end + 1..] == s.body;
    NextDelimiterIs(lines, 0, start);
    NextDelimiterIs(lines, start + 1, end);
  }

  lemma LinesOfCut(lines: seq<string>)
    ensures var s := Cut(lines); s.Some? ==> s.value.Valid() && s.value.Lines() == lines
  {
    hide IsDelimiter, NextDelimiter;
    var start := NextDelimiter(lines, 0);
    assert lines[0..start] == lines[..start];
    if start < |lines| {
      var end := NextDelimiter(lines, start + 1);
      if end < |lines| {
        assert lines == lines[..start] + [lines[start]] + lines[start + 1..end] + [lines[end]] + lines[end + 1..];
      }
    }
  }

  datatype Parsed = Rejected | Parsed(meta: Meta, body: string)

  function ParseScript(s: Script): Parsed {
    match ReadMeta(s.header)
    case None => Rejected
    case Some(m) => Parsed(m, Join(s.body, '\n'))
  }

  function ParseLines(lines: seq<string>): Parsed {
    match Cut(lines)
    case None => Rejected
    case Some(s) => ParseScript(s)
  }

  function Parse(source: string): Parsed {
    ParseLines(Split(source, '\n'))
  }

  ghost predicate NoneWithin(lines: seq<string>, from: nat, to: nat)
    requires to <= |lines|
  {
    forall i :: from <= i < to ==> !IsDelimiter(lines[i])
  }

  lemma ParseFails(lines: seq<string>, start: nat)
    requires start <= |lines| && NoneWithin(lines, 0, start)
    requires start < |lines| ==> IsDelimiter(lines[start]) && NoneWithin(lines, start + 1, |lines|)
    ensures ParseLines(lines) == Rejected
  {
    hide IsDelimiter, NextDelimiter;
    NextDelimiterIs(lines, 0, start);
    if start < |lines| {
      NextDelimiterIs(lines, start + 1, |lines|);
    }
  }

  lemma ParseSucceeds(lines: seq<string>, start: nat, end: nat)
    requires start < end < |lines| && NoneWithin(lines, 0, start) && NoneWithin(lines, start + 1, end)
    requires IsDelimiter(lines[start]) && IsDelimiter(lines[end])
    ensures ParseLines(lines) ==
            match ReadMeta(lines[start + 1..end])
            case None => Rejected
            case Some(m) => Parsed(m, Join(lines[end + 1..], '\n'))
  {
    hide IsDelimiter, NextDelimiter, ReadMeta, Join;
    NextDelimiterIs(lines, 0, start);
    NextDelimiterIs(lines, start + 1, end);
  }

  method ParseHeader(source: string) returns (r: Parsed)
    ensures r == Parse(source)
  {
    hide IsDelimiter, ParseLines, ReadMeta, Join, Split;
    var lines := Split(source, '\n');
    var start := -1;
    for i := 0 to |lines|
      invariant start == -1 && NoneWithin(lines, 0, i)
    {
      if IsDelimiter(lines[i]) {
        start := i;
        break;
      }
    }
    if start < 0 {
      ParseFails(lines, |lines|);
      return Rejected;
    }
    var end := -1;
    for i := start + 1 to |lines|
      invariant end == -1 && NoneWithin(lines, start + 1, i)
    {
      if IsDelimiter(lines[i]) {
        end := i;
        break;
      }
    }
    if end < 0 {
      ParseFails(lines, start);
      return Rejected;
    }
    ParseSucceeds(lines, start, end);
    var meta := ReadMeta(lines[start + 1..end]);
    if meta.None? {
      return Rejected;
    }
    return Parsed(meta.value, Join(lines[end + 1..], '\n'));
  }

  // ----- toggling the setting -----

  function EnabledLine(b: bool): string {
    if b then "// enabled: true" else "// enabled: false"
  }

  /** The first line the toggle takes for the setting, or the end. */
  function FirstMark(lines: seq<string>): (k: nat)
    ensures k <= |lines|
    ensures forall i :: 0 <= i < k ==> !IsMark(lines[i])
    ensures k < |lines| ==> IsMark(lines[k])
  {
    FirstWhere(IsMark, lines, 0)
  }

  lemma FirstMarkIs(lines: seq<string>, k: nat)
    requires k <= |lines| && (k < |lines| ==> IsMark(lines[k]))
    requires forall i :: 0 <= i < k ==> !IsMark(lines[i])
    ensures FirstMark(lines) == k
  {
    hide IsMark;
    FirstWhereIs(IsMark, lines, 0, k);
  }

  /** Replace the first mark of the file; without one, add a line before the closing delimiter. */
  function Toggled(s: Script, to: bool): seq<string> {
    var lines, line := s.Lines(), EnabledLine(to);
    var k := FirstMark(lines);
    if k < |lines| then lines[k := line]
    else s.pre + [s.open] + (s.header + [line]) + [s.close] + s.body
  }

  function Toggle(source: string): Option<string> {
    match Parse(source)
    case Rejected => None
    case Parsed(meta, _) => Some(Join(Toggled(Cut(Split(source, '\n')).value, !meta.IsEnabled()), '\n'))
  }

  method ToggleEnabled(source: string) returns (r: Option<string>)
    ensures r == Toggle(source)
  {
    hide IsDelimiter, IsMark, NextDelimiter, ReadMeta, Join, Split, EnabledLine, FirstMark;
    var parsed := ParseHeader(source);
    if parsed.Rejected? {
      return None;
    }
    var newEnabled := !parsed.meta.IsEnabled();
    var lines := Split(source, '\n');
    ghost var original, s := lines, Cut(lines).value;
    LinesOfCut(lines);
    var replaced := false;
    for i := 0 to |lines|
      invariant !replaced && lines == original
      invariant forall k :: 0 <= k < i ==> !IsMark(lines[k])
    {
      if IsMark(lines[i]) {
        FirstMarkIs(lines, i);
        lines := lines[i := EnabledLine(newEnabled)];
        replaced := true;
        break;
      }
    }
    if !replaced {
      FirstMarkIs(lines, |lines|);
      ghost var start := |s.pre|;
      ghost var end := start + 1 + |s.header|;
      DelimiterPlaces(s);
      var delimCount := 0;
      for i := 0 to |lines|
        invariant lines == original && i <= end
        invariant delimCount == if i <= start then 0 else 1
      {
        if IsDelimiter(lines[i]) {
          delimCount := delimCount + 1;
          if delimCount == 2 {
            lines := lines[..i] + [EnabledLine(newEnabled)] + lines[i..];
            assert lines == s.pre + [s.open] + (s.header + [EnabledLine(newEnabled)]) + [s.close] + s.body;
            break;
          }
        }
      }
    }
    return Some(Join(lines, '\n'));
  }

  // ----- the lines that are written -----

  lemma KeyLineNoDelimiter(key: string, value: string)
    requires key != "" && AllWord(key) && Plain(value) && value[|value| - 1] != ' '
    ensures !IsDelimiter(KeyLine(key, value))
  {
    hide TrimSpace, KindOf, Plain;
    KeyLineKind(key, value);
    AllWordFacts(key);
    assert KeyLine(key, value)[3] == key[0];
  }

  lemma WordIsPlain(b: bool)
    ensures Plain(Word(b)) && Word(b)[|Word(b)| - 1] != ' ' && AllWord("enabled")
  {
  }

  lemma EnabledLineFacts(b: bool)
    ensures var l := EnabledLine(b);
            !IsDelimiter(l) && IsMark(l) && '\n' !in l && KindOf(l) == KeyValue("enabled", Word(b))
  {
    hide TrimSpace, KindOf, IsDelimiter, Plain, AllWord;
    assert EnabledLine(b) == KeyLine("enabled", Word(b));
    WordIsPlain(b);
    KeyLineKind("enabled", Word(b));
    KeyLineNoDelimiter("enabled", Word(b));
    assert MARK <= KeyLine("enabled", Word(b));
  }

  lemma EnabledLineNoDelimiter(b: bool)
    ensures !IsDelimiter(EnabledLine(b))
  {
    hide IsDelimiter, KindOf, IsMark, EnabledLine;
    EnabledLineFacts(b);
  }

  lemma EnabledLineIsMark(b: bool)
    ensures IsMark(EnabledLine(b)) && '\n' !in EnabledLine(b)
  {
    hide IsDelimiter, KindOf, IsMark, EnabledLine;
    EnabledLineFacts(b);
  }

  lemma EnabledLineKind(b: bool)
    ensures KindOf(EnabledLine(b)) == KeyValue("enabled", Word(b))
  {
    hide IsDelimiter, KindOf, IsMark, EnabledLine;
    EnabledLineFacts(b);
  }

  // ----- lines taken for the setting -----

  lemma TrimmedStart(s: string)
    requires s != "" && !IsSpace(s[0])
    ensures TrimSpace(s) != "" && TrimSpace(s) <= s
    ensures forall i :: |TrimSpace(s)| <= i < |s| ==> IsSpace(s[i])
  {
    hide IsSpace;
    assert TrimLeft(s) == s;
    TrimRightDropsBlank(s);
  }

  lemma MarkStart(line: string)
    requires IsMark(line)
    ensures line != "" && (IsSpace(line[0]) || MARK <= line)
  {
    hide IsSpace, TrimSpace;
    NothingToTrim();
    if line != "" && !IsSpace(line[0]) {
      TrimmedStart(line);
    }
  }

  lemma NothingToTrim()
    ensures TrimSpace("") == "" && !IsSpace('/') && !IsSpace('e') && !IsSpace(':')
  {
  }

  /** Such a line sets the key `enabled` or is no YAML line this model accepts. */
  lemma MarkKind(line: string)
    requires IsMark(line)
    ensures IsText(KindOf(line)) && (Sets(KindOf(line), "enabled") || KindOf(line) == Other)
  {
    hide IsSpace, IsMark, TrimSpace, IsKeyLine, Ascii, Index, KindOf;
    MarkStart(line);
    if MARK <= line {
      MarkKindInColumn(line);
    } else {
      MarkKindIndented(line);
    }
  }

  lemma MarkKindIndented(line: string)
    requires IsMark(line) && line != "" && IsSpace(line[0])
    ensures KindOf(line) == Other
  {
    hide IsSpace, IsMark, TrimSpace, IsKeyLine, Ascii, Index, TrimLeft;
    NothingToTrim();
    MarkMeans(line);
    assert line[0] != '/';
    assert Strip(line) == line;
    assert |TrimSpace(line)| >= |MARK|;
  }

  lemma MarkMeans(line: string)
    requires IsMark(line)
    ensures MARK <= TrimSpace(line) && TrimSpace(line)[0] == '/'
  {
    hide TrimSpace;
  }

  lemma MarkKindInColumn(line: string)
    requires MARK <= line
    ensures Sets(KindOf(line), "enabled") || KindOf(line) == Other
  {
    hide IsSpace, TrimSpace, IsKeyLine, Ascii, Index, Strip;
    NothingToTrim();
    var rest := line[3..];
    assert MARK == "// " + "enabled:";
    assert line == "// " + rest && "enabled:" <= rest && rest[0] == 'e' && rest[7] == ':';
    StripOf(rest);
    TrimmedStart(rest);
    var t := TrimSpace(rest);
    assert |t| > 7 && "enabled:" <= t;
    assert "enabled:" == "enabled" + ":";
    assert t == "enabled" + (":" + t[8..]);
    EnabledIsWord();
    ColonBehindKey("enabled", t[8..]);
    assert t[..7] == "enabled";
  }

  lemma EnabledIsWord()
    ensures AllWord("enabled")
  {
  }

  lemma MarkIsNoDelimiter(line: string)
    ensures !(IsMark(line) && IsDelimiter(line))
  {
    hide TrimSpace;
    assert MARK[3] == 'e' && DELIMITER[3] == '-';
  }

  // ----- what the new line does to a header -----

  lemma KindsReplaced(header: seq<string>, p: nat, line: string)
    requires p < |header|
    ensures Kinds(header[p := line]) == Kinds(header)[p := KindOf(line)]
  {
    hide KindOf;
  }

  lemma KindsExtended(header: seq<string>, line: string)
    ensures Kinds(header + [line]) == Kinds(header) + [KindOf(line)]
    ensures Kinds([line] + header) == [KindOf(line)] + Kinds(header)
  {
    hide KindOf;
  }

  /** Rewriting a line taken for the setting works exactly when it lies in the first document. */
  lemma SettingRewritten(header: seq<string>, p: nat, b: bool)
    requires p < |header| && IsMark(header[p]) && ReadMeta(header).Some?
    ensures var ks := Kinds(header);
            ReadMeta(header[p := EnabledLine(b)]) ==
            if DocBegin(ks) <= p < DocStop(ks) then Some(ReadMeta(header).value.(enabled := Some(b)))
            else ReadMeta(header)
  {
    hide KindOf, IsMark, EnabledLine, Document, DocBegin, DocStop, ReadDocument, Word;
    var ks, k := Kinds(header), KeyValue("enabled", Word(b));
    EnabledLineKind(b);
    KindsReplaced(header, p, EnabledLine(b));
    MarkKind(header[p]);
    DocumentReplaced(ks, p, k);
    if DocBegin(ks) <= p < DocStop(ks) {
      var d := Document(ks);
      var j :| 0 <= j < |d| && d[j] == ks[p] && Document(ks[p := k]) == d[j := k];
      ReadLinesAreFields(d, j);
      SettingReplaced(d, j, b);
    }
  }

  lemma ReadLinesAreFields(d: seq<LineKind>, j: nat)
    requires ReadDocument(d).Some? && j < |d|
    ensures d[j] != Other
  {
  }

  /** Adding the setting at the end works exactly when the first document reaches there and has none. */
  lemma SettingAppended(header: seq<string>, b: bool)
    requires ReadMeta(header).Some?
    ensures var ks := Kinds(header);
            ReadMeta(header + [EnabledLine(b)]) ==
            if DocStop(ks) < |ks| then ReadMeta(header)
            else if Find(Document(ks), "enabled") == |Document(ks)|
            then Some(ReadMeta(header).value.(enabled := Some(b)))
            else None
  {
    hide KindOf, EnabledLine, Document, DocBegin, DocStop, ReadDocument, Word;
    var ks, k := Kinds(header), KeyValue("enabled", Word(b));
    EnabledLineKind(b);
    KindsExtended(header, EnabledLine(b));
    DocumentExtended(ks, k);
    SettingAdded(Document(ks), b);
    assert Document(ks) + [] == Document(ks);
  }

  // ----- what toggling does -----

  /** Where the toggle writes, as a cut-up file. */
  function ToggledScript(s: Script, to: bool): Script {
    var k, line := FirstMark(s.Lines()), EnabledLine(to);
    var inHeader := k - |s.pre| - 1;
    var inBody := inHeader - |s.header| - 1;
    if k < |s.pre| then s.(pre := s.pre[k := line])
    else if k == |s.Lines()| then s.(header := s.header + [line])
    else if 0 <= inHeader < |s.header| then s.(header := s.header[inHeader := line])
    else if 0 <= inBody < |s.body| then s.(body := s.body[inBody := line])
    else s
  }

  /**
   Toggling works: the file's first line that looks like the setting lies in the
   part of the header that is read; or there is none, that part reaches the end
   of the header, and no line of it sets the key in another spelling.
   */
  predicate Flippable(s: Script) {
    var ks, k := Kinds(s.header), FirstMark(s.Lines());
    if k == |s.Lines()| then DocStop(ks) == |ks| && Find(Document(ks), "enabled") == |Document(ks)|
    else DocBegin(ks) <= k - |s.pre| - 1 < DocStop(ks)
  }

  lemma MarkPlace(s: Script)
    requires s.Valid()
    ensures var k, start := FirstMark(s.Lines()), |s.pre|; k != start && k != start + 1 + |s.header|
  {
    hide IsMark, IsDelimiter, FirstMark;
    var k := FirstMark(s.Lines());
    if k < |s.Lines()| {
      MarkIsNoDelimiter(s.Lines()[k]);
    }
  }

  lemma UpdateLeft(a: seq<string>, b: seq<string>, i: nat, x: string)
    requires i < |a|
    ensures (a + b)[i := x] == a[i := x] + b
  {
  }

  lemma UpdateRight(a: seq<string>, b: seq<string>, i: nat, x: string)
    requires |a| <= i < |a| + |b|
    ensures (a + b)[i := x] == a + b[i - |a| := x]
  {
  }

  lemma UpdateLine(s: Script, k: nat, x: string)
    requires k < |s.Lines()| && k != |s.pre| && k != |s.pre| + 1 + |s.header|
    ensures var i := k - |s.pre| - 1;
            s.Lines()[k := x] ==
            if k < |s.pre| then s.(pre := s.pre[k := x]).Lines()
            else if i < |s.header| then s.(header := s.header[i := x]).Lines()
            else s.(body := s.body[i - |s.header| - 1 := x]).Lines()
  {
    var upto := s.pre + [s.open] + s.header;
    assert s.Lines() == upto + [s.close] + s.body;
    if k >= |upto| {
      UpdateRight(upto + [s.close], s.body, k, x);
    } else {
      UpdateLeft(upto + [s.close], s.body, k, x);
      UpdateLeft(upto, [s.close], k, x);
      if k < |s.pre| {
        UpdateLeft(s.pre + [s.open], s.header, k, x);
        UpdateLeft(s.pre, [s.open], k, x);
      } else {
        UpdateRight(s.pre + [s.open], s.header, k, x);
      }
    }
  }

  lemma NoDelimiterKept(lines: seq<string>, i: nat, x: string)
    requires NoDelimiter(lines) && !IsDelimiter(x)
    ensures NoDelimiter(lines + [x])
    ensures i < |lines| ==> NoDelimiter(lines[i := x])
  {
    hide IsDelimiter;
  }

  lemma ToggledValid(s: Script, to: bool)
    requires s.Valid()
    ensures ToggledScript(s, to).Valid()
  {
    hide IsDelimiter, NoDelimiter, FirstMark, EnabledLine, Script.Lines;
    EnabledLineNoDelimiter(to);
    var k := FirstMark(s.Lines());
    NoDelimiterKept(s.pre, k, EnabledLine(to));
    NoDelimiterKept(s.header, if k > |s.pre| then k - |s.pre| - 1 else 0, EnabledLine(to));
  }

  lemma ToggledWithoutMark(s: Script, to: bool)
    requires FirstMark(s.Lines()) == |s.Lines()|
    ensures ToggledScript(s, to).Lines() == Toggled(s, to)
  {
    hide FirstMark, EnabledLine, Script.Lines;
    LineCount(s);
    LinesAre(s.(header := s.header + [EnabledLine(to)]));
  }

  lemma ToggledLines(s: Script, to: bool)
    requires s.Valid()
    ensures ToggledScript(s, to).Lines() == Toggled(s, to)
  {
    hide IsDelimiter, FirstMark, EnabledLine, Script.Lines, Script.Valid, NoDelimiter;
    MarkPlace(s);
    LineCount(s);
    var k := FirstMark(s.Lines());
    if k < |s.Lines()| {
      UpdateLine(s, k, EnabledLine(to));
    } else {
      ToggledWithoutMark(s, to);
    }
  }

  lemma LineCount(s: Script)
    ensures |s.Lines()| == |s.pre| + |s.header| + |s.body| + 2
  {
  }

  lemma LinesAre(s: Script)
    ensures s.Lines() == s.pre + [s.open] + s.header + [s.close] + s.body
  {
  }

  /** The same on cut-up files: the new setting takes effect exactly on flippable ones. */
  lemma FlipsIffFlippable(s: Script, to: bool)
    requires s.Valid() && ReadMeta(s.header).Some? && to == !ReadMeta(s.header).value.IsEnabled()
    ensures var t := ToggledScript(s, to);
            if Flippable(s) then
              t.body == s.body && ReadMeta(t.header) == Some(ReadMeta(s.header).value.(enabled := Some(to)))
            else
              ReadMeta(t.header).Some? ==> ReadMeta(t.header).value.IsEnabled() != to
  {
    hide IsMark, IsDelimiter, FirstMark, EnabledLine, ReadMeta, Document, DocBegin, DocStop, Kinds, Find;
    var lines, k := s.Lines(), FirstMark(s.Lines());
    var i := k - |s.pre| - 1;
    MarkPlace(s);
    if k == |lines| {
      SettingAppended(s.header, to);
    } else if 0 <= i < |s.header| {
      assert lines[k] == s.header[i];
      SettingRewritten(s.header, i, to);
    }
  }

  /** After a toggle that works the setting line is the file's first mark and lies in the header. */
  lemma MarkAfterToggle(s: Script, to: bool, p: nat)
    requires s.Valid() && Flippable(s)
    requires p == if FirstMark(s.Lines()) == |s.Lines()| then |s.header| else FirstMark(s.Lines()) - |s.pre| - 1
    ensures var t := ToggledScript(s, to);
            && t.pre == s.pre && p < |t.header| && t.header[p] == EnabledLine(to)
            && FirstMark(t.Lines()) == |s.pre| + 1 + p
            && forall u :: ToggledScript(t, u) == t.(header := t.header[p := EnabledLine(u)])
  {
    hide IsDelimiter, IsMark, FirstMark, EnabledLine, Document, DocBegin, DocStop, Kinds, Find;
    var t, k := ToggledScript(s, to), |s.pre| + 1 + p;
    EnabledLineIsMark(to);
    forall i | 0 <= i < k ensures !IsMark(t.Lines()[i]) {
      assert t.Lines()[i] == s.Lines()[i];
    }
    assert t.Lines()[k] == EnabledLine(to);
    FirstMarkIs(t.Lines(), k);
  }

  /** And the file can be toggled again. */
  lemma FlippableStays(s: Script, to: bool)
    requires s.Valid() && Flippable(s)
    ensures Flippable(ToggledScript(s, to))
  {
    hide IsDelimiter, IsMark, FirstMark, EnabledLine, Document, DocBegin, DocStop, Kinds, KindOf, Find;
    var k, t := FirstMark(s.Lines()), ToggledScript(s, to);
    EnabledLineKind(to);
    LineCount(s);
    LineCount(t);
    if k == |s.Lines()| {
      MarkAfterToggle(s, to, |s.header|);
      KindsExtended(s.header, EnabledLine(to));
      DocumentExtended(Kinds(s.header), KindOf(EnabledLine(to)));
    } else {
      var p := k - |s.pre| - 1;
      MarkAfterToggle(s, to, p);
      assert s.Lines()[k] == s.header[p];
      MarkKind(s.header[p]);
      KindsAt(s.header, p);
      KindsReplaced(s.header, p, EnabledLine(to));
      BoundsStay(Kinds(s.header), p, KindOf(EnabledLine(to)));
    }
  }

  lemma KindsAt(header: seq<string>, p: nat)
    requires p < |header|
    ensures Kinds(header)[p] == KindOf(header[p])
  {
  }

  predicate NoNewlines(lines: seq<string>) {
    forall i :: 0 <= i < |lines| ==> '\n' !in lines[i]
  }

  lemma ToggledNoNewlines(s: Script, to: bool)
    requires NoNewlines(s.Lines())
    ensures NoNewlines(Toggled(s, to))
  {
    hide IsDelimiter, IsMark, FirstMark, EnabledLine;
    EnabledLineIsMark(to);
    var lines, line := s.Lines(), EnabledLine(to);
    if FirstMark(lines) == |lines| {
      var head := s.pre + [s.open] + s.header;
      assert lines == head + ([s.close] + s.body);
      assert Toggled(s, to) == head + [line] + ([s.close] + s.body);
      forall i | 0 <= i < |Toggled(s, to)| ensures '\n' !in Toggled(s, to)[i] {
        var t := Toggled(s, to);
        assert t[i] == if i < |head| then lines[i] else if i == |head| then line else lines[i - 1];
      }
    }
  }

  /** One toggle of an accepted file, as a cut-up file. */
  lemma ToggleOnce(source: string, s: Script)
    requires Cut(Split(source, '\n')) == Some(s) && ReadMeta(s.header).Some?
    ensures var t := ToggledScript(s, !ReadMeta(s.header).value.IsEnabled());
            && s.Valid() && Parse(source) == ParseScript(s)
            && Toggle(source) == Some(Join(t.Lines(), '\n'))
            && Cut(Split(Toggle(source).value, '\n')) == Some(t)
            && Parse(Toggle(source).value) == ParseScript(t)
  {
    hide IsDelimiter, IsMark, Cut, Split, Join, ReadMeta, ToggledScript, Toggled, Script.Lines, Script.Valid;
    var to := !ReadMeta(s.header).value.IsEnabled();
    var t := ToggledScript(s, to);
    LinesOfCut(Split(source, '\n'));
    ToggledNoNewlines(s, to);
    ToggledLines(s, to);
    ToggledValid(s, to);
    LineCount(t);
    SplitOfJoin(t.Lines(), '\n');
    CutOfLines(t);
  }

  /**
   For every accepted file, toggling flips the setting exactly when the file is
   `Flippable`; then nothing but the setting changes and toggling three times
   gives the same text as toggling once.
   */
  lemma ToggleFlipsIff(source: string, s: Script)
    requires Cut(Split(source, '\n')) == Some(s) && Parse(source).Parsed?
    ensures Toggle(source).Some?
    ensures var was, now := Parse(source), Parse(Toggle(source).value);
            && (now.Parsed? && now.meta.IsEnabled() != was.meta.IsEnabled() <==> Flippable(s))
            && (Flippable(s) ==>
                  && now == Parsed(was.meta.(enabled := Some(!was.meta.IsEnabled())), was.body)
                  && Toggle(Toggle(source).value).Some?
                  && Toggle(Toggle(Toggle(source).value).value) == Toggle(source))
  {
    hide IsDelimiter, IsMark, Cut, Split, Join, ReadMeta, ToggledScript, Toggled, Script.Lines, Script.Valid, Flippable;
    ToggleOnce(source, s);
    var to := !ReadMeta(s.header).value.IsEnabled();
    FlipsIffFlippable(s, to);
    if Flippable(s) {
      var once, twice := ToggledScript(s, to), ToggledScript(ToggledScript(s, to), !to);
      ToggleOnce(Toggle(source).value, once);
      ThreeTogglesScript(s, to);
      FlipsIffFlippable(once, !to);
      ToggleOnce(Toggle(Toggle(source).value).value, twice);
    }
  }

  lemma FlippablePlace(s: Script)
    requires Flippable(s)
    ensures FirstMark(s.Lines()) == |s.Lines()| || |s.pre| < FirstMark(s.Lines()) <= |s.pre| + |s.header|
  {
    hide FirstMark;
  }

  lemma ThreeTogglesScript(s: Script, to: bool)
    requires s.Valid() && Flippable(s)
    ensures var once := ToggledScript(s, to);
            once.Valid() && Flippable(once) && ToggledScript(ToggledScript(once, !to), to) == once
  {
    hide IsDelimiter, IsMark, FirstMark, EnabledLine, Flippable, ToggledScript;
    var once := ToggledScript(s, to);
    FlippableStays(s, to);
    FlippablePlace(s);
    var p := if FirstMark(s.Lines()) == |s.Lines()| then |s.header| else FirstMark(s.Lines()) - |s.pre| - 1;
    ToggledValid(s, to);
    LineCount(s);
    MarkAfterToggle(s, to, p);
    LineCount(once);
    MarkAfterToggle(once, !to, p);
    var twice := ToggledScript(once, !to);
    assert twice.header[p := EnabledLine(to)] == once.header;
    assert ToggledScript(twice, to) == twice.(header := twice.header[p := EnabledLine(to)]);
  }

  // ----- backfilling a missing id -----

  predicate GoodId(id: string) {
    |id| == 16 && forall i :: 0 <= i < |id| ==> '0' <= id[i] <= '9' || 'a' <= id[i] <= 'f'
  }

  function IdLine(id: string): string {
    KeyLine("id", id)
  }

  /** The text with an id line behind the first delimiter, if there is one. */
  function Backfilled(source: string, id: string): Option<string> {
    var lines := Split(source, '\n');
    var k := NextDelimiter(lines, 0);
    if k == |lines| then None else Some(Join(lines[..k + 1] + [IdLine(id)] + lines[k + 1..], '\n'))
  }

  /** `metaId` is the id already parsed from `source`; `newId` is the random new one. */
  method EnsureScriptID(source: string, metaId: string, newId: string) returns (r: Option<string>)
    ensures r == if metaId != "" then Some(source) else Backfilled(source, newId)
  {
    hide IsDelimiter, NextDelimiter, Join, Split, IdLine;
    if metaId != "" {
      return Some(source);
    }
    var lines := Split(source, '\n');
    for i := 0 to |lines|
      invariant NoneWithin(lines, 0, i)
    {
      if IsDelimiter(lines[i]) {
        NextDelimiterIs(lines, 0, i);
        return Some(Join(lines[..i + 1] + [IdLine(newId)] + lines[i + 1..], '\n'));
      }
    }
    NextDelimiterIs(lines, 0, |lines|);
    return None;
  }

  lemma GoodIdIsPlain(id: string)
    requires GoodId(id)
    ensures Plain(id) && id[|id| - 1] != ' ' && !IsNull(id)
  {
  }

  lemma IdLineFacts(id: string)
    requires GoodId(id)
    ensures !IsDelimiter(IdLine(id)) && '\n' !in IdLine(id) && KindOf(IdLine(id)) == KeyValue("id", id)
  {
    hide KindOf, IsDelimiter, Plain, TrimSpace;
    GoodIdIsPlain(id);
    KeyLineKind("id", id);
    KeyLineNoDelimiter("id", id);
  }

  /** The backfilled header is accepted: no line sets the id, and no marker opens the document. */
  predicate Backfillable(header: seq<string>) {
    var ks := Kinds(header);
    !StartsExplicitly(ks) && Find(Document(ks), "id") == |Document(ks)|
  }

  lemma HeaderWithId(header: seq<string>, id: string)
    requires GoodId(id) && ReadMeta(header).Some? && ReadMeta(header).value.id == ""
    ensures ReadMeta([IdLine(id)] + header) ==
            if Backfillable(header) then Some(ReadMeta(header).value.(id := id)) else None
  {
    hide KindOf, IdLine, GoodId, Plain, IsNull, Document, StartsExplicitly, ReadDocument, Kinds, Find;
    IdLineFacts(id);
    GoodIdIsPlain(id);
    KindsExtended(header, IdLine(id));
    IdPrefixed(Kinds(header), id);
  }

  /**
   For every accepted file without an id, the rewritten file is accepted again,
   with the new id and nothing else changed, exactly when it is `Backfillable`;
   an empty `// id:` line or a document marker in front makes the next load
   reject it.
   */
  lemma BackfillAcceptedIff(source: string, s: Script, id: string)
    requires GoodId(id) && Cut(Split(source, '\n')) == Some(s)
    requires Parse(source).Parsed? && Parse(source).meta.id == ""
    ensures Backfilled(source, id).Some?
    ensures Parse(Backfilled(source, id).value) ==
            if Backfillable(s.header)
            then Parsed(Parse(source).meta.(id := id), Parse(source).body)
            else Rejected
  {
    hide IsDelimiter, ReadMeta, Join, Split, IdLine, Backfillable, Script.Lines, NextDelimiter, Cut;
    var t := s.(header := [IdLine(id)] + s.header);
    BackfilledLines(source, s, id);
    CutOfLines(t);
    HeaderWithId(s.header, id);
  }

  lemma BackfilledLines(source: string, s: Script, id: string)
    requires GoodId(id) && Cut(Split(source, '\n')) == Some(s)
    ensures var t := s.(header := [IdLine(id)] + s.header);
            && s.Valid() && t.Valid() && Backfilled(source, id) == Some(Join(t.Lines(), '\n'))
            && Split(Join(t.Lines(), '\n'), '\n') == t.Lines()
  {
    hide IsDelimiter, Join, Split, IdLine, Script.Lines, NextDelimiter, Cut, NoNewlines;
    var lines := Split(source, '\n');
    var t := s.(header := [IdLine(id)] + s.header);
    IdLineClean(id);
    LinesOfCut(lines);
    LineCount(s);
    InsertedLines(s, IdLine(id));
    FirstDelimiter(s);
    LinesHaveNoNewline(source);
    StillNoNewlines(lines, |s.pre| + 1, IdLine(id));
    NoNewlinesSplit(t.Lines());
  }

  lemma LinesHaveNoNewline(source: string)
    ensures NoNewlines(Split(source, '\n'))
  {
  }

  lemma StillNoNewlines(lines: seq<string>, k: nat, line: string)
    requires k <= |lines| && NoNewlines(lines) && '\n' !in line
    ensures NoNewlines(lines[..k] + [line] + lines[k..])
  {
  }

  lemma NoNewlinesSplit(lines: seq<string>)
    requires lines != [] && NoNewlines(lines)
    ensures Split(Join(lines, '\n'), '\n') == lines
  {
    SplitOfJoin(lines, '\n');
  }

  lemma FirstDelimiter(s: Script)
    requires s.Valid()
    ensures NextDelimiter(s.Lines(), 0) == |s.pre|
  {
    hide IsDelimiter;
    DelimiterPlaces(s);
    NextDelimiterIs(s.Lines(), 0, |s.pre|);
  }

  lemma IdLineClean(id: string)
    requires GoodId(id)
    ensures !IsDelimiter(IdLine(id)) && '\n' !in IdLine(id)
  {
    hide IsDelimiter, KindOf, IdLine;
    IdLineFacts(id);
  }

  lemma InsertedLines(s: Script, line: string)
    ensures var k, t := |s.pre| + 1, s.(header := [line] + s.header);
            k <= |s.Lines()| && t.Lines() == s.Lines()[..k] + [line] + s.Lines()[k..]
  {
    assert s.Lines() == (s.pre + [s.open]) + (s.header + [s.close] + s.body);
    assert s.Lines()[..|s.pre| + 1] == s.pre + [s.open];
    assert s.Lines()[|s.pre| + 1..] == s.header + [s.close] + s.body;
  }

  // ----- where the edits fail -----

  /** A small file with name and match, written the way the program writes them. */
  function Example(first: seq<string>, body: string): Script {
    Script([], DELIMITER, first + [KeyLine("name", "a"), "// match:", "//   - b"], DELIMITER, [body])
  }

  lemma MatchLine()
    ensures var l := "// match:";
            !IsDelimiter(l) && !IsMark(l) && '\n' !in l && KindOf(l) == KeyValue("match", "")
  {
    hide TrimSpace, Index, Strip, SimpleScalar, FlowList;
    var s := "match" + (":" + "");
    assert "// match:" == "// " + s && ("// match:")[3] == 'm';
    StripOf(s);
    TrimSpaceTrimmed(s);
    TrimSpaceTrimmed("// match:");
    TrimSpaceTrimmed("");
    ColonBehindKey("match", "");
    assert s[..5] == "match" && s[6..] == "";
  }

  lemma ItemText()
    ensures var s := "  - b"; TrimSpace(s) == "- b" && |TrimLeft(s)| == 3 && TrimSpace(" b") == "b"
    ensures TrimSpace("//   - b") == "//   - b"
  {
    hide TrimSpace, TrimLeft, IsSpace;
    ItemChars();
    assert "  - b" == "  " + "- b" + "" && "  " + "- b" == "  - b";
    TrimSpacePadded("  ", "- b", "");
    TrimLeftPadded("  ", "- b");
    assert " b" == " " + "b" + "";
    TrimSpacePadded(" ", "b", "");
    TrimSpaceTrimmed("//   - b");
  }

  lemma ItemChars()
    ensures IsSpace(' ') && !IsSpace('-') && !IsSpace('b') && !IsSpace('/')
  {
  }

  lemma ItemLine()
    ensures var l := "//   - b";
            !IsDelimiter(l) && !IsMark(l) && '\n' !in l && KindOf(l) == Item(2, "b")
  {
    hide Index, TrimSpace, TrimLeft, Strip, Quoted, IsKeyLine;
    var l, s, t := "//   - b", "  - b", "- b";
    assert l == "// " + s && l[3] == ' ';
    StripOf(s);
    ItemText();
    assert t[1..] == " b" && Plain("b");
    assert IsItem(t);
  }

  lemma NameLine()
    ensures var l := KeyLine("name", "a");
            !IsDelimiter(l) && !IsMark(l) && '\n' !in l && KindOf(l) == KeyValue("name", "a")
  {
    hide TrimSpace, KindOf, IsDelimiter;
    assert Plain("a") && AllWord("name");
    KeyLineKind("name", "a");
    KeyLineNoDelimiter("name", "a");
    assert KeyLine("name", "a")[3] == 'n';
  }

  lemma DelimiterLine()
    ensures IsDelimiter(DELIMITER) && !IsMark(DELIMITER) && '\n' !in DELIMITER
  {
    TrimSpaceTrimmed(DELIMITER);
    assert DELIMITER[3] == '-';
  }

  lemma ExampleLines(first: seq<string>, body: string)
    requires NoDelimiter(first) && NoNewlines(first) && '\n' !in body
    ensures var s := Example(first, body);
            && s.Valid() && NoNewlines(s.Lines()) && Cut(Split(Join(s.Lines(), '\n'), '\n')) == Some(s)
            && Kinds(s.header) == Kinds(first) + [KeyValue("name", "a"), KeyValue("match", ""), Item(2, "b")]
  {
    hide IsDelimiter, IsMark, KindOf, Cut, Split, Join, KeyLine;
    var s := Example(first, body);
    DelimiterLine();
    NameLine();
    MatchLine();
    ItemLine();
    SplitOfJoin(s.Lines(), '\n');
    CutOfLines(s);
  }

  const NAMED := [KeyValue("name", "a"), KeyValue("match", ""), Item(2, "b")]

  lemma ExampleMeta(id: Field)
    requires id == Absent || id == Field("", [])
    ensures MetaOf(id, Field("a", []), Field("", ["b"]), Absent) == Some(Meta("", "a", ["b"], None))
  {
    hide FlowList;
    assert Plain("a") && !IsNull("b") && Unquoted("b") == "b";
    assert ReadItems(["b"][1..]) == [] && ReadItems(["b"]) == ["b"];
  }

  lemma NamedFields()
    ensures Structured(NAMED) && Lookup(NAMED, "id") == Absent && Lookup(NAMED, "name") == Field("a", [])
    ensures Lookup(NAMED, "match") == Field("", ["b"]) && Lookup(NAMED, "enabled") == Absent
  {
    hide Find;
    FindIs(NAMED, "id", 3);
    FindIs(NAMED, "name", 0);
    FindIs(NAMED, "match", 1);
    FindIs(NAMED, "enabled", 3);
  }

  lemma {:induction false} AllContent(ks: seq<LineKind>)
    requires forall i :: 0 <= i < |ks| ==> ks[i] != Blank
    ensures Content(ks) == ks
  {
    if ks != [] {
      AllContent(ks[1..]);
    }
  }

  lemma NamedIsRead()
    ensures Document(NAMED) == NAMED && !StartsExplicitly(NAMED)
    ensures ReadDocument(NAMED) == Some(Meta("", "a", ["b"], None))
  {
    hide Structured, Lookup, MetaOf, Content;
    FirstWhereIs(IsContent, NAMED, 0, 0);
    FirstWhereIs(IsMarker, NAMED, 0, 3);
    assert NAMED[0..3] == NAMED;
    AllContent(NAMED);
    NamedFields();
    ExampleMeta(Absent);
  }

  lemma EmptyIdLine()
    ensures var l := "// id:";
            !IsDelimiter(l) && '\n' !in l && KindOf(l) == KeyValue("id", "")
  {
    hide TrimSpace, Index, Strip, SimpleScalar, FlowList;
    var s := "id" + (":" + "");
    assert "// id:" == "// " + s && ("// id:")[3] == 'i';
    StripOf(s);
    TrimSpaceTrimmed(s);
    TrimSpaceTrimmed("// id:");
    TrimSpaceTrimmed("");
    ColonBehindKey("id", "");
    assert s[..2] == "id" && s[3..] == "";
  }

  lemma NamedWithEmptyId()
    ensures var d := [KeyValue("id", "")] + NAMED;
            Document(d) == d && ReadDocument(d) == Some(Meta("", "a", ["b"], None)) && Find(d, "id") == 0
  {
    hide Structured, Lookup, MetaOf, Document;
    NamedIsRead();
    DocumentPrefixed(KeyValue("id", ""), NAMED);
    EmptyIdFields([KeyValue("id", "")] + NAMED);
    ExampleMeta(Field("", []));
  }

  lemma EmptyIdFields(d: seq<LineKind>)
    requires d == [KeyValue("id", "")] + NAMED
    ensures Structured(d) && Find(d, "id") == 0 && Lookup(d, "id") == Field("", [])
    ensures Lookup(d, "name") == Field("a", []) && Lookup(d, "match") == Field("", ["b"])
    ensures Lookup(d, "enabled") == Absent
  {
    hide Find;
    assert d == [KeyValue("id", ""), KeyValue("name", "a"), KeyValue("match", ""), Item(2, "b")];
    FindIs(d, "id", 0);
    FindIs(d, "name", 1);
    FindIs(d, "match", 2);
    FindIs(d, "enabled", 4);
    assert ItemsAt(d, 1) == [] && ItemsAt(d, 2) == [] && ItemsAt(d, 4) == [];
  }

  /** An accepted file that its own id backfill turns into a rejected one. */
  lemma BackfillCanReject(id: string)
    requires GoodId(id)
    ensures var source := Join(Example(["// id:"], "").Lines(), '\n');
            && Parse(source) == Parsed(Meta("", "a", ["b"], None), "")
            && Backfilled(source, id).Some? && Parse(Backfilled(source, id).value) == Rejected
  {
    hide IsDelimiter, Cut, Split, Join, KindOf, Backfilled, GoodId, Script.Lines, Script.Valid, Document, ReadDocument;
    EmptyIdLine();
    ExampleLines(["// id:"], "");
    var s := Example(["// id:"], "");
    assert Kinds(s.header) == [KeyValue("id", "")] + NAMED;
    NamedWithEmptyId();
    JoinOne("");
    BackfillAcceptedIff(Join(s.Lines(), '\n'), s, id);
  }

  lemma MarkerLine()
    ensures var l := "//---";
            !IsDelimiter(l) && '\n' !in l && KindOf(l) == DocStart
  {
    hide TrimSpace, Index;
    var l := "//---";
    assert l[2] == '-' && ("// ")[2] == ' ';
    assert TrimPrefix(l, "// ") == l;
    assert l[2..] == "---";
    assert Strip(l) == "---";
    TrimSpaceTrimmed("---");
    TrimSpaceTrimmed(l);
  }

  /** So does a document marker in front of the header. */
  lemma BackfillBehindMarkerRejects(id: string)
    requires GoodId(id)
    ensures var source := Join(Example(["//---"], "").Lines(), '\n');
            && Parse(source) == Parsed(Meta("", "a", ["b"], None), "")
            && Backfilled(source, id).Some? && Parse(Backfilled(source, id).value) == Rejected
  {
    hide IsDelimiter, Cut, Split, Join, KindOf, Backfilled, GoodId, Script.Lines, Script.Valid, ReadDocument;
    MarkerLine();
    ExampleLines(["//---"], "");
    var s := Example(["//---"], "");
    assert Kinds(s.header) == [DocStart] + NAMED;
    NamedIsRead();
    MarkedDocument();
    JoinOne("");
    BackfillAcceptedIff(Join(s.Lines(), '\n'), s, id);
  }

  lemma MarkedDocument()
    ensures var ks := [DocStart] + NAMED; StartsExplicitly(ks) && Document(ks) == Document(NAMED)
  {
    hide Content;
    var ks := [DocStart] + NAMED;
    FirstWhereIs(IsContent, ks, 0, 0);
    FirstWhereIs(IsContent, NAMED, 0, 0);
    FirstWhereIs(IsMarker, ks, 1, 4);
    FirstWhereIs(IsMarker, NAMED, 0, 3);
    assert DocBegin(ks) == 1 && DocStop(ks) == 4 && DocBegin(NAMED) == 0 && DocStop(NAMED) == 3;
    assert ks[1..4] == NAMED[0..3];
  }

  lemma JoinOne(s: string)
    ensures Join([s], '\n') == s
  {
  }

  lemma BodyMark()
    ensures IsMark("// enabled: x") && '\n' !in "// enabled: x"
  {
    hide IsSpace;
    LettersAreNoSpace();
    TrimSpaceTrimmed("// enabled: x");
    assert MARK <= "// enabled: x";
  }

  lemma LettersAreNoSpace()
    ensures !IsSpace('/') && !IsSpace('x')
  {
  }

  /** An accepted file whose toggle changes a line of the body and not the setting. */
  lemma ToggleCanMissTheHeader()
    ensures var source := Join(Example([], "// enabled: x").Lines(), '\n');
            && Parse(source) == Parsed(Meta("", "a", ["b"], None), "// enabled: x")
            && Toggle(source).Some?
            && Parse(Toggle(source).value) == Parsed(Meta("", "a", ["b"], None), "// enabled: false")
  {
    hide IsDelimiter, IsMark, KindOf, Cut, Split, Join, KeyLine, Toggle, FirstMark, Document, ReadDocument;
    var s := Example([], "// enabled: x");
    BodyMark();
    DelimiterLine();
    NameLine();
    MatchLine();
    ItemLine();
    ExampleLines([], "// enabled: x");
    assert Kinds(s.header) == NAMED;
    NamedIsRead();
    JoinOne("// enabled: x");
    JoinOne("// enabled: false");
    FirstMarkIs(s.Lines(), 5);
    ToggleOnce(Join(s.Lines(), '\n'), s);
    assert ToggledScript(s, false).body == ["// enabled: false"];
  }
}
