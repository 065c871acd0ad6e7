/**
 What yaml.v3 makes of a script header, for headers written line by line in
 printable ASCII: blank and comment lines, `key: value` lines with simple
 values, list items under a key without a value, and document markers. Only the
 first document of a header is read. A first document with any other line counts
 as rejected here.
 */
module HeaderYaml {
  import opened Common
  import opened GoStrings

  // ----- values -----

  predicate IsWord(c: char) {
    'a' <= c <= 'z' || 'A' <= c <= 'Z' || '0' <= c <= '9' || c == '_'
  }

  predicate AllWord(s: string) {
    forall i :: 0 <= i < |s| ==> IsWord(s[i])
  }

  /** A scalar without quotes that no YAML indicator can change. */
  predicate Plain(v: string) {
    && v != "" && IsWord(v[0])
    && forall i :: 0 <= i < |v| ==> IsWord(v[i]) || v[i] == ' ' || v[i] == '-' || v[i] == '.' || v[i] == '/'
  }

  /** A double-quoted scalar without escapes. */
  predicate Quoted(v: string) {
    && |v| >= 2 && v[0] == '"' && v[|v| - 1] == '"'
    && forall i :: 1 <= i < |v| - 1 ==> v[i] != '"' && v[i] != '\\'
  }

  function Unquoted(v: string): string {
    if Quoted(v) then v[1..|v| - 1] else v
  }

  predicate SimpleScalar(v: string) {
    Plain(v) || Quoted(v)
  }

  /** A list in brackets with at least one item, all of them simple scalars without commas. */
  predicate FlowList(v: string) {
    && |v| >= 2 && v[0] == '[' && v[|v| - 1] == ']'
    && AllSimple(FlowItems(v))
  }

  function FlowItems(v: string): seq<string>
    requires |v| >= 2
  {
    var items := Split(v[1..|v| - 1], ',');
    seq(|items|, i requires 0 <= i < |items| => TrimSpace(items[i]))
  }

  predicate AllSimple(items: seq<string>) {
    forall i :: 0 <= i < |items| ==> SimpleScalar(items[i])
  }

  predicate SimpleValue(v: string) {
    v == "" || v == "~" || SimpleScalar(v) || FlowList(v)
  }

  predicate IsNull(v: string) {
    v == "" || v == "~" || v == "null" || v == "Null" || v == "NULL"
  }

  // ----- lines -----

  function TrimPrefix(s: string, p: string): string {
    if HasPrefix(s, p) then s[|p|..] else s
  }

  /** A header line without its comment marker. */
  function Strip(line: string): string {
    TrimPrefix(TrimPrefix(line, "// "), "//")
  }

  /** Printable ASCII, with a carriage return allowed at the end. */
  predicate Ascii(s: string) {
    forall i :: 0 <= i < |s| ==> ' ' <= s[i] <= '~' || (i == |s| - 1 && s[i] == '\r')
  }

  predicate Printable(s: string) {
    forall i :: 0 <= i < |s| ==> ' ' <= s[i] <= '~'
  }

  datatype LineKind =
    | Blank
    | DocStart
    | DocEnd
    | Item(indent: nat, value: string)
    | KeyValue(key: string, value: string)
    | Other

  predicate IsItem(t: string) {
    |t| >= 2 && t[0] == '-' && t[1] == ' ' && SimpleScalar(TrimSpace(t[1..]))
  }

  /** `t` sets a key: where its colon is. */
  predicate IsKeyLine(t: string, colon: int) {
    && 0 < colon < |t| && AllWord(t[..colon])
    && (colon + 1 == |t| || t[colon + 1] == ' ')
    && SimpleValue(TrimSpace(t[colon + 1..]))
  }

  function KindOfText(s: string, t: string): LineKind {
    if s == "" then Blank
    else if !Ascii(s) then Other
    else if t == "" || t[0] == '#' then Blank
    else if t == "---" && s[0] == '-' then DocStart
    else if t == "..." && s[0] == '.' then DocEnd
    else if IsItem(t) then Item(|s| - |TrimLeft(s)|, TrimSpace(t[1..]))
    else if s[0] == t[0] && IsKeyLine(t, Index(t, ":")) then
      KeyValue(t[..Index(t, ":")], TrimSpace(t[Index(t, ":") + 1..]))
    else Other
  }

  function KindOf(line: string): LineKind {
    KindOfText(Strip(line), TrimSpace(Strip(line)))
  }

  function Kinds(header: seq<string>): (ks: seq<LineKind>)
    ensures |ks| == |header|
  {
    seq(|header|, i requires 0 <= i < |header| => KindOf(header[i]))
  }

  // ----- the first document -----

  predicate IsMarker(k: LineKind) {
    k == DocStart || k == DocEnd
  }

  predicate IsContent(k: LineKind) {
    k != Blank
  }

  /** The header opens its first document with a marker of its own. */
  predicate StartsExplicitly(ks: seq<LineKind>) {
    var k := FirstWhere(IsContent, ks, 0);
    k < |ks| && ks[k] == DocStart
  }

  /** The lines of the first document lie from `DocBegin` on and before `DocStop`. */
  function DocBegin(ks: seq<LineKind>): (k: nat)
    ensures k <= |ks|
  {
    if StartsExplicitly(ks) then FirstWhere(IsContent, ks, 0) + 1 else 0
  }

  function DocStop(ks: seq<LineKind>): (k: nat)
    ensures DocBegin(ks) <= k <= |ks|
  {
    FirstWhere(IsMarker, ks, DocBegin(ks))
  }

  function Content(ks: seq<LineKind>): seq<LineKind> {
    if ks == [] then [] else ContentOf(ks[0]) + Content(ks[1..])
  }

  function Document(ks: seq<LineKind>): seq<LineKind> {
    Content(ks[DocBegin(ks)..DocStop(ks)])
  }

  // ----- fields -----

  /** Key lines and items only, items under a key without a value and evenly indented, no key twice. */
  predicate Structured(d: seq<LineKind>) {
    && (forall i :: 0 <= i < |d| ==> d[i].KeyValue? || d[i].Item?)
    && (forall i :: 0 <= i < |d| && d[i].Item? ==>
          i > 0 && if d[i - 1].Item? then d[i - 1].indent == d[i].indent else d[i - 1].value == "")
    && (forall i, j :: 0 <= i < j < |d| && d[i].KeyValue? && d[j].KeyValue? ==> d[i].key != d[j].key)
  }

  predicate Sets(k: LineKind, key: string) {
    k.KeyValue? && k.key == key
  }

  /** The line that sets `key`, or the end. */
  function Find(d: seq<LineKind>, key: string): (k: nat)
    ensures k <= |d|
    ensures k < |d| ==> Sets(d[k], key)
    ensures forall i :: 0 <= i < k ==> !Sets(d[i], key)
  {
    if d == [] || Sets(d[0], key) then 0 else 1 + Find(d[1..], key)
  }

  lemma FindIs(d: seq<LineKind>, key: string, k: nat)
    requires k <= |d| && (k < |d| ==> Sets(d[k], key))
    requires forall i :: 0 <= i < k ==> !Sets(d[i], key)
    ensures Find(d, key) == k
  {
    hide Sets;
  }

  /** What a document says about one key: its value and the items that follow. */
  datatype Field = Absent | Field(value: string, items: seq<string>)

  function ItemsAt(d: seq<LineKind>, k: nat): seq<string>
    decreases |d| - k
  {
    if k < |d| && d[k].Item? then [d[k].value] + ItemsAt(d, k + 1) else []
  }

  function FieldAt(d: seq<LineKind>, k: nat): Field
    requires k < |d| ==> d[k].KeyValue?
  {
    if k < |d| then Field(d[k].value, ItemsAt(d, k + 1)) else Absent
  }

  function Lookup(d: seq<LineKind>, key: string): Field {
    FieldAt(d, Find(d, key))
  }

  /** A field decoded into a string: a list is an error, null leaves it empty. */
  function ReadString(f: Field): Option<string> {
    if f.Absent? then Some("")
    else if f.items != [] then None
    else if IsNull(f.value) then Some("")
    else if SimpleScalar(f.value) then Some(Unquoted(f.value))
    else None
  }

  /** List items decoded into strings; null ones are dropped. */
  function ReadItems(items: seq<string>): seq<string> {
    if items == [] then []
    else (if IsNull(items[0]) then [] else [Unquoted(items[0])]) + ReadItems(items[1..])
  }

  /** A list of nothing but nulls is as good as none. */
  lemma {:induction false} OnlyNulls(items: seq<string>)
    ensures ReadItems(items) == [] <==> forall i :: 0 <= i < |items| ==> IsNull(items[i])
  {
    hide IsNull;
    if items != [] {
      OnlyNulls(items[1..]);
      assert forall i :: 0 < i < |items| ==> items[i] == items[1..][i - 1];
    }
  }

  /** A field decoded into a list of strings; one of another form counts as empty, and both are errors. */
  function ReadStrings(f: Field): seq<string> {
    if f.Absent? then []
    else if f.items != [] then ReadItems(f.items)
    else if FlowList(f.value) then ReadItems(FlowItems(f.value))
    else []
  }

  datatype Setting = Unset | Set(value: bool) | Invalid

  /** The core words only without quotes, those of older YAML also in quotes. */
  function ReadBool(v: string): Setting {
    if v in {"true", "True", "TRUE"} || Unquoted(v) in {"y", "Y", "yes", "on"} then Set(true)
    else if v in {"false", "False", "FALSE"} || Unquoted(v) in {"n", "N", "no", "off"} then Set(false)
    else if IsNull(v) then Unset
    else Invalid
  }

  function ReadSetting(f: Field): Setting {
    if f.Absent? then Unset else if f.items != [] then Invalid else ReadBool(f.value)
  }

  datatype Meta = Meta(id: string, name: string, patterns: seq<string>, enabled: Option<bool>)
  {
    predicate IsEnabled() {
      enabled == Some(true) || enabled == None
    }
  }

  /** A field of the wrong type, or a missing name or match, is an error. */
  function MetaOf(id: Field, name: Field, patterns: Field, enabled: Field): Option<Meta> {
    var setting := ReadSetting(enabled);
    if ReadString(id).None? || ReadString(name).None? || setting.Invalid? then None
    else if ReadString(name) == Some("") || ReadStrings(patterns) == [] then None
    else
      Some(Meta(ReadString(id).value, ReadString(name).value, ReadStrings(patterns),
                if setting.Set? then Some(setting.value) else None))
  }

  function ReadDocument(d: seq<LineKind>): Option<Meta> {
    if Structured(d) then MetaOf(Lookup(d, "id"), Lookup(d, "name"), Lookup(d, "match"), Lookup(d, "enabled"))
    else None
  }

  function ReadMeta(header: seq<string>): Option<Meta> {
    ReadDocument(Document(Kinds(header)))
  }

  // ----- changing one line of a document -----

  function Word(b: bool): string {
    if b then "true" else "false"
  }

  lemma SettingReads(id: Field, name: Field, patterns: Field, enabled: Field, b: bool)
    requires MetaOf(id, name, patterns, enabled).Some?
    ensures MetaOf(id, name, patterns, Field(Word(b), [])) ==
            Some(MetaOf(id, name, patterns, enabled).value.(enabled := Some(b)))
  {
    hide ReadString, ReadStrings;
    assert "true"[0] == 't' && "false"[0] == 'f';
  }

  /** Giving the setting's own line another value changes the setting only. */
  lemma SettingReplaced(d: seq<LineKind>, j: nat, b: bool)
    requires j < |d| && Sets(d[j], "enabled") && ReadDocument(d).Some?
    ensures ReadDocument(d[j := KeyValue("enabled", Word(b))]) == Some(ReadDocument(d).value.(enabled := Some(b)))
  {
    hide MetaOf;
    var e := d[j := KeyValue("enabled", Word(b))];
    SettingStandsAlone(d, j);
    ReplacedIsStructured(d, j, e[j]);
    hide Structured, Find;
    LookupElsewhere(d, e, j, "id");
    LookupElsewhere(d, e, j, "name");
    LookupElsewhere(d, e, j, "match");
    FindIs(e, "enabled", j);
    SettingReads(Lookup(d, "id"), Lookup(d, "name"), Lookup(d, "match"), Lookup(d, "enabled"), b);
  }

  /** In a document that is read, the setting's line is found and has no items. */
  lemma SettingStandsAlone(d: seq<LineKind>, j: nat)
    requires j < |d| && Sets(d[j], "enabled") && ReadDocument(d).Some?
    ensures Find(d, "enabled") == j && !(j + 1 < |d| && d[j + 1].Item?)
  {
    hide ReadString, ReadStrings, ReadBool;
    FindIs(d, "enabled", j);
  }

  /** A line of another key, changed in place, leaves a lookup alone. */
  lemma LookupElsewhere(d: seq<LineKind>, e: seq<LineKind>, j: nat, key: string)
    requires j < |d| == |e| && d[j].KeyValue? && e[j].KeyValue? && e == d[j := e[j]]
    requires d[j].key != key && e[j].key != key
    ensures Lookup(e, key) == Lookup(d, key)
  {
    var k := Find(d, key);
    FindIs(e, key, k);
    if k < |d| {
      ItemsElsewhere(d, e, j, k + 1);
    }
  }

  lemma {:induction false} ItemsElsewhere(d: seq<LineKind>, e: seq<LineKind>, j: nat, k: nat)
    requires j < |d| == |e| && d[j].KeyValue? && e[j].KeyValue? && e == d[j := e[j]]
    ensures ItemsAt(e, k) == ItemsAt(d, k)
    decreases |d| - k
  {
    if k < |d| {
      ItemsElsewhere(d, e, j, k + 1);
    }
  }

  /** A setting line behind the document takes effect exactly when there is none yet. */
  lemma SettingAdded(d: seq<LineKind>, b: bool)
    requires ReadDocument(d).Some?
    ensures ReadDocument(d + [KeyValue("enabled", Word(b))]) ==
            if Find(d, "enabled") == |d| then Some(ReadDocument(d).value.(enabled := Some(b))) else None
  {
    hide MetaOf, Word;
    var line := KeyValue("enabled", Word(b));
    var e, k := d + [line], Find(d, "enabled");
    if k < |d| {
      assert Sets(e[k], "enabled") && Sets(e[|d|], "enabled");
      assert !Structured(e);
    } else {
      AddedBehindIsStructured(d, line);
      hide Structured, Find;
      LookupInFront(d, line, "id");
      LookupInFront(d, line, "name");
      LookupInFront(d, line, "match");
      FindIs(e, "enabled", |d|);
      SettingReads(Lookup(d, "id"), Lookup(d, "name"), Lookup(d, "match"), Lookup(d, "enabled"), b);
    }
  }

  lemma KeyIsNew(d: seq<LineKind>, key: string)
    requires Find(d, key) == |d|
    ensures forall i :: 0 <= i < |d| && d[i].KeyValue? ==> d[i].key != key
  {
    hide Find;
    forall i | 0 <= i < |d| && d[i].KeyValue? ensures d[i].key != key {
      assert !Sets(d[i], key);
    }
  }

  lemma AddedBehindIsStructured(d: seq<LineKind>, line: LineKind)
    requires Structured(d) && line.KeyValue? && Find(d, line.key) == |d|
    ensures Structured(d + [line])
  {
    hide Find;
    KeyIsNew(d, line.key);
  }

  lemma AddedInFrontIsStructured(line: LineKind, d: seq<LineKind>)
    requires Structured(d) && line.KeyValue? && Find(d, line.key) == |d|
    ensures Structured([line] + d)
  {
    hide Find;
    KeyIsNew(d, line.key);
    var e := [line] + d;
    assert forall i :: 0 < i < |e| ==> e[i] == d[i - 1];
    assert forall i :: 0 <= i < |d| && d[i].Item? ==> i > 0;
  }

  /** A key line may take another value as long as no items follow it. */
  lemma ReplacedIsStructured(d: seq<LineKind>, j: nat, line: LineKind)
    requires Structured(d) && j < |d| && d[j].KeyValue? && line.KeyValue? && line.key == d[j].key
    requires !(j + 1 < |d| && d[j + 1].Item?)
    ensures Structured(d[j := line])
  {
  }

  lemma LookupInFront(d: seq<LineKind>, line: LineKind, key: string)
    requires line.KeyValue? && line.key != key
    ensures Lookup(d + [line], key) == Lookup(d, key)
  {
    var k := Find(d, key);
    FindIs(d + [line], key, if k < |d| then k else |d| + 1);
    if k < |d| {
      ItemsInFront(d, line, k + 1);
    }
  }

  lemma {:induction false} ItemsInFront(d: seq<LineKind>, line: LineKind, k: nat)
    requires line.KeyValue? && k <= |d|
    ensures ItemsAt(d + [line], k) == ItemsAt(d, k)
    decreases |d| - k
  {
    if k < |d| {
      ItemsInFront(d, line, k + 1);
    }
  }

  lemma LookupBehind(line: LineKind, d: seq<LineKind>, key: string)
    requires line.KeyValue? && line.key != key
    ensures Lookup([line] + d, key) == Lookup(d, key)
  {
    var k := Find(d, key);
    FindIs([line] + d, key, k + 1);
    ItemsBehind(line, d, k + 1);
  }

  lemma {:induction false} ItemsBehind(line: LineKind, d: seq<LineKind>, k: nat)
    ensures ItemsAt([line] + d, k + 1) == ItemsAt(d, k)
    decreases |d| - k
  {
    if k < |d| {
      assert ([line] + d)[k + 1] == d[k];
      ItemsBehind(line, d, k + 1);
    }
  }

  lemma IdReads(id: Field, name: Field, patterns: Field, enabled: Field, newId: string)
    requires MetaOf(id, name, patterns, enabled).Some? && Plain(newId) && !IsNull(newId)
    ensures MetaOf(Field(newId, []), name, patterns, enabled) ==
            Some(MetaOf(id, name, patterns, enabled).value.(id := newId))
  {
    hide ReadStrings, ReadSetting, IsNull;
    assert !Quoted(newId) by {
      assert IsWord(newId[0]) && !IsWord('"');
    }
  }

  /** An id line in front of the document takes effect exactly when there is none yet. */
  lemma IdAdded(d: seq<LineKind>, id: string)
    requires ReadDocument(d).Some? && Plain(id) && !IsNull(id)
    ensures ReadDocument([KeyValue("id", id)] + d) ==
            if Find(d, "id") == |d| then Some(ReadDocument(d).value.(id := id)) else None
  {
    hide MetaOf, Plain, IsNull;
    var line := KeyValue("id", id);
    var e, k := [line] + d, Find(d, "id");
    if k < |d| {
      assert e[k + 1] == d[k] && Sets(e[0], "id") && Sets(e[k + 1], "id");
      assert !Structured(e);
    } else {
      AddedInFrontIsStructured(line, d);
      assert d != [] ==> !d[0].Item?;
      hide Structured, Find;
      LookupBehind(line, d, "name");
      LookupBehind(line, d, "match");
      LookupBehind(line, d, "enabled");
      FindIs(e, "id", 0);
      IdReads(Lookup(d, "id"), Lookup(d, "name"), Lookup(d, "match"), Lookup(d, "enabled"), id);
    }
  }

  /** An id line in front of a header: what its document becomes. */
  lemma IdPrefixed(ks: seq<LineKind>, id: string)
    requires ReadDocument(Document(ks)).Some? && Plain(id) && !IsNull(id)
    ensures ReadDocument(Document([KeyValue("id", id)] + ks)) ==
            if !StartsExplicitly(ks) && Find(Document(ks), "id") == |Document(ks)|
            then Some(ReadDocument(Document(ks)).value.(id := id))
            else None
  {
    hide Document, ReadDocument, Find, Plain, IsNull, StartsExplicitly;
    DocumentPrefixed(KeyValue("id", id), ks);
    if StartsExplicitly(ks) {
      IdAloneFails(id);
    } else {
      IdAdded(Document(ks), id);
    }
  }

  /** An id alone is not a header. */
  lemma IdAloneFails(id: string)
    ensures ReadDocument([KeyValue("id", id)]) == None
  {
    FindIs([KeyValue("id", id)], "name", 1);
  }

  // ----- changing one line of a header -----

  function ContentOf(k: LineKind): seq<LineKind> {
    if k == Blank then [] else [k]
  }

  lemma {:induction false} ContentAppend(a: seq<LineKind>, b: seq<LineKind>)
    ensures Content(a + b) == Content(a) + Content(b)
  {
    hide ContentOf;
    if a == [] {
      assert a + b == b;
      assert [] + Content(b) == Content(b);
    } else {
      ContentAppend(a[1..], b);
      assert (a + b)[1..] == a[1..] + b;
      Reassociate(ContentOf(a[0]), Content(a[1..]), Content(b));
    }
  }

  lemma ContentAround(a: seq<LineKind>, k: LineKind, b: seq<LineKind>)
    requires k != Blank
    ensures Content(a + [k] + b) == Content(a) + [k] + Content(b)
  {
    ContentAppend(a + [k], b);
    ContentAppend(a, [k]);
    assert [k][1..] == [] && [k] + [] == [k];
    assert Content([k]) == [k] + Content([]);
  }

  lemma {:induction false} BlankContent(ks: seq<LineKind>)
    requires forall i :: 0 <= i < |ks| ==> ks[i] == Blank
    ensures Content(ks) == []
  {
    if ks != [] {
      BlankContent(ks[1..]);
    }
  }

  predicate IsText(k: LineKind) {
    k != Blank && !IsMarker(k)
  }

  /** Changing a text line into another one moves no document boundary. */
  lemma BoundsStay(ks: seq<LineKind>, p: nat, k: LineKind)
    requires p < |ks| && IsText(ks[p]) && IsText(k)
    ensures var ls := ks[p := k];
            StartsExplicitly(ls) == StartsExplicitly(ks) && DocBegin(ls) == DocBegin(ks) && DocStop(ls) == DocStop(ks)
  {
    var ls := ks[p := k];
    FirstWhereIs(IsContent, ls, 0, FirstWhere(IsContent, ks, 0));
    FirstWhereIs(IsMarker, ls, DocBegin(ks), DocStop(ks));
  }

  lemma ContentReplaced(a: seq<LineKind>, was: LineKind, k: LineKind, b: seq<LineKind>, d: seq<LineKind>)
    requires was != Blank && k != Blank && d == Content(a + [was] + b)
    ensures var j := |Content(a)|;
            j < |d| && d[j] == was && Content(a + [k] + b) == d[j := k]
  {
    hide Content;
    ContentAround(a, was, b);
    ContentAround(a, k, b);
    MiddleReplaced(Content(a), was, k, Content(b));
  }

  lemma MiddleReplaced(a: seq<LineKind>, was: LineKind, k: LineKind, b: seq<LineKind>)
    ensures (a + [was] + b)[|a| := k] == a + [k] + b && (a + [was] + b)[|a|] == was
  {
  }

  lemma SliceAround(ks: seq<LineKind>, lo: nat, p: nat, hi: nat, k: LineKind)
    requires lo <= p < hi <= |ks|
    ensures ks[lo..hi] == ks[lo..p] + [ks[p]] + ks[p + 1..hi]
    ensures ks[p := k][lo..hi] == ks[lo..p] + [k] + ks[p + 1..hi]
  {
  }

  /** Inside the first document the change is one of its content, outside it is not seen. */
  lemma DocumentReplaced(ks: seq<LineKind>, p: nat, k: LineKind)
    requires p < |ks| && IsText(ks[p]) && IsText(k)
    ensures var d, e := Document(ks), Document(ks[p := k]);
            if DocBegin(ks) <= p < DocStop(ks) then
              exists j :: 0 <= j < |d| && d[j] == ks[p] && e == d[j := k]
            else e == d
  {
    BoundsStay(ks, p, k);
    hide DocBegin, DocStop, Content;
    var lo, hi := DocBegin(ks), DocStop(ks);
    var ls := ks[p := k];
    if lo <= p < hi {
      var a, b := ks[lo..p], ks[p + 1..hi];
      SliceAround(ks, lo, p, hi, k);
      ContentReplaced(a, ks[p], k, b, Document(ks));
    } else {
      assert ls[lo..hi] == ks[lo..hi];
    }
  }

  /** A text line added at the end belongs to the first document exactly when that reaches the end. */
  lemma DocumentExtended(ks: seq<LineKind>, k: LineKind)
    requires IsText(k)
    ensures DocBegin(ks + [k]) == DocBegin(ks)
    ensures DocStop(ks + [k]) == if DocStop(ks) == |ks| then |ks| + 1 else DocStop(ks)
    ensures Document(ks + [k]) == Document(ks) + (if DocStop(ks) == |ks| then [k] else [])
  {
    var ls, lo, hi := ks + [k], DocBegin(ks), DocStop(ks);
    BoundsExtended(ks, k);
    hide DocBegin, DocStop, Content, IsText;
    if hi == |ks| {
      LastSlice(ks, k, lo);
      ContentAround(ks[lo..hi], k, []);
      NothingBehind(Content(ks[lo..hi]), k);
    } else {
      assert ls[lo..hi] == ks[lo..hi];
      assert Document(ks) + [] == Document(ks);
    }
  }

  lemma BoundsExtended(ks: seq<LineKind>, k: LineKind)
    requires IsText(k)
    ensures DocBegin(ks + [k]) == DocBegin(ks)
    ensures DocStop(ks + [k]) == if DocStop(ks) == |ks| then |ks| + 1 else DocStop(ks)
  {
    var ls, lo, hi := ks + [k], DocBegin(ks), DocStop(ks);
    FirstWhereIs(IsContent, ls, 0, FirstWhere(IsContent, ks, 0));
    FirstWhereIs(IsMarker, ls, lo, if hi == |ks| then |ks| + 1 else hi);
  }

  lemma LastSlice(ks: seq<LineKind>, k: LineKind, lo: nat)
    requires lo <= |ks|
    ensures (ks + [k])[lo..|ks| + 1] == ks[lo..|ks|] + [k] + []
  {
  }

  lemma FrontSlice(k: LineKind, ks: seq<LineKind>, hi: nat)
    requires hi <= |ks|
    ensures ([k] + ks)[0..hi + 1] == [] + [k] + ks[0..hi]
  {
  }

  lemma NothingBehind(d: seq<LineKind>, k: LineKind)
    ensures d + [k] + Content([]) == d + [k]
  {
  }

  lemma NothingInFront(k: LineKind, d: seq<LineKind>)
    ensures Content([]) + [k] + d == [k] + d
  {
  }

  /** A text line in front of a header opens its document, and stays alone when a marker follows. */
  lemma DocumentPrefixed(k: LineKind, ks: seq<LineKind>)
    requires IsText(k)
    ensures Document([k] + ks) == if StartsExplicitly(ks) then [k] else [k] + Document(ks)
  {
    var lead := FirstWhere(IsContent, ks, 0);
    var hi := if StartsExplicitly(ks) then lead else DocStop(ks);
    BoundsPrefixed(k, ks);
    if StartsExplicitly(ks) {
      BlankContent(ks[0..lead]);
    }
    hide DocBegin, DocStop, Content, FirstWhere, IsText;
    FrontSlice(k, ks, hi);
    ContentAround([], k, ks[0..hi]);
    NothingInFront(k, Content(ks[0..hi]));
  }

  lemma BoundsPrefixed(k: LineKind, ks: seq<LineKind>)
    requires IsText(k)
    ensures DocBegin([k] + ks) == 0
    ensures DocStop([k] + ks) == 1 + if StartsExplicitly(ks) then FirstWhere(IsContent, ks, 0) else DocStop(ks)
  {
    var ls, lead := [k] + ks, FirstWhere(IsContent, ks, 0);
    FirstWhereIs(IsContent, ls, 0, 0);
    FirstWhereIs(IsMarker, ls, 0, 1 + if StartsExplicitly(ks) then lead else DocStop(ks));
  }

  // ----- the lines the program writes -----

  function KeyLine(key: string, value: string): string {
    "// " + (key + ": " + value)
  }

  lemma StripOf(rest: string)
    requires rest != "" && rest[0] != '/'
    ensures Strip("// " + rest) == rest
  {
    assert ("// " + rest)[3..] == rest;
  }

  lemma WordFacts(c: char)
    requires IsWord(c)
    ensures !IsSpace(c) && ' ' <= c <= '~' && c != '/' && c != '#' && c != '-' && c != '.' && c != ':'
  {
  }

  lemma PlainFacts(v: string)
    requires Plain(v) && v[|v| - 1] != ' '
    ensures v != "" && Trimmed(v) && Printable(v) && SimpleValue(v)
  {
    hide IsWord, IsSpace, Quoted, FlowList;
    WordFacts(v[0]);
    forall i | 0 <= i < |v| ensures ' ' <= v[i] <= '~' && (v[i] != ' ' ==> !IsSpace(v[i])) {
      if IsWord(v[i]) {
        WordFacts(v[i]);
      } else {
        OtherPlainChars(v[i]);
      }
    }
  }

  lemma OtherPlainChars(c: char)
    requires c == ' ' || c == '-' || c == '.' || c == '/'
    ensures IsSpace(c) <==> c == ' '
  {
  }

  lemma NoColonInWord(key: string)
    requires AllWord(key)
    ensures ':' !in key
  {
  }

  lemma ColonBehindKey(key: string, rest: string)
    requires AllWord(key)
    ensures Index(key + (":" + rest), ":") == |key|
  {
    NoColonInWord(key);
    IndexBehind(key, ':', rest);
  }

  lemma AllWordFacts(key: string)
    requires key != "" && AllWord(key)
    ensures Printable(key) && !IsSpace(key[0])
    ensures key[0] != '/' && key[0] != '#' && key[0] != '-' && key[0] != '.'
  {
    hide IsWord, IsSpace;
    forall i | 0 <= i < |key| ensures ' ' <= key[i] <= '~' {
      WordFacts(key[i]);
    }
    WordFacts(key[0]);
  }

  /** The text of a key line. */
  lemma KeyTextKind(key: string, value: string)
    requires key != "" && AllWord(key) && Plain(value) && value[|value| - 1] != ' '
    ensures var s := key + (":" + (" " + value));
            TrimSpace(s) == s && KindOfText(s, s) == KeyValue(key, value) && Printable(s)
  {
    hide IsWord, AllWord, IsSpace, TrimSpace, Index, Plain, SimpleValue, SimpleScalar;
    var s := key + (":" + (" " + value));
    AllWordFacts(key);
    PlainFacts(value);
    TrimSpaceTrimmed(s);
    ColonBehindKey(key, " " + value);
    assert s[..|key|] == key && s[|key| + 1..] == " " + value + "";
    SpaceFacts();
    TrimSpacePadded(" ", value, "");
    assert IsKeyLine(s, |key|);
  }

  lemma SpaceFacts()
    ensures GoStrings.Blank(" ") && GoStrings.Blank("") && !IsSpace('/')
  {
  }

  /** A key line is read as what it says. */
  lemma KeyLineKind(key: string, value: string)
    requires key != "" && AllWord(key) && Plain(value) && value[|value| - 1] != ' '
    ensures KindOf(KeyLine(key, value)) == KeyValue(key, value)
    ensures TrimSpace(KeyLine(key, value)) == KeyLine(key, value) && Printable(KeyLine(key, value))
  {
    hide IsWord, AllWord, IsSpace, Strip, TrimSpace, KindOfText, Plain;
    var s := key + (":" + (" " + value));
    assert key + ": " + value == s;
    AllWordFacts(key);
    PlainFacts(value);
    KeyTextKind(key, value);
    SpaceFacts();
    StripOf(s);
    TrimSpaceTrimmed(KeyLine(key, value));
  }
}
