/**
 The schema-less protobuf decoder: internal/bodydecoder/protobuf.go. The readers
 it calls for tags, varints, fixed-size values, length-delimited values and
 groups are written from the Protocol Buffers "Encoding" specification.
 */
module Protobuf {
  import opened Common

  /** A reader either fails or yields a value and the number of bytes it used. */
  datatype Read<+T> = Bad | Read(value: T, size: nat)

  // ----- varints -----

  /** What a varint may still reach when `i` of its ten bytes are used: 2^(64 - 7i). */
  function Cap(i: nat): (n: nat)
    requires i <= 9
    ensures n >= 2
    decreases 9 - i
  {
    if i == 9 then 2 else 128 * Cap(i + 1)
  }

  const UINT64_END := Cap(0)

  function VarintAt(b: bytes, i: nat): (r: Read<nat>)
    requires i <= 9
    ensures r.Read? ==> 1 <= r.size <= |b| && r.value < Cap(i)
    decreases 9 - i
  {
    if b == [] then Bad
    else if b[0] < 128 then (if i == 9 && b[0] > 1 then Bad else Read(b[0], 1))
    else if i == 9 then Bad
    else
      match VarintAt(b[1..], i + 1)
      case Bad => Bad
      case Read(v, n) => Read(b[0] - 128 + 128 * v, n + 1)
  }

  function ConsumeVarint(b: bytes): (r: Read<nat>)
    ensures r.Read? ==> 1 <= r.size <= |b| && r.value < UINT64_END
  {
    VarintAt(b, 0)
  }

  function PutVarint(v: nat): (b: bytes)
    ensures |b| >= 1
  {
    if v < 128 then [v] else [128 + v % 128] + PutVarint(v / 128)
  }

  lemma {:induction false} VarintRoundTrip(v: nat, i: nat)
    requires i <= 9 && v < Cap(i)
    ensures VarintAt(PutVarint(v), i) == Read(v, |PutVarint(v)|)
    decreases 9 - i
  {
    if v >= 128 {
      var b := PutVarint(v);
      assert i < 9;
      VarintRoundTrip(v / 128, i + 1);
      assert b[1..] == PutVarint(v / 128);
    }
  }

  // ----- tags -----

  const VARINT := 0
  const FIXED64 := 1
  const BYTES := 2
  const START_GROUP := 3
  const END_GROUP := 4
  const FIXED32 := 5

  /** The readers take any positive number an int32 can hold. */
  const MAX_READ_NUMBER := 0x7FFF_FFFF

  datatype Tag = Tag(num: nat, wtype: nat)

  function ConsumeTag(b: bytes): (r: Read<Tag>)
    ensures r.Read? ==> 1 <= r.size <= |b| && 1 <= r.value.num && r.value.wtype < 8
  {
    match ConsumeVarint(b)
    case Bad => Bad
    case Read(v, n) =>
      if 1 <= v / 8 <= MAX_READ_NUMBER then Read(Tag(v / 8, v % 8), n) else Bad
  }

  function PutTag(num: nat, wtype: nat): (b: bytes)
    ensures |b| >= 1
  {
    PutVarint(num * 8 + wtype)
  }

  lemma TagRoundTrip(num: nat, wtype: nat)
    requires 1 <= num <= MAX_READ_NUMBER && wtype < 8
    ensures ConsumeTag(PutTag(num, wtype)) == Read(Tag(num, wtype), |PutTag(num, wtype)|)
  {
    CapZero();
    VarintRoundTrip(num * 8 + wtype, 0);
  }

  lemma CapZero()
    ensures UINT64_END == 0x1_0000_0000_0000_0000
  {
    assert Cap(9) == 2 && Cap(8) == 0x100 && Cap(7) == 0x8000 && Cap(6) == 0x40_0000;
    assert Cap(5) == 0x2000_0000 && Cap(4) == 0x10_0000_0000 && Cap(3) == 0x800_0000_0000;
    assert Cap(2) == 0x4_0000_0000_0000 && Cap(1) == 0x200_0000_0000_0000;
  }

  // ----- values -----

  /** A little-endian number. */
  function LittleEndian(b: bytes): nat {
    if b == [] then 0 else b[0] + 256 * LittleEndian(b[1..])
  }

  function PutLittleEndian(v: nat, size: nat): (b: bytes)
    ensures |b| == size
  {
    if size == 0 then [] else [v % 256] + PutLittleEndian(v / 256, size - 1)
  }

  function Pow256(k: nat): nat {
    if k == 0 then 1 else 256 * Pow256(k - 1)
  }

  lemma {:induction false} LittleEndianRoundTrip(v: nat, size: nat)
    requires v < Pow256(size)
    ensures LittleEndian(PutLittleEndian(v, size)) == v
  {
    if size > 0 {
      LittleEndianRoundTrip(v / 256, size - 1);
      assert PutLittleEndian(v, size)[1..] == PutLittleEndian(v / 256, size - 1);
    }
  }

  function ConsumeFixed(b: bytes, size: nat): (r: Read<nat>) {
    if |b| < size then Bad else Read(LittleEndian(b[..size]), size)
  }

  function ConsumeBytes(b: bytes): (r: Read<bytes>)
    ensures r.Read? ==> |r.value| < r.size <= |b|
  {
    match ConsumeVarint(b)
    case Bad => Bad
    case Read(m, n) => if m > |b| - n then Bad else Read(b[n..n + m], n + m)
  }

  /** How many bytes the value of a field takes. */
  function SkipValue(tag: Tag, b: bytes): (r: Read<()>)
    ensures r.Read? ==> r.size <= |b|
    decreases |b|, 2
  {
    match tag.wtype
    case VARINT => (match ConsumeVarint(b) case Bad => Bad case Read(_, n) => Read((), n))
    case FIXED32 => (match ConsumeFixed(b, 4) case Bad => Bad case Read(_, n) => Read((), n))
    case FIXED64 => (match ConsumeFixed(b, 8) case Bad => Bad case Read(_, n) => Read((), n))
    case BYTES => (match ConsumeBytes(b) case Bad => Bad case Read(_, n) => Read((), n))
    case START_GROUP => (match SkipGroup(tag.num, b) case Bad => Bad case Read(_, n) => Read((), n))
    case _ => Bad
  }

  /** A tag together with its value. */
  function SkipField(b: bytes): (r: Read<Tag>)
    ensures r.Read? ==> 1 <= r.size <= |b|
    decreases |b|, 0
  {
    match ConsumeTag(b)
    case Bad => Bad
    case Read(tag, t) =>
      match SkipValue(tag, b[t..])
      case Bad => Bad
      case Read(_, n) => Read(tag, t + n)
  }

  /** The length of a group's content, and of the content with its end marker. */
  function SkipGroup(num: nat, b: bytes): (r: Read<nat>)
    ensures r.Read? ==> r.value < r.size <= |b|
    decreases |b|, 1
  {
    match ConsumeTag(b)
    case Bad => Bad
    case Read(tag, t) =>
      if tag.wtype == END_GROUP then (if tag.num == num then Read(0, t) else Bad)
      else
        match SkipField(b)
        case Bad => Bad
        case Read(_, n) =>
          match SkipGroup(num, b[n..])
          case Bad => Bad
          case Read(len, size) => Read(n + len, n + size)
  }

  function ConsumeGroup(num: nat, b: bytes): (r: Read<bytes>)
    ensures r.Read? ==> |r.value| < r.size <= |b|
  {
    match SkipGroup(num, b)
    case Bad => Bad
    case Read(len, size) => Read(b[..len], size)
  }

  // ----- decoded messages -----

  /**
   A single decoded value. `Leaf` holds a length-delimited value that is not a
   message; whether it is shown as text or base64 is outside this model, and so
   is the choice between integer and floating point for fixed-size values.
   */
  datatype Atom =
    | Varint(value: nat)
    | Fixed32(bits: nat)
    | Fixed64(bits: nat)
    | Leaf(content: bytes)
    | Message(fields: seq<Entry>)

  /** Once a field number repeats, its values become an array. */
  datatype Val = One(atom: Atom) | Many(atoms: seq<Atom>)

  datatype Entry = Entry(num: nat, val: Val)

  datatype Field = Field(num: nat, atom: Atom)

  function Atoms(v: Val): seq<Atom> {
    match v
    case One(a) => [a]
    case Many(s) => s
  }

  function Find(o: seq<Entry>, num: nat): (i: nat)
    ensures i <= |o|
    ensures i < |o| ==> o[i].num == num
    ensures forall k :: 0 <= k < i ==> o[k].num != num
  {
    if o == [] || o[0].num == num then 0 else 1 + Find(o[1..], num)
  }

  /** Add one value: to the entry of its number, or as a new last entry. */
  function Append(o: seq<Entry>, f: Field): seq<Entry> {
    var i := Find(o, f.num);
    if i < |o| then o[i := Entry(f.num, Many(Atoms(o[i].val) + [f.atom]))]
    else o + [Entry(f.num, One(f.atom))]
  }

  function Fold(o: seq<Entry>, fs: seq<Field>): seq<Entry>
    decreases |fs|
  {
    if fs == [] then o else Fold(Append(o, fs[0]), fs[1..])
  }

  // ----- decoding -----

  /** The value that follows a tag. */
  function ParseValue(tag: Tag, b: bytes): (r: Read<Atom>)
    ensures r.Read? ==> r.size <= |b|
    decreases |b|, 4
  {
    match tag.wtype
    case VARINT => (match ConsumeVarint(b) case Bad => Bad case Read(v, n) => Read(Varint(v), n))
    case FIXED32 => (match ConsumeFixed(b, 4) case Bad => Bad case Read(v, n) => Read(Fixed32(v), n))
    case FIXED64 => (match ConsumeFixed(b, 8) case Bad => Bad case Read(v, n) => Read(Fixed64(v), n))
    case BYTES => (match ConsumeBytes(b) case Bad => Bad case Read(v, n) => Read(Interpreted(v), n))
    case START_GROUP =>
      (match ConsumeGroup(tag.num, b)
       case Bad => Bad
       case Read(v, n) => match Decoded(v) case None => Bad case Some(o) => Read(Message(o), n))
    case _ => Bad
  }

  /** The field at the front of a message. */
  function ParseField(b: bytes): (r: Read<Field>)
    ensures r.Read? ==> 1 <= r.size <= |b|
    decreases |b|, 0
  {
    match ConsumeTag(b)
    case Bad => Bad
    case Read(tag, t) =>
      match ParseValue(tag, b[t..])
      case Bad => Bad
      case Read(a, n) => Read(Field(tag.num, a), t + n)
  }

  /** All fields of a message in wire order. */
  function Parse(b: bytes): Option<seq<Field>>
    decreases |b|, 1
  {
    if |b| == 0 then Some([])
    else
      match ParseField(b)
      case Bad => None
      case Read(f, n) => Prepend([f], Parse(b[n..]))
  }

  function Prepend(fs: seq<Field>, rest: Option<seq<Field>>): Option<seq<Field>> {
    match rest
    case None => None
    case Some(more) => Some(fs + more)
  }

  function Decoded(b: bytes): Option<seq<Entry>>
    decreases |b|, 2
  {
    match Parse(b)
    case None => None
    case Some(fs) => Some(Fold([], fs))
  }

  function Interpreted(b: bytes): Atom
    decreases |b|, 3
  {
    match Decoded(b)
    case None => Leaf(b)
    case Some(o) => if |o| > 0 then Message(o) else Leaf(b)
  }

  lemma FindIs(o: seq<Entry>, num: nat, i: nat)
    requires i <= |o| && (i < |o| ==> o[i].num == num)
    requires forall k :: 0 <= k < i ==> o[k].num != num
    ensures Find(o, num) == i
  {
  }

  method AppendField(o: seq<Entry>, num: nat, val: Atom) returns (r: seq<Entry>)
    ensures r == Append(o, Field(num, val))
  {
    for i := 0 to |o|
      invariant forall k :: 0 <= k < i ==> o[k].num != num
    {
      if o[i].num == num {
        FindIs(o, num, i);
        assert forall a: Atom :: [a] + [val] == [a, val];
        match o[i].val {
          case Many(existing) => r := o[i := Entry(num, Many(existing + [val]))];
          case One(existing) => r := o[i := Entry(num, Many([existing, val]))];
        }
        return;
      }
    }
    FindIs(o, num, |o|);
    return o + [Entry(num, One(val))];
  }

  /** What is left to do when `fields` is decoded and `b` is not. */
  function Continued(fields: seq<Entry>, b: bytes): Option<seq<Entry>> {
    match Parse(b)
    case None => None
    case Some(fs) => Some(Fold(fields, fs))
  }

  lemma ContinuedStep(fields: seq<Entry>, b: bytes)
    requires |b| > 0
    ensures var f := ParseField(b);
            Continued(fields, b) == if f.Bad? then None else Continued(Append(fields, f.value), b[f.size..])
  {
  }

  lemma ContinuedStart(b: bytes)
    ensures Continued([], b) == Decoded(b)
  {
  }

  lemma ContinuedDone(fields: seq<Entry>)
    ensures Continued(fields, []) == Some(fields)
  {
    ParseNothing();
  }

  method DecodeWireFields(message: bytes) returns (r: Option<seq<Entry>>)
    ensures r == Decoded(message)
    decreases |message|, 0
  {
    hide Continued, Decoded, Append, Parse, ConsumeTag, ConsumeVarint, ConsumeFixed, ConsumeBytes, ConsumeGroup;
    ContinuedStart(message);
    var b := message;
    var fields: seq<Entry> := [];
    while |b| > 0
      invariant |b| <= |message|
      invariant Continued(fields, b) == Decoded(message)
      decreases |b|
    {
      ContinuedStep(fields, b);
      ghost var was := b;
      var tag := ConsumeTag(b);
      if tag.Bad? {
        return None;
      }
      var num := tag.value.num;
      b := b[tag.size..];
      var val: Atom;
      var consumed: nat;
      match tag.value.wtype {
        case VARINT =>
          var v := ConsumeVarint(b);
          if v.Bad? {
            return None;
          }
          val, consumed := Varint(v.value), v.size;
        case FIXED32 =>
          var v := ConsumeFixed(b, 4);
          if v.Bad? {
            return None;
          }
          val, consumed := Fixed32(v.value), v.size;
        case FIXED64 =>
          var v := ConsumeFixed(b, 8);
          if v.Bad? {
            return None;
          }
          val, consumed := Fixed64(v.value), v.size;
        case BYTES =>
          var v := ConsumeBytes(b);
          if v.Bad? {
            return None;
          }
          consumed := v.size;
          val := InterpretBytes(v.value);
        case START_GROUP =>
          var v := ConsumeGroup(num, b);
          if v.Bad? {
            return None;
          }
          consumed := v.size;
          var nested := DecodeWireFields(v.value);
          if nested.None? {
            return None;
          }
          val := Message(nested.value);
        case _ =>
          return None;
      }
      assert ParseField(was) == Read(Field(num, val), tag.size + consumed);
      b := b[consumed..];
      assert b == was[tag.size + consumed..];
      fields := AppendField(fields, num, val);
    }
    assert b == [];
    ContinuedDone(fields);
    return Some(fields);
  }

  method InterpretBytes(b: bytes) returns (r: Atom)
    ensures r == Interpreted(b)
    decreases |b|, 1
  {
    var nested := DecodeWireFields(b);
    if nested.Some? && |nested.value| > 0 {
      return Message(nested.value);
    }
    return Leaf(b);
  }

  // ----- reading from a longer or a shorter message -----

  /** A reader's result depends only on the bytes it uses. */
  ghost predicate Local<T>(short: Read<T>, long: Read<T>, available: nat) {
    && (short.Read? ==> long == short)
    && (long.Read? && long.size <= available ==> short == long)
  }

  lemma {:induction false} VarintLocal(x: bytes, y: bytes, i: nat)
    requires i <= 9
    ensures Local(VarintAt(x, i), VarintAt(x + y, i), |x|)
    decreases 9 - i
  {
    hide VarintAt;
    if x != [] && i < 9 {
      VarintLocal(x[1..], y, i + 1);
      TailOfSum(x, y);
      VarintStepLocal(x, y, i);
    } else {
      VarintEndLocal(x, y, i);
    }
  }

  lemma VarintStepLocal(x: bytes, y: bytes, i: nat)
    requires x != [] && i < 9 && (x + y)[1..] == x[1..] + y
    requires Local(VarintAt(x[1..], i + 1), VarintAt(x[1..] + y, i + 1), |x| - 1)
    ensures Local(VarintAt(x, i), VarintAt(x + y, i), |x|)
  {
    assert (x + y)[0] == x[0];
  }

  lemma VarintEndLocal(x: bytes, y: bytes, i: nat)
    requires i <= 9 && (x == [] || i == 9)
    ensures Local(VarintAt(x, i), VarintAt(x + y, i), |x|)
  {
    assert x != [] ==> (x + y)[0] == x[0];
  }

  lemma TailOfSum(x: bytes, y: bytes)
    requires x != []
    ensures (x + y)[1..] == x[1..] + y
  {
  }

  lemma TagLocal(x: bytes, y: bytes)
    ensures Local(ConsumeTag(x), ConsumeTag(x + y), |x|)
  {
    VarintLocal(x, y, 0);
  }

  lemma FixedLocal(x: bytes, y: bytes, size: nat)
    ensures Local(ConsumeFixed(x, size), ConsumeFixed(x + y, size), |x|)
  {
    if size <= |x| {
      assert (x + y)[..size] == x[..size];
    }
  }

  lemma BytesLocal(x: bytes, y: bytes)
    ensures Local(ConsumeBytes(x), ConsumeBytes(x + y), |x|)
  {
    hide VarintAt;
    VarintLocal(x, y, 0);
    var v := ConsumeVarint(x);
    if v.Read? && v.size + v.value <= |x| {
      assert (x + y)[v.size..v.size + v.value] == x[v.size..v.size + v.value];
    }
  }

  lemma {:induction false} SkipValueLocal(tag: Tag, x: bytes, y: bytes)
    ensures Local(SkipValue(tag, x), SkipValue(tag, x + y), |x|)
    decreases |x|, 2
  {
    match tag.wtype
    case VARINT => VarintLocal(x, y, 0);
    case FIXED32 => FixedLocal(x, y, 4);
    case FIXED64 => FixedLocal(x, y, 8);
    case BYTES => BytesLocal(x, y);
    case START_GROUP => SkipGroupLocal(tag.num, x, y);
    case _ =>
  }

  lemma {:induction false} SkipFieldLocal(x: bytes, y: bytes)
    ensures Local(SkipField(x), SkipField(x + y), |x|)
    decreases |x|, 0
  {
    hide ConsumeTag, SkipValue;
    TagLocal(x, y);
    var t := ConsumeTag(x);
    if t.Read? {
      SkipValueLocal(t.value, x[t.size..], y);
      assert (x + y)[t.size..] == x[t.size..] + y;
    }
  }

  lemma SkippedHasTag(b: bytes)
    requires SkipField(b).Read?
    ensures ConsumeTag(b).Read?
  {
  }

  lemma {:induction false} SkipGroupLocal(num: nat, x: bytes, y: bytes)
    ensures Local(SkipGroup(num, x), SkipGroup(num, x + y), |x|)
    decreases |x|, 1
  {
    hide ConsumeTag, SkipField;
    TagLocal(x, y);
    SkipFieldLocal(x, y);
    var t, f := ConsumeTag(x), SkipField(x);
    if t.Read? && t.value.wtype == END_GROUP {
    } else if f.Read? {
      SkippedHasTag(x);
      SkipGroupLocal(num, x[f.size..], y);
      assert (x + y)[f.size..] == x[f.size..] + y;
    } else if SkipGroup(num, x + y).Read? {
      assert SkipGroup(num, x + y).size > |x|;
    }
  }

  lemma GroupLocal(num: nat, x: bytes, y: bytes)
    ensures Local(ConsumeGroup(num, x), ConsumeGroup(num, x + y), |x|)
  {
    SkipGroupLocal(num, x, y);
    var g := SkipGroup(num, x);
    if g.Read? {
      assert (x + y)[..g.value] == x[..g.value];
    }
  }

  lemma ValueLocal(tag: Tag, x: bytes, y: bytes)
    ensures Local(ParseValue(tag, x), ParseValue(tag, x + y), |x|)
  {
    match tag.wtype
    case VARINT => VarintLocal(x, y, 0);
    case FIXED32 => FixedLocal(x, y, 4);
    case FIXED64 => FixedLocal(x, y, 8);
    case BYTES => BytesLocal(x, y);
    case START_GROUP => GroupLocal(tag.num, x, y);
    case _ =>
  }

  lemma FieldLocal(x: bytes, y: bytes)
    ensures Local(ParseField(x), ParseField(x + y), |x|)
  {
    hide ConsumeTag, ParseValue;
    TagLocal(x, y);
    var t := ConsumeTag(x);
    if t.Read? {
      ValueLocal(t.value, x[t.size..], y);
      assert (x + y)[t.size..] == x[t.size..] + y;
    }
  }

  // ----- concatenated messages -----

  lemma PrependTwice(a: seq<Field>, b: seq<Field>, rest: Option<seq<Field>>)
    ensures Prepend(a, Prepend(b, rest)) == Prepend(a + b, rest)
  {
    if rest.Some? {
      assert a + (b + rest.value) == a + b + rest.value;
    }
  }

  /** When `x` parses, the fields of `x + y` are those of `x` and then those of `y`. */
  lemma {:induction false} ParseConcat(x: bytes, y: bytes)
    requires Parse(x).Some?
    ensures Parse(x + y) == Prepend(Parse(x).value, Parse(y))
    decreases |x|
  {
    hide ParseField;
    if |x| == 0 {
      assert x + y == y;
      assert Parse(y).Some? ==> [] + Parse(y).value == Parse(y).value;
    } else {
      var f := ParseField(x);
      FieldLocal(x, y);
      assert (x + y)[f.size..] == x[f.size..] + y;
      ParseConcat(x[f.size..], y);
      PrependTwice([f.value], Parse(x[f.size..]).value, Parse(y));
    }
  }

  lemma {:induction false} FoldConcat(o: seq<Entry>, a: seq<Field>, b: seq<Field>)
    ensures Fold(o, a + b) == Fold(Fold(o, a), b)
    decreases |a|
  {
    hide Append;
    if a == [] {
      assert a + b == b;
    } else {
      FoldConcat(Append(o, a[0]), a[1..], b);
      assert (a + b)[1..] == a[1..] + b && (a + b)[0] == a[0];
    }
  }

  /** Decoding two messages in a row adds the fields of the second to the first. */
  lemma DecodeConcat(x: bytes, y: bytes)
    requires Decoded(x).Some?
    ensures Decoded(x + y).Some? <==> Decoded(y).Some?
    ensures Decoded(y).Some? ==> Decoded(x + y) == Some(Fold(Decoded(x).value, Parse(y).value))
  {
    ParseConcat(x, y);
    if Parse(y).Some? {
      FoldConcat([], Parse(x).value, Parse(y).value);
    }
  }

  // ----- grouping by field number -----

  /** The values of one field number in wire order. */
  function ValuesOf(fs: seq<Field>, num: nat): seq<Atom> {
    if fs == [] then []
    else ValuesOf(fs[..|fs| - 1], num) + (if fs[|fs| - 1].num == num then [fs[|fs| - 1].atom] else [])
  }

  /** The field numbers in the order in which they first occur. */
  function FirstOccurrences(fs: seq<Field>): seq<nat> {
    if fs == [] then []
    else
      var before := FirstOccurrences(fs[..|fs| - 1]);
      if fs[|fs| - 1].num in before then before else before + [fs[|fs| - 1].num]
  }

  function Keys(o: seq<Entry>): seq<nat> {
    seq(|o|, i requires 0 <= i < |o| => o[i].num)
  }

  ghost predicate Grouped(o: seq<Entry>, fs: seq<Field>) {
    && Keys(o) == FirstOccurrences(fs)
    && (forall i, j :: 0 <= i < j < |o| ==> o[i].num != o[j].num)
    && (forall i :: 0 <= i < |o| ==> Atoms(o[i].val) == ValuesOf(fs, o[i].num))
    && (forall i :: 0 <= i < |o| ==> |ValuesOf(fs, o[i].num)| >= 1)
    && (forall i :: 0 <= i < |o| ==> (o[i].val.Many? <==> |ValuesOf(fs, o[i].num)| > 1))
  }

  lemma {:induction false} NoValuesWithoutKey(fs: seq<Field>, num: nat)
    requires num !in FirstOccurrences(fs)
    ensures ValuesOf(fs, num) == []
  {
    if fs != [] {
      NoValuesWithoutKey(fs[..|fs| - 1], num);
    }
  }

  lemma OccurrenceStep(before: seq<Field>, f: Field, num: nat)
    ensures ValuesOf(before + [f], num) == ValuesOf(before, num) + (if f.num == num then [f.atom] else [])
    ensures FirstOccurrences(before + [f]) ==
            FirstOccurrences(before) + (if f.num in FirstOccurrences(before) then [] else [f.num])
  {
    assert (before + [f])[..|before|] == before;
  }

  lemma AppendToExisting(o: seq<Entry>, before: seq<Field>, f: Field, i: nat)
    requires Grouped(o, before) && i < |o| && o[i].num == f.num
    ensures Grouped(o[i := Entry(f.num, Many(Atoms(o[i].val) + [f.atom]))], before + [f])
  {
    hide ValuesOf, FirstOccurrences;
    var r := o[i := Entry(f.num, Many(Atoms(o[i].val) + [f.atom]))];
    assert f.num == Keys(o)[i];
    assert Keys(r) == Keys(o);
    OccurrenceStep(before, f, f.num);
    assert ValuesOf(before, f.num) == Atoms(o[i].val) && |ValuesOf(before, f.num)| >= 1;
    forall k | 0 <= k < |r| ensures Atoms(r[k].val) == ValuesOf(before + [f], r[k].num)
    ensures r[k].val.Many? <==> |ValuesOf(before + [f], r[k].num)| > 1 {
      OccurrenceStep(before, f, r[k].num);
    }
  }

  lemma AppendNew(o: seq<Entry>, before: seq<Field>, f: Field)
    requires Grouped(o, before) && forall k :: 0 <= k < |o| ==> o[k].num != f.num
    ensures Grouped(o + [Entry(f.num, One(f.atom))], before + [f])
  {
    hide ValuesOf, FirstOccurrences;
    var r := o + [Entry(f.num, One(f.atom))];
    assert f.num !in Keys(o);
    NoValuesWithoutKey(before, f.num);
    OccurrenceStep(before, f, f.num);
    assert Keys(r) == Keys(o) + [f.num];
    forall k | 0 <= k < |r| ensures Atoms(r[k].val) == ValuesOf(before + [f], r[k].num)
    ensures r[k].val.Many? <==> |ValuesOf(before + [f], r[k].num)| > 1 {
      OccurrenceStep(before, f, r[k].num);
    }
  }

  /** Appending keeps every value under its number, in order, and each number once. */
  lemma AppendKeepsGrouped(o: seq<Entry>, before: seq<Field>, f: Field)
    requires Grouped(o, before)
    ensures Grouped(Append(o, f), before + [f])
  {
    if Find(o, f.num) < |o| {
      AppendToExisting(o, before, f, Find(o, f.num));
    } else {
      AppendNew(o, before, f);
    }
  }

  lemma {:induction false} FoldIsGrouped(fs: seq<Field>)
    ensures Grouped(Fold([], fs), fs)
  {
    if fs != [] {
      var before, f := fs[..|fs| - 1], fs[|fs| - 1];
      FoldIsGrouped(before);
      assert fs == before + [f];
      FoldConcat([], before, [f]);
      assert Fold(Fold([], before), [f]) == Append(Fold([], before), f) by {
        assert [f][1..] == [];
      }
      AppendKeepsGrouped(Fold([], before), before, f);
    }
  }

  /** A decoded message lists each number once, with exactly its values in wire order. */
  lemma DecodedIsGrouped(b: bytes)
    requires Decoded(b).Some?
    ensures Grouped(Decoded(b).value, Parse(b).value)
  {
    FoldIsGrouped(Parse(b).value);
  }

  lemma ParseNothing()
    ensures Parse([]) == Some([])
  {
  }

  lemma ParseSingle(b: bytes)
    requires ParseField(b).Read? && ParseField(b).size == |b|
    ensures Parse(b) == Some([ParseField(b).value])
  {
    var f := ParseField(b).value;
    ParseNothing();
    assert b[|b|..] == [];
    assert [f] + [] == [f];
  }

  // ----- which messages decode -----

  lemma {:induction false} SkipValueAgrees(tag: Tag, b: bytes)
    ensures SkipValue(tag, b).Read? <==> ParseValue(tag, b).Read?
    ensures SkipValue(tag, b).Read? ==> SkipValue(tag, b).size == ParseValue(tag, b).size
    decreases |b|, 2
  {
    match tag.wtype
    case START_GROUP => GroupContentParses(tag.num, b);
    case _ =>
  }

  /** Stepping over a field is possible exactly when it can be decoded, with the same length. */
  lemma {:induction false} SkipAgreesWithParse(b: bytes)
    ensures SkipField(b).Read? <==> ParseField(b).Read?
    ensures SkipField(b).Read? ==> SkipField(b).size == ParseField(b).size
    decreases |b|, 0
  {
    var t := ConsumeTag(b);
    if t.Read? {
      SkipValueAgrees(t.value, b[t.size..]);
    }
  }

  /** The content of a group that was stepped over is a message that decodes. */
  lemma {:induction false} GroupContentParses(num: nat, b: bytes)
    ensures SkipGroup(num, b).Read? ==> Parse(b[..SkipGroup(num, b).value]).Some?
    decreases |b|, 1
  {
    hide ParseField, SkipField, Parse, ConsumeTag;
    ParseNothing();
    var g, t := SkipGroup(num, b), ConsumeTag(b);
    if g.Read? && t.value.wtype != END_GROUP {
      SkipAgreesWithParse(b);
      var n := ParseField(b).size;
      var first, rest := b[..n], b[n..];
      GroupContentParses(num, rest);
      assert b == first + rest;
      FieldLocal(first, rest);
      ParseSingle(first);
      ParseConcat(first, rest[..g.value - n]);
      assert b[..g.value] == first + rest[..g.value - n];
    }
  }

  /** Every field can be stepped over, up to the very end. */
  predicate WellFormed(b: bytes)
    decreases |b|
  {
    |b| == 0 || (SkipField(b).Read? && WellFormed(b[SkipField(b).size..]))
  }

  /** A message decodes exactly when it is well-formed; no content makes it fail. */
  lemma {:induction false} DecodesIffWellFormed(b: bytes)
    ensures Decoded(b).Some? <==> WellFormed(b)
    decreases |b|
  {
    if |b| > 0 {
      SkipAgreesWithParse(b);
      if SkipField(b).Read? {
        DecodesIffWellFormed(b[SkipField(b).size..]);
      }
    }
  }

  /** A value is shown as a message exactly when it is a well-formed one with a field, else as it is. */
  lemma MessageIffWellFormed(b: bytes)
    ensures Interpreted(b).Message? <==> b != [] && WellFormed(b)
    ensures !Interpreted(b).Message? ==> Interpreted(b) == Leaf(b)
    ensures Interpreted(b).Message? ==> Interpreted(b).fields != [] && Decoded(b) == Some(Interpreted(b).fields)
  {
    DecodesIffWellFormed(b);
    if b == [] {
      ParseNothing();
    } else if Decoded(b).Some? {
      hide Fold, ParseField, WellFormed;
      FoldNotEmpty([], Parse(b).value);
    }
  }

  lemma {:induction false} FoldNotEmpty(o: seq<Entry>, fs: seq<Field>)
    requires o != [] || fs != []
    ensures Fold(o, fs) != []
    decreases |fs|
  {
    if fs != [] {
      FoldNotEmpty(Append(o, fs[0]), fs[1..]);
    }
  }

  // ----- encoding -----

  /** A field as a writer of the wire format sees it. */
  datatype WireField =
    | VarintField(num: nat, value: nat)
    | Fixed32Field(num: nat, bits: nat)
    | Fixed64Field(num: nat, bits: nat)
    | BytesField(num: nat, content: bytes)
    | GroupField(num: nat, fields: seq<WireField>)
  {
    function WireType(): nat {
      match this
      case VarintField(_, _) => VARINT
      case Fixed32Field(_, _) => FIXED32
      case Fixed64Field(_, _) => FIXED64
      case BytesField(_, _) => BYTES
      case GroupField(_, _) => START_GROUP
    }
  }

  /** The largest field number of the specification. */
  const MAX_NUMBER := 0x1FFF_FFFF

  predicate Valid(f: WireField)
    decreases f, 0
  {
    1 <= f.num <= MAX_NUMBER &&
    match f
    case VarintField(_, v) => v < UINT64_END
    case Fixed32Field(_, bits) => bits < Pow256(4)
    case Fixed64Field(_, bits) => bits < Pow256(8)
    case BytesField(_, content) => |content| < UINT64_END
    case GroupField(_, fields) => AllValid(fields)
  }

  predicate AllValid(fs: seq<WireField>)
    decreases fs, 1
  {
    fs == [] || (Valid(fs[0]) && AllValid(fs[1..]))
  }

  function EncodeValue(f: WireField): bytes
    decreases f, 0
  {
    match f
    case VarintField(_, v) => PutVarint(v)
    case Fixed32Field(_, bits) => PutLittleEndian(bits, 4)
    case Fixed64Field(_, bits) => PutLittleEndian(bits, 8)
    case BytesField(_, content) => PutVarint(|content|) + content
    case GroupField(num, fields) => EncodeAll(fields) + PutTag(num, END_GROUP)
  }

  function EncodeAll(fs: seq<WireField>): bytes
    decreases fs, 1
  {
    if fs == [] then [] else Encode(fs[0].num, fs[0].WireType(), EncodeValue(fs[0])) + EncodeAll(fs[1..])
  }

  function Encode(num: nat, wtype: nat, value: bytes): (b: bytes)
    ensures |b| >= 1
  {
    PutTag(num, wtype) + value
  }

  /** The value a reader should see. */
  function Expected(f: WireField): Atom
    decreases f, 0
  {
    match f
    case VarintField(_, v) => Varint(v)
    case Fixed32Field(_, bits) => Fixed32(bits)
    case Fixed64Field(_, bits) => Fixed64(bits)
    case BytesField(_, content) => Interpreted(content)
    case GroupField(_, fields) => Message(Fold([], ExpectedAll(fields)))
  }

  function ExpectedAll(fs: seq<WireField>): seq<Field>
    decreases fs, 1
  {
    if fs == [] then [] else [Field(fs[0].num, Expected(fs[0]))] + ExpectedAll(fs[1..])
  }

  lemma FixedRoundTrip(v: nat, size: nat)
    requires v < Pow256(size)
    ensures ConsumeFixed(PutLittleEndian(v, size), size) == Read(v, size)
  {
    LittleEndianRoundTrip(v, size);
    var b := PutLittleEndian(v, size);
    assert b[..size] == b;
  }

  lemma BytesRoundTrip(content: bytes)
    requires |content| < UINT64_END
    ensures var b := PutVarint(|content|) + content; ConsumeBytes(b) == Read(content, |b|)
  {
    hide VarintAt, PutVarint;
    var p := PutVarint(|content|);
    VarintRoundTrip(|content|, 0);
    VarintLocal(p, content, 0);
    assert (p + content)[|p|..|p| + |content|] == content;
  }

  lemma {:induction false} ValueRoundTrip(f: WireField)
    requires Valid(f)
    ensures ParseValue(Tag(f.num, f.WireType()), EncodeValue(f)) == Read(Expected(f), |EncodeValue(f)|)
    decreases f, 0
  {
    hide VarintAt, PutVarint, ConsumeFixed, PutLittleEndian, ConsumeBytes, SkipGroup, Parse, Fold;
    match f
    case VarintField(_, x) => VarintRoundTrip(x, 0);
    case Fixed32Field(_, bits) => FixedRoundTrip(bits, 4);
    case Fixed64Field(_, bits) => FixedRoundTrip(bits, 8);
    case BytesField(_, content) => BytesRoundTrip(content);
    case GroupField(num, fields) =>
      FieldsRoundTrip(fields);
      SkipOverFields(num, fields);
      assert EncodeValue(f)[..|EncodeAll(fields)|] == EncodeAll(fields);
  }

  /** One encoded field is read back as it was written. */
  lemma {:induction false} FieldRoundTrip(f: WireField)
    requires Valid(f)
    ensures var b := Encode(f.num, f.WireType(), EncodeValue(f));
            ParseField(b) == Read(Field(f.num, Expected(f)), |b|)
    decreases f, 1
  {
    var t, v := PutTag(f.num, f.WireType()), EncodeValue(f);
    TagRoundTrip(f.num, f.WireType());
    TagLocal(t, v);
    assert (t + v)[|t|..] == v;
    ValueRoundTrip(f);
  }

  /** A list of encoded fields is read back as it was written. */
  lemma {:induction false} FieldsRoundTrip(fs: seq<WireField>)
    requires AllValid(fs)
    ensures Parse(EncodeAll(fs)) == Some(ExpectedAll(fs))
    decreases fs, 2
  {
    if fs != [] {
      var b := Encode(fs[0].num, fs[0].WireType(), EncodeValue(fs[0]));
      FieldRoundTrip(fs[0]);
      FieldsRoundTrip(fs[1..]);
      ParseSingle(b);
      ParseConcat(b, EncodeAll(fs[1..]));
    }
  }

  lemma SkipGroupUnfold(num: nat, b: bytes, tag: Read<Tag>, f: Read<Tag>, rest: Read<nat>)
    requires tag == ConsumeTag(b) && tag.Read? && tag.value.wtype != END_GROUP
    requires f == SkipField(b) && f.Read?
    requires rest == SkipGroup(num, b[f.size..]) && rest.Read?
    ensures SkipGroup(num, b) == Read(f.size + rest.value, f.size + rest.size)
  {
    hide ConsumeTag, SkipField;
  }

  lemma ParsedIsNoEnd(b: bytes)
    requires ParseField(b).Read?
    ensures ConsumeTag(b).Read? && ConsumeTag(b).value.wtype != END_GROUP
  {
  }

  /** Inside a group, a field that decodes is stepped over. */
  lemma SkipGroupStep(num: nat, b: bytes, rest: bytes, g: Read<nat>)
    requires ParseField(b).Read? && ParseField(b).size == |b|
    requires g == SkipGroup(num, rest) && g.Read?
    ensures SkipGroup(num, b + rest) == Read(|b| + g.value, |b| + g.size)
  {
    hide SkipGroup, SkipField, ConsumeTag, ParseField;
    var whole, t, f := b + rest, ConsumeTag(b), SkipField(b);
    assert t.Read? && t.value.wtype != END_GROUP by {
      ParsedIsNoEnd(b);
    }
    assert f.Read? && f.size == |b| by {
      SkipAgreesWithParse(b);
    }
    assert ConsumeTag(whole) == t by {
      TagLocal(b, rest);
    }
    assert SkipField(whole) == f by {
      SkipFieldLocal(b, rest);
    }
    assert whole[f.size..] == rest;
    SkipGroupUnfold(num, whole, t, f, g);
  }

  lemma SkipGroupGrows(num: nat, b: bytes, inner: bytes, end: bytes)
    requires ParseField(b).Read? && ParseField(b).size == |b|
    requires SkipGroup(num, inner + end) == Read(|inner|, |inner + end|)
    ensures SkipGroup(num, b + inner + end) == Read(|b + inner|, |b + inner + end|)
  {
    hide *;
    SkipGroupStep(num, b, inner + end, Read(|inner|, |inner + end|));
    assert b + inner + end == b + (inner + end);
  }

  lemma EndMarkerEnds(num: nat)
    requires 1 <= num <= MAX_NUMBER
    ensures SkipGroup(num, PutTag(num, END_GROUP)) == Read(0, |PutTag(num, END_GROUP)|)
  {
    TagRoundTrip(num, END_GROUP);
  }

  /** The end marker of a group is found behind its encoded fields. */
  lemma {:induction false} SkipOverFields(num: nat, fs: seq<WireField>)
    requires 1 <= num <= MAX_NUMBER && AllValid(fs)
    ensures SkipGroup(num, EncodeAll(fs) + PutTag(num, END_GROUP)) ==
            Read(|EncodeAll(fs)|, |EncodeAll(fs) + PutTag(num, END_GROUP)|)
    decreases fs, 2
  {
    var end := PutTag(num, END_GROUP);
    if fs == [] {
      EndMarkerEnds(num);
      assert EncodeAll(fs) + end == end;
    } else {
      var b, inner := Encode(fs[0].num, fs[0].WireType(), EncodeValue(fs[0])), EncodeAll(fs[1..]);
      FieldRoundTrip(fs[0]);
      SkipOverFields(num, fs[1..]);
      SkipGroupGrows(num, b, inner, end);
    }
  }

  /** Decoding an encoded message succeeds and recovers every number and value in order. */
  lemma DecodeEncoded(fs: seq<WireField>)
    requires AllValid(fs)
    ensures Parse(EncodeAll(fs)) == Some(ExpectedAll(fs))
    ensures Decoded(EncodeAll(fs)).Some? && Grouped(Decoded(EncodeAll(fs)).value, ExpectedAll(fs))
  {
    FieldsRoundTrip(fs);
    FoldIsGrouped(ExpectedAll(fs));
  }
}
