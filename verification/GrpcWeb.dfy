/**
 gRPC-Web framing (internal/bodydecoder/grpcweb.go) and its use around scripts
 (internal/proxy/interceptor.go). A frame is a flag byte, a big-endian 32-bit
 length and that many bytes.
 */
module GrpcWeb {
  import opened Common

  datatype Result<+T> = Ok(value: T) | Err

  const HEADER_LEN := 5
  const FLAG_DATA: byte := 0x00
  const FLAG_COMPRESSED: byte := 0x01
  const FLAG_TRAILERS: byte := 0x80
  const MAX_UINT32 := 0xFFFF_FFFF

  // ----- the frame header -----

  function Uint32(b: bytes): (n: nat)
    requires |b| == 4
    ensures n <= MAX_UINT32
  {
    var b0: int, b1: int, b2: int, b3: int := b[0], b[1], b[2], b[3];
    ((b0 * 256 + b1) * 256 + b2) * 256 + b3
  }

  function PutUint32(n: nat): (b: bytes)
    requires n <= MAX_UINT32
    ensures |b| == 4 && Uint32(b) == n
  {
    var q1, q2, q3 := n / 256, n / 256 / 256, n / 256 / 256 / 256;
    [q3, q2 % 256, q1 % 256, n % 256]
  }

  function Length(b: bytes): nat
    requires |b| >= HEADER_LEN
  {
    Uint32(b[1..HEADER_LEN])
  }

  /** Where the frame at the front ends; a truncated frame ends with the body. */
  function FrameEnd(b: bytes): (end: nat)
    requires |b| >= HEADER_LEN
    ensures HEADER_LEN <= end <= |b|
  {
    if HEADER_LEN + Length(b) <= |b| then HEADER_LEN + Length(b) else |b|
  }

  /** The body after its first frame. */
  function Rest(b: bytes): (rest: bytes)
    requires |b| >= HEADER_LEN
    ensures |rest| < |b|
  {
    b[FrameEnd(b)..]
  }

  predicate Truncated(b: bytes)
    requires |b| >= HEADER_LEN
  {
    |b| < HEADER_LEN + Length(b)
  }

  // ----- the two walkers -----

  datatype Note =
    | TruncatedFrame(expected: nat, got: nat)
    | CompressedPayload(length: nat)
    | UnknownFlag(flag: byte, length: nat)

  datatype Extracted = Extracted(payload: bytes, notes: seq<Note>)

  function FlagNotes(flag: byte, length: nat): seq<Note> {
    if flag == FLAG_DATA then []
    else if flag == FLAG_COMPRESSED then [CompressedPayload(length)]
    else if flag >= FLAG_TRAILERS then []
    else [UnknownFlag(flag, length)]
  }

  /** What one frame contributes to the payload. */
  function FrameData(b: bytes): bytes
    requires |b| >= HEADER_LEN
  {
    if b[0] == FLAG_DATA then b[HEADER_LEN..FrameEnd(b)] else []
  }

  function TruncationNotes(b: bytes): seq<Note>
    requires |b| >= HEADER_LEN
  {
    if Truncated(b) then [TruncatedFrame(Length(b), |b| - HEADER_LEN)] else []
  }

  function FrameNotes(b: bytes): seq<Note>
    requires |b| >= HEADER_LEN
  {
    TruncationNotes(b) + FlagNotes(b[0], Length(b))
  }

  /** No frame header is cut off. */
  predicate WellFramed(b: bytes) {
    |b| == 0 || (|b| >= HEADER_LEN && WellFramed(Rest(b)))
  }

  /** The contents of all data frames, put together. */
  function Payload(b: bytes): bytes {
    if |b| < HEADER_LEN then [] else FrameData(b) + Payload(Rest(b))
  }

  function Notes(b: bytes): seq<Note> {
    if |b| < HEADER_LEN then [] else FrameNotes(b) + Notes(Rest(b))
  }

  function FrameKept(b: bytes): bytes
    requires |b| >= HEADER_LEN
  {
    if b[0] != FLAG_DATA then b[..FrameEnd(b)] else []
  }

  /** The bytes of all other frames; a cut-off header at the end is dropped. */
  function NonDataFrames(b: bytes): bytes {
    if |b| < HEADER_LEN then []
    else FrameKept(b) + NonDataFrames(Rest(b))
  }

  function DataFrameCount(b: bytes): nat {
    if |b| < HEADER_LEN then 0
    else (if b[0] == FLAG_DATA then 1 else 0) + DataFrameCount(Rest(b))
  }

  lemma KeepFrame(out: bytes, b: bytes)
    requires |b| >= HEADER_LEN
    ensures out + NonDataFrames(b) == out + FrameKept(b) + NonDataFrames(Rest(b))
  {
    Reassociate(out, FrameKept(b), NonDataFrames(Rest(b)));
  }

  method ExtractNonDataFrames(body: bytes) returns (out: bytes)
    ensures out == NonDataFrames(body)
  {
    out := [];
    var remaining := body;
    while |remaining| >= HEADER_LEN
      invariant out + NonDataFrames(remaining) == NonDataFrames(body)
      decreases |remaining|
    {
      var flag := remaining[0];
      var length := Uint32(remaining[1..HEADER_LEN]);
      var end := if HEADER_LEN + length < |remaining| then HEADER_LEN + length else |remaining|;
      KeepFrame(out, remaining);
      ghost var kept := out + FrameKept(remaining);
      assert end == FrameEnd(remaining) && remaining[end..] == Rest(remaining);
      if flag != FLAG_DATA {
        out := out + remaining[..end];
      }
      assert out == kept;
      remaining := remaining[end..];
    }
  }

  /** Walking one more frame moves it from the rest to what is collected. */
  lemma CollectFrame(payload: bytes, notes: seq<Note>, b: bytes, rest: bytes)
    requires |b| >= HEADER_LEN && rest == Rest(b)
    ensures payload + Payload(b) == payload + FrameData(b) + Payload(rest)
    ensures notes + Notes(b) == notes + FrameNotes(b) + Notes(rest)
    ensures WellFramed(b) <==> WellFramed(rest)
  {
    Reassociate(payload, FrameData(b), Payload(rest));
    Reassociate(notes, FrameNotes(b), Notes(rest));
  }

  lemma EmptyBody()
    ensures Payload([]) == [] && Notes([]) == [] && WellFramed([])
  {
  }

  lemma CutHeader(b: bytes)
    requires 0 < |b| < HEADER_LEN
    ensures !WellFramed(b)
  {
  }

  method ExtractDataFrames(body: bytes) returns (r: Result<Extracted>)
    ensures r == if WellFramed(body) then Ok(Extracted(Payload(body), Notes(body))) else Err
  {
    hide Payload, Notes, WellFramed;
    EmptyBody();
    var remaining := body;
    var payload: bytes, notes: seq<Note> := [], [];
    while |remaining| > 0
      invariant payload + Payload(remaining) == Payload(body)
      invariant notes + Notes(remaining) == Notes(body)
      invariant WellFramed(remaining) <==> WellFramed(body)
      decreases |remaining|
    {
      if |remaining| < HEADER_LEN {
        CutHeader(remaining);
        return Err;
      }
      ghost var was := remaining;
      ghost var nextPayload, nextNotes := payload + FrameData(was), notes + FrameNotes(was);
      Reassociate(notes, TruncationNotes(was), FlagNotes(was[0], Length(was)));
      CollectFrame(payload, notes, was, Rest(was));
      var flag := remaining[0];
      var length := Uint32(remaining[1..HEADER_LEN]);
      remaining := remaining[HEADER_LEN..];

      var truncated := false;
      var frameData := remaining;
      if |remaining| < length {
        truncated := true;
        notes := notes + [TruncatedFrame(length, |remaining|)];
      } else {
        frameData := remaining[..length];
        remaining := remaining[length..];
      }
      ghost var noted := notes;
      assert frameData == was[HEADER_LEN..FrameEnd(was)];
      assert Rest(was) == if truncated then [] else remaining;

      if flag == FLAG_DATA {
        payload := payload + frameData;
      } else if flag == FLAG_COMPRESSED {
        notes := notes + [CompressedPayload(length)];
      } else if flag >= FLAG_TRAILERS {
        // trailer frame
      } else {
        notes := notes + [UnknownFlag(flag, length)];
      }
      assert payload == nextPayload;
      assert notes == noted + FlagNotes(flag, length) == nextNotes;

      if truncated {
        assert payload + Payload([]) == payload && notes + Notes([]) == notes;
        break;
      }
    }
    assert payload == Payload(body) && notes == Notes(body);
    return Ok(Extracted(payload, notes));
  }

  // ----- what the walkers agree on -----

  /** Every byte of a well-framed body is a payload byte, a header byte or kept. */
  lemma {:induction false} FramesAccountForEveryByte(b: bytes)
    requires WellFramed(b)
    ensures |b| == |Payload(b)| + HEADER_LEN * DataFrameCount(b) + |NonDataFrames(b)|
  {
    if b != [] {
      FramesAccountForEveryByte(Rest(b));
    }
  }

  /** Whole frames only, the last one not cut off. */
  predicate Complete(b: bytes) {
    |b| == 0 || (|b| >= HEADER_LEN && !Truncated(b) && Complete(Rest(b)))
  }

  lemma FirstFrameOfSum(x: bytes, y: bytes)
    requires |x| >= HEADER_LEN && !Truncated(x)
    ensures FrameEnd(x + y) == FrameEnd(x)
    ensures Rest(x + y) == Rest(x) + y
    ensures FrameData(x + y) == FrameData(x)
    ensures FrameNotes(x + y) == FrameNotes(x)
    ensures FrameKept(x + y) == FrameKept(x)
  {
    assert (x + y)[1..HEADER_LEN] == x[1..HEADER_LEN];
    assert (x + y)[..FrameEnd(x)] == x[..FrameEnd(x)];
    assert (x + y)[HEADER_LEN..FrameEnd(x)] == x[HEADER_LEN..FrameEnd(x)];
  }

  /** After whole frames, the data walker treats the rest of a body on its own. */
  lemma {:induction false} DataWalkDistributes(x: bytes, y: bytes)
    requires Complete(x)
    ensures WellFramed(x) && (WellFramed(x + y) <==> WellFramed(y))
    ensures Payload(x + y) == Payload(x) + Payload(y)
    ensures Notes(x + y) == Notes(x) + Notes(y)
    decreases |x|
  {
    hide Rest, FrameEnd, FrameData, FrameNotes, Truncated;
    if x == [] {
      assert x + y == y;
    } else {
      FirstFrameOfSum(x, y);
      var rest := Rest(x);
      DataWalkDistributes(rest, y);
      Reassociate(FrameData(x), Payload(rest), Payload(y));
      Reassociate(FrameNotes(x), Notes(rest), Notes(y));
    }
  }

  /** So does the walker that keeps the other frames. */
  lemma {:induction false} KeepWalkDistributes(x: bytes, y: bytes)
    requires Complete(x)
    ensures NonDataFrames(x + y) == NonDataFrames(x) + NonDataFrames(y)
    decreases |x|
  {
    hide Rest, FrameEnd, FrameKept, Truncated;
    if x == [] {
      assert x + y == y;
    } else {
      FirstFrameOfSum(x, y);
      var rest := Rest(x);
      KeepWalkDistributes(rest, y);
      Reassociate(FrameKept(x), NonDataFrames(rest), NonDataFrames(y));
    }
  }

  lemma WalkersDistribute(x: bytes, y: bytes)
    requires Complete(x)
    ensures WellFramed(x) && (WellFramed(x + y) <==> WellFramed(y))
    ensures Payload(x + y) == Payload(x) + Payload(y)
    ensures Notes(x + y) == Notes(x) + Notes(y)
    ensures NonDataFrames(x + y) == NonDataFrames(x) + NonDataFrames(y)
  {
    DataWalkDistributes(x, y);
    KeepWalkDistributes(x, y);
  }

  /** A frame that is kept is itself a body with no data frame. */
  lemma KeptFrameStays(b: bytes)
    requires |b| >= HEADER_LEN && !Truncated(b) && b[0] != FLAG_DATA
    ensures var frame := b[..FrameEnd(b)];
            Complete(frame) && NonDataFrames(frame) == frame && Payload(frame) == []
  {
    var frame := b[..FrameEnd(b)];
    assert frame[1..HEADER_LEN] == b[1..HEADER_LEN];
    assert Rest(frame) == [];
  }

  /** What is kept holds no data frame, and keeping it again changes nothing. */
  lemma {:induction false} KeptFramesStay(b: bytes)
    ensures WellFramed(NonDataFrames(b))
    ensures NonDataFrames(NonDataFrames(b)) == NonDataFrames(b)
    ensures Payload(NonDataFrames(b)) == []
  {
    if |b| >= HEADER_LEN {
      var rest := Rest(b);
      KeptFramesStay(rest);
      if b[0] == FLAG_DATA {
        assert NonDataFrames(b) == NonDataFrames(rest);
      } else if Truncated(b) {
        assert rest == [] && NonDataFrames(b) == b;
      } else {
        KeptFrameStays(b);
        WalkersDistribute(b[..FrameEnd(b)], NonDataFrames(rest));
      }
    }
  }

  /** The note about a data frame that the end of the body cuts off. */
  function CutDataNotes(b: bytes): seq<Note> {
    if |b| < HEADER_LEN then []
    else if Truncated(b) then if b[0] == FLAG_DATA then TruncationNotes(b) else []
    else CutDataNotes(Rest(b))
  }

  /** Keeping the other frames keeps every note, except that about a cut-off data frame. */
  lemma {:induction false} KeptNotesStay(b: bytes)
    ensures Notes(b) == Notes(NonDataFrames(b)) + CutDataNotes(b)
  {
    if |b| >= HEADER_LEN {
      var rest := Rest(b);
      KeptNotesStay(rest);
      if Truncated(b) {
        assert rest == [];
        assert b[0] != FLAG_DATA ==> NonDataFrames(b) == b;
      } else if b[0] == FLAG_DATA {
        assert NonDataFrames(b) == NonDataFrames(rest) && FrameNotes(b) == [];
      } else {
        KeptFrameStays(b);
        KeptFrameNotes(b);
        WalkersDistribute(b[..FrameEnd(b)], NonDataFrames(rest));
        Reassociate(FrameNotes(b), Notes(NonDataFrames(rest)), CutDataNotes(rest));
      }
    }
  }

  lemma KeptFrameNotes(b: bytes)
    requires |b| >= HEADER_LEN && !Truncated(b)
    ensures Notes(b[..FrameEnd(b)]) == FrameNotes(b)
  {
    var frame := b[..FrameEnd(b)];
    assert frame[1..HEADER_LEN] == b[1..HEADER_LEN];
    assert Rest(frame) == [] && Notes(Rest(frame)) == [];
  }

  // ----- frames by the format -----

  datatype RawFrame = RawFrame(flag: byte, data: bytes)
  {
    predicate Fits() {
      |data| <= MAX_UINT32
    }

    function Wire(): bytes
      requires Fits()
    {
      [flag] + PutUint32(|data|) + data
    }
  }

  predicate AllFit(fs: seq<RawFrame>) {
    forall i :: 0 <= i < |fs| ==> fs[i].Fits()
  }

  function WireAll(fs: seq<RawFrame>): bytes
    requires AllFit(fs)
  {
    if fs == [] then [] else fs[0].Wire() + WireAll(fs[1..])
  }

  function DataOf(fs: seq<RawFrame>): bytes {
    if fs == [] then []
    else (if fs[0].flag == FLAG_DATA then fs[0].data else []) + DataOf(fs[1..])
  }

  function OthersOf(fs: seq<RawFrame>): (r: seq<RawFrame>)
    ensures AllFit(fs) ==> AllFit(r)
  {
    if fs == [] then []
    else (if fs[0].flag == FLAG_DATA then [] else [fs[0]]) + OthersOf(fs[1..])
  }

  lemma OneFrame(f: RawFrame)
    requires f.Fits()
    ensures Complete(f.Wire())
    ensures Payload(f.Wire()) == if f.flag == FLAG_DATA then f.data else []
    ensures NonDataFrames(f.Wire()) == if f.flag == FLAG_DATA then [] else f.Wire()
    ensures Notes(f.Wire()) == FlagNotes(f.flag, |f.data|)
  {
    var b := f.Wire();
    assert b[1..HEADER_LEN] == PutUint32(|f.data|);
    assert Rest(b) == [] && FrameEnd(b) == |b|;
    assert b[HEADER_LEN..] == f.data && b[..FrameEnd(b)] == b;
  }

  /** On any list of frames laid out as the format says, both walkers find what they look for. */
  lemma {:induction false} WalkersReadFrames(fs: seq<RawFrame>)
    requires AllFit(fs)
    ensures Complete(WireAll(fs)) && WellFramed(WireAll(fs))
    ensures Payload(WireAll(fs)) == DataOf(fs)
    ensures NonDataFrames(WireAll(fs)) == WireAll(OthersOf(fs))
  {
    if fs != [] {
      OneFrame(fs[0]);
      WalkersReadFrames(fs[1..]);
      WalkersDistribute(fs[0].Wire(), WireAll(fs[1..]));
      CompleteSum(fs[0].Wire(), WireAll(fs[1..]));
      if fs[0].flag == FLAG_DATA {
        assert OthersOf(fs) == OthersOf(fs[1..]);
      } else {
        assert OthersOf(fs)[1..] == OthersOf(fs[1..]);
      }
    }
  }

  lemma {:induction false} CompleteSum(x: bytes, y: bytes)
    requires Complete(x) && Complete(y)
    ensures Complete(x + y)
  {
    if x == [] {
      assert x + y == y;
    } else {
      FirstFrameOfSum(x, y);
      CompleteSum(Rest(x), y);
    }
  }

  // ----- encoding -----

  /** One data frame. */
  function Frame(payload: bytes): bytes
    requires |payload| <= MAX_UINT32
  {
    RawFrame(FLAG_DATA, payload).Wire()
  }

  /**
   Re-encoding keeps exactly the new payload and exactly the old body's other
   frames, whatever the old body looks like.
   */
  lemma ReencodingRoundTrip(payload: bytes, original: bytes)
    requires |payload| <= MAX_UINT32
    ensures var body := Frame(payload) + NonDataFrames(original);
            WellFramed(body) && Payload(body) == payload && NonDataFrames(body) == NonDataFrames(original)
  {
    OneFrame(RawFrame(FLAG_DATA, payload));
    KeptFramesStay(original);
    WalkersDistribute(Frame(payload), NonDataFrames(original));
  }

  /**
   The protobuf codec underneath is outside this model: named decoding and
   encoding are two partial functions.
   */
  datatype ProtoCodec = ProtoCodec(
    decode: bytes -> Result<bytes>,
    encode: bytes -> Result<bytes>,
    render: seq<Note> -> bytes)

  const EMPTY_OBJECT: bytes := [123, 125]

  function Encoded(proto: ProtoCodec, json: bytes, original: bytes): Result<bytes> {
    match proto.encode(json)
    case Err => Err
    case Ok(payload) =>
      if |payload| > MAX_UINT32 then Err else Ok(Frame(payload) + NonDataFrames(original))
  }

  function Decoded(proto: ProtoCodec, body: bytes): Result<bytes> {
    if !WellFramed(body) then Err
    else
      match Reading(proto, Payload(body))
      case Err => Err
      case Ok(text) => Ok(text + Rendered(proto, Notes(body)))
  }

  /** What the codec makes of a payload, where no payload is an empty object. */
  function Reading(proto: ProtoCodec, payload: bytes): Result<bytes> {
    if payload == [] then Ok(EMPTY_OBJECT) else proto.decode(payload)
  }

  function Rendered(proto: ProtoCodec, notes: seq<Note>): bytes {
    if notes == [] then [] else proto.render(notes)
  }

  /**
   Decoding what was encoded shows the codec's reading of the new payload,
   followed by the notes about the other frames of the original body.
   */
  lemma DecodedEncoding(proto: ProtoCodec, json: bytes, original: bytes)
    requires Encoded(proto, json, original).Ok?
    ensures proto.encode(json).Ok?
    ensures var reading := Reading(proto, proto.encode(json).value);
            Decoded(proto, Encoded(proto, json, original).value) ==
            if reading.Err? then Err else Ok(reading.value + Rendered(proto, Notes(NonDataFrames(original))))
  {
    hide WellFramed, Payload, Notes, NonDataFrames;
    var payload := proto.encode(json).value;
    ReencodingRoundTrip(payload, original);
    OneFrame(RawFrame(FLAG_DATA, payload));
    WalkersDistribute(Frame(payload), NonDataFrames(original));
    assert [] + Notes(NonDataFrames(original)) == Notes(NonDataFrames(original));
  }

  method Encode(proto: ProtoCodec, json: bytes, original: bytes) returns (r: Result<bytes>)
    ensures r == Encoded(proto, json, original)
  {
    hide NonDataFrames, PutUint32, Uint32;
    var encoded := proto.encode(json);
    if encoded.Err? {
      return Err;
    }
    var payload := encoded.value;
    if |payload| > MAX_UINT32 {
      return Err;
    }
    var frame := new byte[HEADER_LEN + |payload|](i => 0);
    frame[0] := FLAG_DATA;
    var length := PutUint32(|payload|);
    for i := 0 to 4
      invariant frame[0] == FLAG_DATA && frame[1..1 + i] == length[..i]
    {
      frame[1 + i] := length[i];
    }
    for i := 0 to |payload|
      invariant frame[..HEADER_LEN] == [FLAG_DATA] + length
      invariant frame[HEADER_LEN..HEADER_LEN + i] == payload[..i]
    {
      frame[HEADER_LEN + i] := payload[i];
    }
    assert frame[..] == frame[..HEADER_LEN] + frame[HEADER_LEN..] == Frame(payload);
    var trailers := ExtractNonDataFrames(original);
    return Ok(frame[..] + trailers);
  }

  method Decode(proto: ProtoCodec, body: bytes) returns (r: Result<bytes>)
    ensures r == Decoded(proto, body)
  {
    var extracted := ExtractDataFrames(body);
    if extracted.Err? {
      return Err;
    }
    var Extracted(payload, notes) := extracted.value;
    var text := EMPTY_OBJECT;
    if |payload| > 0 {
      var decoded := proto.decode(payload);
      if decoded.Err? {
        return Err;
      }
      text := decoded.value;
    }
    if |notes| > 0 {
      text := text + proto.render(notes);
    } else {
      assert text + [] == text;
    }
    return Ok(text);
  }

  // ----- around scripts -----

  /**
   The registered decoders, tried in order. Each accepts a set of content types
   and is either the gRPC-Web one or some other one.
   */
  datatype Decoder =
    | GrpcWebDecoder(types: set<string>, proto: ProtoCodec)
    | OtherDecoder(types: set<string>, canEncode: bool, decode: bytes -> Result<bytes>,
                   encode: (bytes, bytes) -> Result<bytes>)

  /** The outcome of the first decoder that accepts the content type. */
  function RegistryDecoded(registry: seq<Decoder>, contentType: string, body: bytes): Result<bytes> {
    if registry == [] then Err
    else if contentType in registry[0].types then
      match registry[0]
      case GrpcWebDecoder(_, proto) => Decoded(proto, body)
      case OtherDecoder(_, _, decode, _) => decode(body)
    else RegistryDecoded(registry[1..], contentType, body)
  }

  /** The outcome of the first decoder that accepts the content type and can encode. */
  function RegistryEncoded(registry: seq<Decoder>, contentType: string, json: bytes, original: bytes): Result<bytes> {
    if registry == [] then Err
    else if contentType in registry[0].types && (registry[0].GrpcWebDecoder? || registry[0].canEncode) then
      match registry[0]
      case GrpcWebDecoder(_, proto) => Encoded(proto, json, original)
      case OtherDecoder(_, _, _, encode) => encode(json, original)
    else RegistryEncoded(registry[1..], contentType, json, original)
  }

  method RegistryDecode(registry: seq<Decoder>, contentType: string, body: bytes) returns (r: Result<bytes>)
    ensures r == RegistryDecoded(registry, contentType, body)
  {
    for i := 0 to |registry|
      invariant RegistryDecoded(registry, contentType, body) == RegistryDecoded(registry[i..], contentType, body)
    {
      var d := registry[i];
      assert registry[i..][1..] == registry[i + 1..];
      if contentType in d.types {
        match d {
          case GrpcWebDecoder(_, proto) => r := Decode(proto, body);
          case OtherDecoder(_, _, decode, _) => r := decode(body);
        }
        return;
      }
    }
    return Err;
  }

  method RegistryEncode(registry: seq<Decoder>, contentType: string, json: bytes, original: bytes)
    returns (r: Result<bytes>)
    ensures r == RegistryEncoded(registry, contentType, json, original)
  {
    for i := 0 to |registry|
      invariant RegistryEncoded(registry, contentType, json, original) ==
                RegistryEncoded(registry[i..], contentType, json, original)
    {
      var d := registry[i];
      assert registry[i..][1..] == registry[i + 1..];
      if contentType in d.types && (d.GrpcWebDecoder? || d.canEncode) {
        match d {
          case GrpcWebDecoder(_, proto) => r := Encode(proto, json, original);
          case OtherDecoder(_, _, _, encode) => r := encode(json, original);
        }
        return;
      }
    }
    return Err;
  }

  /** The gRPC-Web decoder is the first one to accept this content type. */
  predicate HandledByGrpcWeb(registry: seq<Decoder>, contentType: string) {
    registry != [] &&
    if contentType in registry[0].types then registry[0].GrpcWebDecoder?
    else HandledByGrpcWeb(registry[1..], contentType)
  }

  /** Its codec. */
  function CodecFor(registry: seq<Decoder>, contentType: string): ProtoCodec
    requires HandledByGrpcWeb(registry, contentType)
  {
    if contentType in registry[0].types then registry[0].proto else CodecFor(registry[1..], contentType)
  }

  lemma {:induction false} RegistryUsesGrpcWeb(registry: seq<Decoder>, contentType: string, body: bytes, json: bytes)
    requires HandledByGrpcWeb(registry, contentType)
    ensures RegistryDecoded(registry, contentType, body) == Decoded(CodecFor(registry, contentType), body)
    ensures RegistryEncoded(registry, contentType, json, body) == Encoded(CodecFor(registry, contentType), json, body)
  {
    if contentType !in registry[0].types {
      RegistryUsesGrpcWeb(registry[1..], contentType, body, json);
    }
  }

  /**
   The body that goes on the wire after a script ran. The callback sees the
   decoded text and says whether it changed it.
   */
  method RunScriptsWithCodec(registry: Option<seq<Decoder>>, contentType: string, body: bytes,
                             run: bytes -> (bytes, bool))
    returns (r: bytes)
    ensures registry.None? || RegistryDecoded(registry.value, contentType, body).Err? ==> r == run(body).0
    ensures registry.Some? && RegistryDecoded(registry.value, contentType, body).Ok? ==>
              var (json, changed) := run(RegistryDecoded(registry.value, contentType, body).value);
              var encoded := RegistryEncoded(registry.value, contentType, json, body);
              r == if changed && encoded.Ok? then encoded.value else body
    ensures registry.Some? && HandledByGrpcWeb(registry.value, contentType)
            && Decoded(CodecFor(registry.value, contentType), body).Ok? ==>
              var codec := CodecFor(registry.value, contentType);
              var (json, changed) := run(Decoded(codec, body).value);
              var replaced := changed && Encoded(codec, json, body).Ok?;
              && NonDataFrames(r) == NonDataFrames(body)
              && WellFramed(r)
              && Payload(r) == if replaced then codec.encode(json).value else Payload(body)
  {
    if registry.None? {
      return run(body).0;
    }
    var text := RegistryDecode(registry.value, contentType, body);
    if text.Err? {
      assert HandledByGrpcWeb(registry.value, contentType) ==> Decoded(CodecFor(registry.value, contentType), body).Err?
      by {
        if HandledByGrpcWeb(registry.value, contentType) {
          RegistryUsesGrpcWeb(registry.value, contentType, body, []);
        }
      }
      return run(body).0;
    }
    var (json, changed) := run(text.value);
    if HandledByGrpcWeb(registry.value, contentType) {
      RegistryUsesGrpcWeb(registry.value, contentType, body, json);
      if Encoded(CodecFor(registry.value, contentType), json, body).Ok? {
        ReencodingRoundTrip(CodecFor(registry.value, contentType).encode(json).value, body);
      }
    }
    if !changed {
      return body;
    }
    var encoded := RegistryEncode(registry.value, contentType, json, body);
    if encoded.Err? {
      return body;
    }
    return encoded.value;
  }
}
