/** The binary start request: what `ctf_archive` writes to the socket and how
    `challd` reads it back. */
module Wire {
  import opened Basics
  import Utf8

  const RESULT_OK: byte := 0
  const RESULT_MALFORMED_REQUEST: byte := 1
  const RESULT_INVALID_PORT: byte := 2
  const RESULT_BUSY: byte := 3

  const MODE_GUEST: byte := 0
  const MODE_DEMO: byte := 1

  /** The daemon reads fewer than this many port mappings. */
  const MAPPING_LIMIT := 10

  datatype PortType = Tcp | Udp
  datatype PortMapping = PortMapping(fromPort: u16, toPort: u16, portType: PortType)
  datatype Mode = Guest(code: u32) | Demo
  datatype Request = Request(mode: Mode, image: string, ports: seq<PortMapping>)

  // ---------------------------------------------------------------- encoding

  function TruncateToByte(n: nat): (b: byte) {
    n % 0x100
  }

  function Le16(n: u16): (b: seq<byte>)
    ensures |b| == 2
  {
    [n % 0x100, n / 0x100]
  }

  function Le32(n: u32): (b: seq<byte>)
    ensures |b| == 4
  {
    Le16(n % 0x1_0000) + Le16(n / 0x1_0000)
  }

  function PortTypeByte(t: PortType): (b: byte) {
    match t
    case Tcp => 0
    case Udp => 1
  }

  function EncodeMapping(m: PortMapping): (b: seq<byte>)
    ensures |b| == 5
  {
    Le16(m.fromPort) + Le16(m.toPort) + [PortTypeByte(m.portType)]
  }

  function EncodeMappings(ms: seq<PortMapping>): (b: seq<byte>)
    ensures |b| == 5 * |ms|
  {
    if ms == [] then [] else EncodeMapping(ms[0]) + EncodeMappings(ms[1..])
  }

  function EncodeMode(m: Mode): (b: seq<byte>) {
    match m
    case Guest(code) => [MODE_GUEST] + Le32(code)
    case Demo => [MODE_DEMO]
  }

  function EncodeName(name: string): (b: seq<byte>) {
    [TruncateToByte(|Utf8.Encode(name)|)] + Utf8.Encode(name)
  }

  function EncodePorts(ms: seq<PortMapping>): (b: seq<byte>) {
    [TruncateToByte(|ms|)] + EncodeMappings(ms)
  }

  function EncodeHeader(m: Mode, name: string): (b: seq<byte>) {
    EncodeMode(m) + EncodeName(name)
  }

  function EncodeRequest(r: Request): (b: seq<byte>) {
    EncodeHeader(r.mode, r.image) + EncodePorts(r.ports)
  }

  // ---------------------------------------------------------------- decoding

  datatype Parsed<+T> = Got(value: T, rest: seq<byte>) | Fail
  datatype Decoded = Accepted(request: Request, rest: seq<byte>) | Malformed | InvalidPort

  function ReadByte(b: seq<byte>): (r: Parsed<byte>) {
    if |b| == 0 then Fail else Got(b[0], b[1..])
  }

  function FromLe16(lo: int, hi: int): int {
    lo + 0x100 * hi
  }

  function ReadLe16(b: seq<byte>): (r: Parsed<u16>) {
    if |b| < 2 then Fail else Got(FromLe16(b[0], b[1]), b[2..])
  }

  function ReadLe32(b: seq<byte>): (r: Parsed<u32>) {
    if |b| < 4 then
      Fail
    else
      Got(FromLe16(b[0], b[1]) + 0x1_0000 * FromLe16(b[2], b[3]), b[4..])
  }

  function ReadExact(n: nat, b: seq<byte>): (r: Parsed<seq<byte>>) {
    if |b| < n then Fail else Got(b[..n], b[n..])
  }

  function DecodePortType(b: byte): (r: Option<PortType>) {
    if b == 0 then Some(Tcp) else if b == 1 then Some(Udp) else None
  }

  function DecodeMapping(b: seq<byte>): (r: Parsed<PortMapping>) {
    match ReadLe16(b)
    case Fail => Fail
    case Got(fromPort, b1) =>
      match ReadLe16(b1)
      case Fail => Fail
      case Got(toPort, b2) =>
        match ReadByte(b2)
        case Fail => Fail
        case Got(t, b3) =>
          match DecodePortType(t)
          case None => Fail
          case Some(portType) => Got(PortMapping(fromPort, toPort, portType), b3)
  }

  function DecodeMappings(n: nat, b: seq<byte>): (r: Parsed<seq<PortMapping>>)
    ensures r.Got? ==> |r.value| == n
  {
    if n == 0 then
      Got([], b)
    else
      match DecodeMapping(b)
      case Fail => Fail
      case Got(m, b1) =>
        match DecodeMappings(n - 1, b1)
        case Fail => Fail
        case Got(ms, b2) => Got([m] + ms, b2)
  }

  function DecodePorts(b: seq<byte>): (r: Parsed<seq<PortMapping>>) {
    match ReadByte(b)
    case Fail => Fail
    case Got(n, b1) => if n >= MAPPING_LIMIT then Fail else DecodeMappings(n, b1)
  }

  function DecodeMode(b: seq<byte>): (r: Parsed<Mode>) {
    match ReadByte(b)
    case Fail => Fail
    case Got(mode, b1) =>
      if mode == MODE_GUEST then
        match ReadLe32(b1)
        case Fail => Fail
        case Got(code, b2) => Got(Guest(code), b2)
      else if mode == MODE_DEMO then
        Got(Demo, b1)
      else
        Fail
  }

  function DecodeName(b: seq<byte>): (r: Parsed<string>) {
    match ReadByte(b)
    case Fail => Fail
    case Got(len, b1) =>
      match ReadExact(len, b1)
      case Fail => Fail
      case Got(bytes, b2) =>
        match Utf8.Decode(bytes)
        case None => Fail
        case Some(name) => Got(name, b2)
  }

  function DecodeHeader(b: seq<byte>): (r: Parsed<(Mode, string)>) {
    match DecodeMode(b)
    case Fail => Fail
    case Got(mode, b1) =>
      match DecodeName(b1)
      case Fail => Fail
      case Got(name, b2) => Got((mode, name), b2)
  }

  function DecodeRequest(b: seq<byte>): (r: Decoded) {
    match DecodeHeader(b)
    case Fail => Malformed
    case Got((mode, name), b1) =>
      match DecodePorts(b1)
      case Fail => InvalidPort
      case Got(ports, b2) => Accepted(Request(mode, name, ports), b2)
  }

  // ---------------------------------------------------------------- sizes

  /** The name's length fits the length byte. */
  predicate FitsName(name: string) {
    |Utf8.Encode(name)| <= 255
  }

  /** The requests whose two length bytes say the truth and that the daemon takes. */
  predicate WellSized(r: Request) {
    FitsName(r.image) && |r.ports| < MAPPING_LIMIT
  }
}

/** Round trips and canonicity of the start request. */
module WireTheorems {
  import opened Basics
  import opened Wire
  import Utf8

  lemma {:induction false} MappingRoundTrip(m: PortMapping, rest: seq<byte>)
    ensures DecodeMapping(EncodeMapping(m) + rest) == Got(m, rest)
  {
    var t := [PortTypeByte(m.portType)];
    Assoc(Le16(m.fromPort) + Le16(m.toPort), t, rest);
    Assoc(Le16(m.fromPort), Le16(m.toPort), t + rest);
    Le16RoundTrip(m.fromPort, Le16(m.toPort) + (t + rest));
    Le16RoundTrip(m.toPort, t + rest);
    assert (t + rest)[1..] == rest;
  }

  lemma Le16RoundTrip(n: u16, rest: seq<byte>)
    ensures ReadLe16(Le16(n) + rest) == Got(n, rest)
  {
  }

  lemma Le16Bytes(lo: byte, hi: byte)
    ensures Le16(FromLe16(lo, hi)) == [lo, hi]
  {
  }

  /** The decoder's five bytes, read off the stream they start. */
  lemma MappingFields(b: seq<byte>)
    requires DecodeMapping(b).Got?
    ensures |b| >= 5 && DecodePortType(b[4]).Some?
    ensures DecodeMapping(b).value
            == PortMapping(FromLe16(b[0], b[1]), FromLe16(b[2], b[3]), DecodePortType(b[4]).value)
    ensures DecodeMapping(b).rest == b[5..]
  {
    assert |b| >= 5;
    assert b[2..][2..][1..] == b[5..];
    assert b[2..][0] == b[2] && b[2..][1] == b[3] && b[2..][2..][0] == b[4];
  }

  lemma {:induction false} MappingCanonical(b: seq<byte>)
    requires DecodeMapping(b).Got?
    ensures b == EncodeMapping(DecodeMapping(b).value) + DecodeMapping(b).rest
  {
    MappingFields(b);
    Le16Bytes(b[0], b[1]);
    Le16Bytes(b[2], b[3]);
    assert b == [b[0], b[1]] + [b[2], b[3]] + [b[4]] + b[5..];
  }

  lemma {:induction false} FirstMapping(m: PortMapping, ms: seq<PortMapping>, rest: seq<byte>)
    ensures DecodeMapping(EncodeMappings([m] + ms) + rest) == Got(m, EncodeMappings(ms) + rest)
  {
    assert ([m] + ms)[1..] == ms;
    Assoc(EncodeMapping(m), EncodeMappings(ms), rest);
    MappingRoundTrip(m, EncodeMappings(ms) + rest);
  }

  /** Reading `n` mappings from an encoding of at least `n` yields the first `n`. */
  lemma {:induction false} MappingsRoundTrip(n: nat, ms: seq<PortMapping>, rest: seq<byte>)
    requires n <= |ms|
    ensures DecodeMappings(n, EncodeMappings(ms) + rest) == Got(ms[..n], EncodeMappings(ms[n..]) + rest)
    decreases n
  {
    if n == 0 {
      assert ms[0..] == ms;
    } else {
      var m, ms1 := ms[0], ms[1..];
      assert [m] + ms1 == ms;
      FirstMapping(m, ms1, rest);
      MappingsRoundTrip(n - 1, ms1, rest);
      assert ms[..n] == [m] + ms1[..n - 1];
      assert ms[n..] == ms1[n - 1..];
    }
  }

  lemma {:induction false} MappingsCanonical(n: nat, b: seq<byte>)
    requires DecodeMappings(n, b).Got?
    ensures b == EncodeMappings(DecodeMappings(n, b).value) + DecodeMappings(n, b).rest
    decreases n
  {
    if n > 0 {
      var Got(m, b1) := DecodeMapping(b);
      MappingCanonical(b);
      MappingsCanonical(n - 1, b1);
      var Got(ms, b2) := DecodeMappings(n - 1, b1);
      assert ([m] + ms)[1..] == ms;
      Assoc(EncodeMapping(m), EncodeMappings(ms), b2);
    }
  }

  lemma {:induction false} ModeRoundTrip(m: Mode, rest: seq<byte>)
    ensures DecodeMode(EncodeMode(m) + rest) == Got(m, rest)
  {
    var b := EncodeMode(m) + rest;
    match m
    case Demo =>
      assert b[1..] == rest;
    case Guest(code) =>
      assert b[1..][..4] == Le32(code) && b[1..][4..] == rest;
      Le32Value(code);
  }

  lemma {:induction false} Le32Value(n: u32)
    ensures var b := Le32(n); FromLe16(b[0], b[1]) + 0x1_0000 * FromLe16(b[2], b[3]) == n
  {
    var lo, hi := n % 0x1_0000, n / 0x1_0000;
    assert FromLe16(lo % 0x100, lo / 0x100) == lo;
    assert FromLe16(hi % 0x100, hi / 0x100) == hi;
    assert n == lo + 0x1_0000 * hi;
  }

  lemma HalfWords(lo: u16, hi: u16)
    ensures (lo + 0x1_0000 * hi) % 0x1_0000 == lo && (lo + 0x1_0000 * hi) / 0x1_0000 == hi
  {
  }

  lemma {:induction false} Le32Bytes(b0: byte, b1: byte, b2: byte, b3: byte)
    ensures Le32(FromLe16(b0, b1) + 0x1_0000 * FromLe16(b2, b3)) == [b0, b1, b2, b3]
  {
    HalfWords(FromLe16(b0, b1), FromLe16(b2, b3));
    Le16Bytes(b0, b1);
    Le16Bytes(b2, b3);
  }

  lemma {:induction false} ModeCanonical(b: seq<byte>)
    requires DecodeMode(b).Got?
    ensures b == EncodeMode(DecodeMode(b).value) + DecodeMode(b).rest
  {
    if b[0] == MODE_GUEST {
      Le32Bytes(b[1], b[2], b[3], b[4]);
      assert b[1..][4..] == b[5..];
    }
  }

  lemma Assoc<T>(a: seq<T>, b: seq<T>, c: seq<T>)
    ensures (a + b) + c == a + (b + c)
  {
  }

  lemma Cut<T>(a: seq<T>, b: seq<T>)
    ensures (a + b)[..|a|] == a && (a + b)[|a|..] == b
  {
  }

  lemma {:induction false} NameRoundTrip(name: string, rest: seq<byte>)
    requires FitsName(name)
    ensures DecodeName(EncodeName(name) + rest) == Got(name, rest)
  {
    var bytes := Utf8.Encode(name);
    var b := EncodeName(name) + rest;
    assert b[0] == |bytes| && b[1..] == bytes + rest;
    Cut(bytes, rest);
    assert ReadExact(b[0], b[1..]) == Got(bytes, rest);
    Utf8.RoundTrip(name);
  }

  lemma HeadTail<T>(b: seq<T>)
    requires |b| > 0
    ensures b == [b[0]] + b[1..]
  {
  }

  lemma HeadCut<T>(b: seq<T>, n: nat)
    requires n < |b|
    ensures b == ([b[0]] + b[1..][..n]) + b[1..][n..]
  {
  }

  lemma {:induction false} NameOfBytes(name: string, bytes: seq<byte>)
    requires |bytes| < 0x100 && Utf8.Encode(name) == bytes
    ensures FitsName(name) && EncodeName(name) == [|bytes|] + bytes
  {
  }

  lemma {:induction false} NameBytes(bytes: seq<byte>)
    requires |bytes| < 0x100 && Utf8.Decode(bytes).Some?
    ensures var name := Utf8.Decode(bytes).value; FitsName(name) && EncodeName(name) == [|bytes|] + bytes
  {
    Utf8.Canonical(bytes);
    NameOfBytes(Utf8.Decode(bytes).value, bytes);
  }

  lemma {:induction false} NameCanonical(b: seq<byte>)
    requires DecodeName(b).Got?
    ensures FitsName(DecodeName(b).value)
    ensures b == EncodeName(DecodeName(b).value) + DecodeName(b).rest
  {
    var Got(bytes, rest) := ReadExact(b[0], b[1..]);
    NameBytes(bytes);
    HeadCut(b, b[0]);
  }

  lemma {:induction false} HeaderRoundTrip(m: Mode, name: string, rest: seq<byte>)
    requires FitsName(name)
    ensures DecodeHeader(EncodeHeader(m, name) + rest) == Got((m, name), rest)
  {
    Assoc(EncodeMode(m), EncodeName(name), rest);
    ModeRoundTrip(m, EncodeName(name) + rest);
    NameRoundTrip(name, rest);
  }

  lemma {:induction false} HeaderCanonical(b: seq<byte>)
    requires DecodeHeader(b).Got?
    ensures var (m, name) := DecodeHeader(b).value;
            FitsName(name) && b == EncodeHeader(m, name) + DecodeHeader(b).rest
  {
    ModeCanonical(b);
    NameCanonical(DecodeMode(b).rest);
    var (m, name) := DecodeHeader(b).value;
    Assoc(EncodeMode(m), EncodeName(name), DecodeHeader(b).rest);
  }

  lemma {:induction false} PortsRoundTrip(ms: seq<PortMapping>, rest: seq<byte>)
    ensures var n := |ms| % 0x100;
            DecodePorts(EncodePorts(ms) + rest)
            == if n >= MAPPING_LIMIT then Fail else Got(ms[..n], EncodeMappings(ms[n..]) + rest)
  {
    var n := |ms| % 0x100;
    var b := EncodePorts(ms) + rest;
    Assoc([TruncateToByte(|ms|)], EncodeMappings(ms), rest);
    assert b[0] == n && b[1..] == EncodeMappings(ms) + rest;
    if n < MAPPING_LIMIT {
      MappingsRoundTrip(n, ms, rest);
    }
  }

  lemma {:induction false} PortsCanonical(b: seq<byte>)
    requires DecodePorts(b).Got?
    ensures |DecodePorts(b).value| < MAPPING_LIMIT
    ensures b == EncodePorts(DecodePorts(b).value) + DecodePorts(b).rest
  {
    var Got(ms, rest) := DecodePorts(b);
    assert b[1..] == EncodeMappings(ms) + rest && |ms| == b[0] by {
      MappingsCanonical(b[0], b[1..]);
    }
    HeadTail(b);
    Assoc([b[0]], EncodeMappings(ms), rest);
  }

  /** What the daemon makes of any message the client sends, truncated port count
      included: a count of 10 to 255 modulo 256 is refused, and any other count
      takes that many mappings and leaves the others unread. */
  lemma {:induction false} DecodeOfEncode(r: Request, rest: seq<byte>)
    requires FitsName(r.image)
    ensures var n := |r.ports| % 256;
            DecodeRequest(EncodeRequest(r) + rest)
            == if n >= 10 then InvalidPort
               else Accepted(r.(ports := r.ports[..n]), EncodeMappings(r.ports[n..]) + rest)
  {
    Assoc(EncodeHeader(r.mode, r.image), EncodePorts(r.ports), rest);
    HeaderRoundTrip(r.mode, r.image, EncodePorts(r.ports) + rest);
    PortsRoundTrip(r.ports, rest);
  }

  /** Whatever the daemon accepts is the encoding of what it understood. */
  lemma {:induction false} AcceptedIsCanonical(b: seq<byte>)
    requires DecodeRequest(b).Accepted?
    ensures WellSized(DecodeRequest(b).request) && |DecodeRequest(b).request.ports| < 10
    ensures b == EncodeRequest(DecodeRequest(b).request) + DecodeRequest(b).rest
  {
    HeaderCanonical(b);
    PortsCanonical(DecodeHeader(b).rest);
    var Accepted(r, rest) := DecodeRequest(b);
    Assoc(EncodeHeader(r.mode, r.image), EncodePorts(r.ports), rest);
  }

  lemma TakeAll(ms: seq<PortMapping>, rest: seq<byte>)
    ensures ms[..|ms|] == ms && EncodeMappings(ms[|ms|..]) + rest == rest
  {
  }

  lemma {:induction false} FewPortsRoundTrip(ms: seq<PortMapping>, rest: seq<byte>)
    requires |ms| < MAPPING_LIMIT
    ensures DecodePorts(EncodePorts(ms) + rest) == Got(ms, rest)
  {
    PortsRoundTrip(ms, rest);
    TakeAll(ms, rest);
  }

  lemma {:induction false} RoundTrip(r: Request, rest: seq<byte>)
    requires WellSized(r)
    ensures DecodeRequest(EncodeRequest(r) + rest) == Accepted(r, rest)
  {
    var b := EncodePorts(r.ports) + rest;
    Assoc(EncodeHeader(r.mode, r.image), EncodePorts(r.ports), rest);
    HeaderRoundTrip(r.mode, r.image, b);
    FewPortsRoundTrip(r.ports, rest);
  }

  /** The round trip on a stream, with its exact condition: the request comes back,
      and nothing behind it is consumed, if and only if the sizes fit. */
  lemma {:induction false} RoundTripExactly(r: Request, rest: seq<byte>)
    ensures DecodeRequest(EncodeRequest(r) + rest) == Accepted(r, rest)
            <==> |Utf8.Encode(r.image)| <= 255 && |r.ports| < 10
  {
    var b := EncodeRequest(r) + rest;
    if WellSized(r) {
      RoundTrip(r, rest);
    } else if DecodeRequest(b) == Accepted(r, rest) {
      AcceptedIsCanonical(b);
    }
  }

  /** The three verdicts, each described without the decoder: a stream is accepted
      when a well-sized message starts it, malformed when no header starts it, and
      refused for its ports when a header starts it but no message does. */
  lemma {:induction false} VerdictMeaning(b: seq<byte>)
    ensures DecodeRequest(b).Accepted? <==>
            exists r: Request, rest: seq<byte> :: WellSized(r) && b == EncodeRequest(r) + rest
    ensures DecodeRequest(b) == Malformed <==>
            !exists m: Mode, name: string, rest: seq<byte> :: FitsName(name) && b == EncodeHeader(m, name) + rest
    ensures DecodeRequest(b) == InvalidPort <==>
            && (exists m: Mode, name: string, rest: seq<byte> :: FitsName(name) && b == EncodeHeader(m, name) + rest)
            && !(exists r: Request, rest: seq<byte> :: WellSized(r) && b == EncodeRequest(r) + rest)
  {
    if DecodeRequest(b).Accepted? {
      AcceptedIsCanonical(b);
    }
    forall r: Request, rest: seq<byte> | WellSized(r) && b == EncodeRequest(r) + rest
      ensures DecodeRequest(b).Accepted?
    {
      RoundTrip(r, rest);
    }
    if DecodeHeader(b).Got? {
      HeaderCanonical(b);
    }
    forall m: Mode, name: string, rest: seq<byte> | FitsName(name) && b == EncodeHeader(m, name) + rest
      ensures DecodeHeader(b).Got?
    {
      HeaderRoundTrip(m, name, rest);
    }
  }

  /** Messages delimit themselves: a stream starts with at most one of them. */
  lemma {:induction false} UniquelyDecodable(r1: Request, rest1: seq<byte>, r2: Request, rest2: seq<byte>)
    requires WellSized(r1) && WellSized(r2)
    requires EncodeRequest(r1) + rest1 == EncodeRequest(r2) + rest2
    ensures r1 == r2 && rest1 == rest2
  {
    RoundTrip(r1, rest1);
    RoundTrip(r2, rest2);
  }

  lemma {:induction false} PrefixFree(r1: Request, r2: Request)
    requires WellSized(r1) && WellSized(r2)
    requires EncodeRequest(r1) <= EncodeRequest(r2)
    ensures r1 == r2
  {
    var b1, b2 := EncodeRequest(r1), EncodeRequest(r2);
    assert b2 == b1 + b2[|b1|..];
    assert b2 == b2 + [];
    UniquelyDecodable(r1, b2[|b1|..], r2, []);
  }

  // ---------------------------------------------------------------- layout

  /** `StartMode::guest_code_len`. */
  function GuestCodeLen(m: Mode): nat {
    match m
    case Guest(_) => 4
    case Demo => 0
  }

  lemma {:induction false} MappingOffset(ms: seq<PortMapping>, i: nat)
    requires i < |ms|
    ensures EncodeMappings(ms)[5 * i..5 * i + 5] == EncodeMapping(ms[i])
  {
    if i > 0 {
      MappingOffset(ms[1..], i - 1);
      var tail := EncodeMappings(ms[1..]);
      assert EncodeMappings(ms)[5..] == tail;
      assert EncodeMappings(ms)[5 * i..5 * i + 5] == tail[5 * (i - 1)..5 * (i - 1) + 5];
    }
  }

  /** Where three parts lie once they are joined. */
  lemma Joined<T>(a: seq<T>, b: seq<T>, c: seq<T>)
    requires |b| > 0 && |c| > 0
    ensures var s := a + b + c;
            && |s| == |a| + |b| + |c|
            && s[..|a|] == a
            && s[|a|] == b[0]
            && s[|a| + 1..|a| + |b|] == b[1..]
            && s[|a| + |b|] == c[0]
            && s[|a| + |b| + 1..] == c[1..]
  {
  }

  lemma {:induction false} ModeField(m: Mode)
    ensures var b := EncodeMode(m);
            && |b| == 1 + GuestCodeLen(m)
            && b[0] == (if m.Guest? then 0 else 1)
            && (m.Guest? ==>
                  && b[1] == m.code % 256
                  && b[2] == m.code / 256 % 256
                  && b[3] == m.code / 65536 % 256
                  && b[4] == m.code / 16777216)
  {
    if m.Guest? {
      CodeBytes(m.code);
      assert EncodeMode(m)[1..] == Le32(m.code);
    }
  }

  lemma CodeBytes(n: u32)
    ensures Le32(n) == [n % 256, n / 256 % 256, n / 65536 % 256, n / 16777216]
  {
    LowBytes(n);
    assert n / 65536 / 256 == n / 16777216;
  }

  lemma LowBytes(n: nat)
    ensures n % 65536 % 256 == n % 256 && n % 65536 / 256 == n / 256 % 256
  {
    var low, high := n % 65536, n / 65536;
    assert n == 65536 * high + low;
    assert n / 256 == 256 * high + low / 256;
  }

  lemma {:induction false} NameField(name: string)
    requires FitsName(name)
    ensures var b := EncodeName(name);
            |b| == 1 + |Utf8.Encode(name)| && b[0] == |Utf8.Encode(name)| && b[1..] == Utf8.Encode(name)
  {
  }

  lemma {:induction false} PortsField(ms: seq<PortMapping>)
    requires |ms| < MAPPING_LIMIT
    ensures var b := EncodePorts(ms); |b| == 1 + 5 * |ms| && b[0] == |ms| && b[1..] == EncodeMappings(ms)
  {
  }

  /** The bytes of a well-sized message, position by position: mode, guest code, name
      length, name, port count, then five bytes a mapping; the client's buffer is
      allocated at exactly this length. */
  lemma {:induction false} Layout(r: Request)
    requires WellSized(r)
    ensures var b, name := EncodeRequest(r), Utf8.Encode(r.image);
            var o := 1 + GuestCodeLen(r.mode);
            && |b| == o + 1 + |name| + 1 + 5 * |r.ports|
            && b[0] == (if r.mode.Guest? then 0 else 1)
            && (r.mode.Guest? ==>
                  && b[1] == r.mode.code % 256
                  && b[2] == r.mode.code / 256 % 256
                  && b[3] == r.mode.code / 65536 % 256
                  && b[4] == r.mode.code / 16777216)
            && b[o] == |name|
            && b[o + 1..o + 1 + |name|] == name
            && b[o + 1 + |name|] == |r.ports|
            && b[o + 2 + |name|..] == EncodeMappings(r.ports)
  {
    var mode := EncodeMode(r.mode);
    ModeField(r.mode);
    NameField(r.image);
    PortsField(r.ports);
    Joined(mode, EncodeName(r.image), EncodePorts(r.ports));
    assert forall i :: 0 <= i < |mode| ==> EncodeRequest(r)[i] == mode[i];
  }

  lemma {:induction false} MappingLayout(m: PortMapping)
    ensures var b := EncodeMapping(m);
            && b[0] == m.fromPort % 256 && b[1] == m.fromPort / 256
            && b[2] == m.toPort % 256 && b[3] == m.toPort / 256
            && b[4] == (if m.portType.Tcp? then 0 else 1)
  {
  }

  /** What the two multi-byte reads make of any bytes. */
  lemma {:induction false} ReadsLittleEndian(b: seq<byte>)
    ensures ReadLe16(b).Got? <==> |b| >= 2
    ensures ReadLe32(b).Got? <==> |b| >= 4
    ensures |b| >= 2 ==> ReadLe16(b).value as int == b[0] as int + 256 * b[1] as int && ReadLe16(b).rest == b[2..]
    ensures |b| >= 4 ==>
              && ReadLe32(b).value as int
                 == b[0] as int + 256 * b[1] as int + 65536 * b[2] as int + 16777216 * b[3] as int
              && ReadLe32(b).rest == b[4..]
  {
  }
}
