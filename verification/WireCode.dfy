/** The programs at the two ends of the socket, step by step. */
module WireCode {
  import opened Basics
  import opened Wire
  import Utf8
  import WireTheorems

  /** The bytes a peer sends before it stops; reads past the end fail. */
  class ByteStream {
    const data: seq<byte>
    var pos: nat

    ghost predicate Valid()
      reads this
    {
      pos <= |data|
    }

    ghost function Remaining(): seq<byte>
      requires Valid()
      reads this
    {
      data[pos..]
    }

    constructor (data: seq<byte>)
      ensures Valid() && Remaining() == data
    {
      this.data := data;
      pos := 0;
    }

    method ReadU8() returns (r: Option<byte>)
      requires Valid()
      modifies this
      ensures Valid()
      ensures match ReadByte(old(Remaining()))
              case Got(v, rest) => r == Some(v) && Remaining() == rest
              case Fail => r == None
    {
      if pos < |data| {
        r := Some(data[pos]);
        pos := pos + 1;
      } else {
        r := None;
      }
    }

    method ReadU16Le() returns (r: Option<u16>)
      requires Valid()
      modifies this
      ensures Valid()
      ensures match ReadLe16(old(Remaining()))
              case Got(v, rest) => r == Some(v) && Remaining() == rest
              case Fail => r == None
    {
      if pos + 2 <= |data| {
        r := Some(FromLe16(data[pos], data[pos + 1]));
        pos := pos + 2;
      } else {
        pos, r := |data|, None;
      }
    }

    method ReadU32Le() returns (r: Option<u32>)
      requires Valid()
      modifies this
      ensures Valid()
      ensures match ReadLe32(old(Remaining()))
              case Got(v, rest) => r == Some(v) && Remaining() == rest
              case Fail => r == None
    {
      if pos + 4 <= |data| {
        r := Some(FromLe16(data[pos], data[pos + 1]) + 0x1_0000 * FromLe16(data[pos + 2], data[pos + 3]));
        pos := pos + 4;
      } else {
        pos, r := |data|, None;
      }
    }

    method ReadBytes(n: nat) returns (r: Option<seq<byte>>)
      requires Valid()
      modifies this
      ensures Valid()
      ensures match ReadExact(n, old(Remaining()))
              case Got(v, rest) => r == Some(v) && Remaining() == rest
              case Fail => r == None
    {
      if pos + n <= |data| {
        r := Some(data[pos..pos + n]);
        assert data[pos..][..n] == data[pos..pos + n] && data[pos..][n..] == data[pos + n..];
        pos := pos + n;
      } else {
        pos, r := |data|, None;
      }
    }

    /** One iteration of the loop in `PortMappings::read`. */
    method ReadMapping() returns (r: Option<PortMapping>)
      requires Valid()
      modifies this
      ensures Valid()
      ensures match DecodeMapping(old(Remaining()))
              case Got(v, rest) => r == Some(v) && Remaining() == rest
              case Fail => r == None
    {
      r := None;
      var fromPort := ReadU16Le();
      if fromPort.None? { return; }
      var toPort := ReadU16Le();
      if toPort.None? { return; }
      var t := ReadU8();
      if t.None? { return; }
      if t.value == 0 {
        r := Some(PortMapping(fromPort.value, toPort.value, Tcp));
      } else if t.value == 1 {
        r := Some(PortMapping(fromPort.value, toPort.value, Udp));
      }
    }

    /** The loop of `PortMappings::read`. */
    method ReadMappings(n: nat) returns (r: Option<seq<PortMapping>>)
      requires Valid()
      modifies this
      ensures Valid()
      ensures match DecodeMappings(n, old(Remaining()))
              case Got(v, rest) => r == Some(v) && Remaining() == rest
              case Fail => r == None
    {
      r := None;
      ghost var start := Remaining();
      var mappings := [];
      AfterNothing(DecodeMappings(n, start));
      for i := 0 to n
        invariant Valid()
        invariant DecodeMappings(n, start) == After(mappings, DecodeMappings(n - i, Remaining()))
      {
        OneMore(n - i, Remaining());
        var m := ReadMapping();
        if m.None? {
          return;
        }
        AfterAfter(mappings, m.value, DecodeMappings(n - i - 1, Remaining()));
        mappings := mappings + [m.value];
      }
      r := Some(mappings);
      assert mappings + [] == mappings;
    }

    /** `PortMappings::read`. */
    method ReadPortMappings() returns (r: Option<seq<PortMapping>>)
      requires Valid()
      modifies this
      ensures Valid()
      ensures match DecodePorts(old(Remaining()))
              case Got(v, rest) => r == Some(v) && Remaining() == rest
              case Fail => r == None
    {
      r := None;
      var n := ReadU8();
      if n.None? || n.value >= MAPPING_LIMIT {
        return;
      }
      r := ReadMappings(n.value);
    }

    /** The daemon's handler, up to the decoded request. */
    method ReadRequest() returns (d: Decoded)
      requires Valid()
      modifies this
      ensures Valid()
      ensures d == DecodeRequest(old(Remaining()))
      ensures d.Accepted? ==> Remaining() == d.rest
    {
      d := Malformed;
      var header := ReadHeader();
      if header.None? {
        return;
      }
      var ports := ReadPortMappings();
      if ports.None? {
        return InvalidPort;
      }
      d := Accepted(Request(header.value.0, header.value.1, ports.value), data[pos..]);
    }

    method ReadMode() returns (r: Option<Mode>)
      requires Valid()
      modifies this
      ensures Valid()
      ensures match DecodeMode(old(Remaining()))
              case Got(v, rest) => r == Some(v) && Remaining() == rest
              case Fail => r == None
    {
      r := None;
      var mode := ReadU8();
      if mode.None? { return; }
      if mode.value == MODE_GUEST {
        var code := ReadU32Le();
        if code.None? { return; }
        r := Some(Guest(code.value));
      } else if mode.value == MODE_DEMO {
        r := Some(Demo);
      }
    }

    method ReadHeader() returns (r: Option<(Mode, string)>)
      requires Valid()
      modifies this
      ensures Valid()
      ensures match DecodeHeader(old(Remaining()))
              case Got(v, rest) => r == Some(v) && Remaining() == rest
              case Fail => r == None
    {
      r := None;
      var mode := ReadMode();
      if mode.None? { return; }
      var len := ReadU8();
      if len.None? { return; }
      var name := ReadBytes(len.value);
      if name.None? { return; }
      match Utf8.Decode(name.value) {
        case None =>
        case Some(s) => r := Some((mode.value, s));
      }
    }
  }

  /** The outcome of a loop that has already read `done`. */
  ghost function After(done: seq<PortMapping>, r: Parsed<seq<PortMapping>>): Parsed<seq<PortMapping>> {
    match r
    case Fail => Fail
    case Got(ms, rest) => Got(done + ms, rest)
  }

  lemma AfterNothing(r: Parsed<seq<PortMapping>>)
    ensures After([], r) == r
  {
    if r.Got? {
      assert [] + r.value == r.value;
    }
  }

  lemma OneMore(n: nat, b: seq<byte>)
    requires n > 0
    ensures DecodeMappings(n, b)
            == match DecodeMapping(b)
               case Fail => Fail
               case Got(m, rest) => After([m], DecodeMappings(n - 1, rest))
  {
  }

  lemma AfterAfter(done: seq<PortMapping>, m: PortMapping, r: Parsed<seq<PortMapping>>)
    ensures After(done + [m], r) == After(done, After([m], r))
  {
    if r.Got? {
      WireTheorems.Assoc(done, [m], r.value);
    }
  }

  lemma {:induction false} EncodeSnoc(ms: seq<PortMapping>, m: PortMapping)
    ensures EncodeMappings(ms + [m]) == EncodeMappings(ms) + EncodeMapping(m)
  {
    if ms == [] {
      assert ms + [m] == [m];
    } else {
      assert (ms + [m])[1..] == ms[1..] + [m];
      EncodeSnoc(ms[1..], m);
      WireTheorems.Assoc(EncodeMapping(ms[0]), EncodeMappings(ms[1..]), EncodeMapping(m));
    }
  }

  /** The message `start_container` builds. */
  method BuildMessage(image: string, ports: seq<PortMapping>, mode: Mode) returns (message: seq<byte>)
    ensures message == EncodeRequest(Request(mode, image, ports))
  {
    var bytes := Utf8.Encode(image);
    message := [if mode.Guest? then MODE_GUEST else MODE_DEMO];
    if mode.Guest? {
      message := message + Le32(mode.code);
    }
    message := message + [TruncateToByte(|bytes|)] + bytes;
    assert message == EncodeHeader(mode, image) by {
      WireTheorems.Assoc(EncodeMode(mode), [TruncateToByte(|bytes|)], bytes);
    }
    message := message + [TruncateToByte(|ports|)];
    ghost var front := message;
    for i := 0 to |ports|
      invariant message == front + EncodeMappings(ports[..i])
    {
      assert ports[..i + 1] == ports[..i] + [ports[i]];
      EncodeSnoc(ports[..i], ports[i]);
      WireTheorems.Assoc(front, EncodeMappings(ports[..i]), EncodeMapping(ports[i]));
      message := message + EncodeMapping(ports[i]);
    }
    assert ports[..|ports|] == ports;
    WireTheorems.Assoc(EncodeHeader(mode, image), [TruncateToByte(|ports|)], EncodeMappings(ports));
  }
}
