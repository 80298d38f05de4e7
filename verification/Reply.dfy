/** The daemon's answer: a result byte and, for a started guest session, the
    WireGuard configuration behind a two-byte length. */
module Reply {
  import opened Basics
  import opened Wire
  import Decimal
  import Utf8
  import WireTheorems
  import opened WireCode
  import Separators

  // ------------------------------------------------------------- the configuration

  datatype WgConfig = WgConfig(
    address: string,
    privateKey: string,
    publicKey: string,
    endpoint: string,
    allowedIps: string)

  function Line(tag: string, value: string, rest: string): string {
    tag + value + "\n" + rest
  }

  /** `WgConfig::serialize`. */
  function Serialize(c: WgConfig): string {
    Line("[Interface]", "", Line("Address = ", c.address, Line("PrivateKey = ", c.privateKey,
      Line("", "", PeerSection(c)))))
  }

  function PeerSection(c: WgConfig): string {
    Line("[Peer]", "", Line("PublicKey = ", c.publicKey,
      Line("Endpoint = ", c.endpoint, "AllowedIPs = " + c.allowedIps)))
  }

  predicate OneLine(s: string) {
    '\n' !in s
  }

  predicate OneLiners(c: WgConfig) {
    OneLine(c.address) && OneLine(c.privateKey) && OneLine(c.publicKey) && OneLine(c.endpoint)
  }

  lemma LineInjective(tag: string, v1: string, rest1: string, v2: string, rest2: string)
    requires OneLine(v1) && OneLine(v2)
    requires Line(tag, v1, rest1) == Line(tag, v2, rest2)
    ensures v1 == v2 && rest1 == rest2
  {
    var s := Line(tag, v1, rest1);
    var n := |tag|;
    assert s[n..n + |v1|] == v1 && s[n + |v1|] == '\n' && s[n + |v1| + 1..] == rest1;
    assert s[n..n + |v2|] == v2 && s[n + |v2|] == '\n' && s[n + |v2| + 1..] == rest2;
    assert forall i :: n <= i < n + |v1| ==> s[i] == v1[i - n] && s[i] != '\n';
    assert forall i :: n <= i < n + |v2| ==> s[i] == v2[i - n] && s[i] != '\n';
  }

  /** Different configurations print differently as long as no field but the last
      breaks its line. */
  lemma SerializeInjective(c: WgConfig, d: WgConfig)
    requires OneLiners(c) && OneLiners(d) && Serialize(c) == Serialize(d)
    ensures c == d
  {
    var c2, d2 := Line("", "", PeerSection(c)), Line("", "", PeerSection(d));
    var c1, d1 := Line("PrivateKey = ", c.privateKey, c2), Line("PrivateKey = ", d.privateKey, d2);
    LineInjective("[Interface]", "", Line("Address = ", c.address, c1), "", Line("Address = ", d.address, d1));
    LineInjective("Address = ", c.address, c1, d.address, d1);
    LineInjective("PrivateKey = ", c.privateKey, c2, d.privateKey, d2);
    LineInjective("", "", PeerSection(c), "", PeerSection(d));
    PeerInjective(c, d);
  }

  lemma PeerInjective(c: WgConfig, d: WgConfig)
    requires OneLiners(c) && OneLiners(d) && PeerSection(c) == PeerSection(d)
    ensures c.publicKey == d.publicKey && c.endpoint == d.endpoint && c.allowedIps == d.allowedIps
  {
    var c4, d4 := "AllowedIPs = " + c.allowedIps, "AllowedIPs = " + d.allowedIps;
    var c3, d3 := Line("Endpoint = ", c.endpoint, c4), Line("Endpoint = ", d.endpoint, d4);
    LineInjective("[Peer]", "", Line("PublicKey = ", c.publicKey, c3), "", Line("PublicKey = ", d.publicKey, d3));
    LineInjective("PublicKey = ", c.publicKey, c3, d.publicKey, d3);
    LineInjective("Endpoint = ", c.endpoint, c4, d.endpoint, d4);
    assert c4[13..] == c.allowedIps && d4[13..] == d.allowedIps;
  }

  /** A text cut at its line breaks. */
  function Lines(s: string): (ls: seq<string>)
    ensures |ls| > 0
  {
    if s == [] then
      [[]]
    else
      var rest := Lines(s[1..]);
      if s[0] == '\n' then [[]] + rest else [[s[0]] + rest[0]] + rest[1..]
  }

  lemma {:induction false} FirstLine(line: string, rest: string)
    requires OneLine(line)
    ensures Lines(line + "\n" + rest) == [line] + Lines(rest)
  {
    var s := line + "\n" + rest;
    if line == [] {
      assert s[1..] == rest;
    } else {
      assert s[1..] == line[1..] + "\n" + rest;
      FirstLine(line[1..], rest);
      assert [s[0]] + line[1..] == line;
    }
  }

  lemma {:induction false} LastLine(line: string)
    requires OneLine(line)
    ensures Lines(line) == [line]
  {
    if line != [] {
      LastLine(line[1..]);
      assert line[0] in line;
      assert [line[0]] + line[1..] == line;
    }
  }

  lemma LineIsFirst(tag: string, value: string, rest: string)
    requires OneLine(tag) && OneLine(value)
    ensures Lines(Line(tag, value, rest)) == [tag + value] + Lines(rest)
  {
    FirstLine(tag + value, rest);
  }

  lemma PeerLines(c: WgConfig)
    requires OneLiners(c) && OneLine(c.allowedIps)
    ensures Lines(PeerSection(c))
            == ["[Peer]"] + (["PublicKey = " + c.publicKey]
                             + (["Endpoint = " + c.endpoint] + ["AllowedIPs = " + c.allowedIps]))
  {
    var c4 := "AllowedIPs = " + c.allowedIps;
    var c3 := Line("Endpoint = ", c.endpoint, c4);
    LastLine(c4);
    LineIsFirst("Endpoint = ", c.endpoint, c4);
    LineIsFirst("PublicKey = ", c.publicKey, c3);
    LineIsFirst("[Peer]", "", Line("PublicKey = ", c.publicKey, c3));
    assert "[Peer]" + "" == "[Peer]";
  }

  /** What `wg-quick` will read: two sections, each setting on a line of its own
      under its own name. */
  lemma SerializedLines(c: WgConfig)
    requires OneLiners(c) && OneLine(c.allowedIps)
    ensures Lines(Serialize(c))
            == ["[Interface]", "Address = " + c.address, "PrivateKey = " + c.privateKey, "",
                "[Peer]", "PublicKey = " + c.publicKey, "Endpoint = " + c.endpoint, "AllowedIPs = " + c.allowedIps]
  {
    var c2 := Line("", "", PeerSection(c));
    var c1 := Line("PrivateKey = ", c.privateKey, c2);
    PeerLines(c);
    LineIsFirst("", "", PeerSection(c));
    LineIsFirst("PrivateKey = ", c.privateKey, c2);
    LineIsFirst("Address = ", c.address, c1);
    LineIsFirst("[Interface]", "", Line("Address = ", c.address, c1));
    assert "[Interface]" + "" == "[Interface]" && "" + "" == "";
  }

  lemma LineShift(tag1: string, a: string, tag2: string, b: string, c: string, rest: string)
    ensures Line(tag1, a, Line(tag2, b + "\n" + tag2 + c, rest)) == Line(tag1, a + "\n" + tag2 + b, Line(tag2, c, rest))
  {
  }

  /** A field that does break its line can forge the next one, whatever else it holds. */
  lemma NewlinesCollide(a: string, b: string, c: string, publicKey: string, endpoint: string, allowedIps: string)
    ensures Serialize(WgConfig(a, b + "\n" + "PrivateKey = " + c, publicKey, endpoint, allowedIps))
            == Serialize(WgConfig(a + "\n" + "PrivateKey = " + b, c, publicKey, endpoint, allowedIps))
    ensures a != a + "\n" + "PrivateKey = " + b
  {
    var rest := Line("", "", PeerSection(WgConfig(a, c, publicKey, endpoint, allowedIps)));
    LineShift("Address = ", a, "PrivateKey = ", b, c, rest);
    assert |a| < |a + "\n" + "PrivateKey = " + b|;
  }

  // ------------------------------------------------------------- when it can be read back

  /** What `serialize` writes between one field and the next. */
  const KEY_TAG := "\n" + "PrivateKey = "
  const PEER_TAG := "\n" + ("\n" + ("[Peer]" + ("\n" + "PublicKey = ")))
  const ENDPOINT_TAG := "\n" + "Endpoint = "
  const IPS_TAG := "\n" + "AllowedIPs = "
  const TAGS := [KEY_TAG, PEER_TAG, ENDPOINT_TAG, IPS_TAG]

  function Fields(c: WgConfig): seq<string> {
    [c.address, c.privateKey, c.publicKey, c.endpoint, c.allowedIps]
  }

  function FromFields(fs: seq<string>): (c: WgConfig)
    requires |fs| == 5
    ensures Fields(c) == fs
  {
    WgConfig(fs[0], fs[1], fs[2], fs[3], fs[4])
  }

  /** A line whose successor starts with `next`, as a tag and what follows it. */
  lemma TagLine(tag: string, value: string, next: string, text: string)
    ensures Line(tag, value, next + text) == tag + (value + ("\n" + next) + text)
  {
  }

  lemma EmptyLine(tag: string, next: string, text: string)
    ensures Line(tag, "", next + text) == (tag + ("\n" + next)) + text
  {
  }

  lemma JoinPeer(c: WgConfig)
    ensures Line("", "", PeerSection(c))
            == "\n" + ("[Peer]" + ("\n" + "PublicKey = "))
               + Separators.Join([c.publicKey, c.endpoint, c.allowedIps], [ENDPOINT_TAG, IPS_TAG])
  {
    var ips := Separators.Join([c.allowedIps], []);
    var endpoint := c.endpoint + IPS_TAG + ips;
    var peer := c.publicKey + ENDPOINT_TAG + endpoint;
    Separators.JoinCons(c.endpoint, [c.allowedIps], IPS_TAG, []);
    Separators.JoinCons(c.publicKey, [c.endpoint, c.allowedIps], ENDPOINT_TAG, [IPS_TAG]);
    TagLine("Endpoint = ", c.endpoint, "AllowedIPs = ", ips);
    TagLine("PublicKey = ", c.publicKey, "Endpoint = ", endpoint);
    EmptyLine("[Peer]", "PublicKey = ", peer);
    EmptyLine("", "[Peer]" + ("\n" + "PublicKey = "), peer);
  }

  const HEAD := "[Interface]" + ("\n" + "Address = ")

  lemma SerializeJoins(c: WgConfig)
    ensures Serialize(c) == HEAD + Separators.Join(Fields(c), TAGS)
  {
    var peer := Separators.Join([c.publicKey, c.endpoint, c.allowedIps], [ENDPOINT_TAG, IPS_TAG]);
    var key := c.privateKey + PEER_TAG + peer;
    JoinPeer(c);
    Separators.JoinCons(c.privateKey, [c.publicKey, c.endpoint, c.allowedIps], PEER_TAG, [ENDPOINT_TAG, IPS_TAG]);
    Separators.JoinCons(c.address, Fields(c)[1..], KEY_TAG, TAGS[1..]);
    TagLine("PrivateKey = ", c.privateKey, "\n" + ("[Peer]" + ("\n" + "PublicKey = ")), peer);
    TagLine("Address = ", c.address, "PrivateKey = ", key);
    EmptyLine("[Interface]", "Address = ", c.address + KEY_TAG + key);
  }

  lemma LoneBreak(tag: string)
    requires tag != [] && tag[0] == '\n' && forall k :: 0 < k < |tag| ==> tag[k] != '\n'
    ensures Separators.Unbordered(tag)
  {
    forall k | 0 < k < |tag|
      ensures tag[k..] != tag[..|tag| - k]
    {
      assert tag[k..][0] != tag[..|tag| - k][0];
    }
  }

  lemma TagsUnbordered()
    ensures forall i :: 0 <= i < |TAGS| ==> TAGS[i] != [] && Separators.Unbordered(TAGS[i])
  {
    LoneBreak(KEY_TAG);
    LoneBreak(ENDPOINT_TAG);
    LoneBreak(IPS_TAG);
    forall k | 0 < k < |PEER_TAG|
      ensures PEER_TAG[k..] != PEER_TAG[..|PEER_TAG| - k]
    {
      assert PEER_TAG[k] != '\n' || (k + 1 < |PEER_TAG| && PEER_TAG[k + 1] != '\n');
      assert PEER_TAG[k..][0] == PEER_TAG[k];
      if PEER_TAG[k] == '\n' {
        assert PEER_TAG[k..][1] == PEER_TAG[k + 1];
      }
    }
  }

  /** A configuration prints like no other if and only if none of its fields contains
      what is printed in front of it or behind it. */
  lemma {:induction false} ReadableExactlyWhenClear(c: WgConfig)
    ensures Separators.Clear(Fields(c), TAGS) <==> forall d: WgConfig :: Serialize(d) == Serialize(c) ==> d == c
  {
    TagsUnbordered();
    SerializeJoins(c);
    if Separators.Clear(Fields(c), TAGS) {
      forall d: WgConfig | Serialize(d) == Serialize(c)
        ensures d == c
      {
        SerializeJoins(d);
        SameTail(HEAD, Separators.Join(Fields(c), TAGS), Separators.Join(Fields(d), TAGS));
        Separators.ClearIsUnique(Fields(c), Fields(d), TAGS);
      }
    } else {
      var gs := Separators.UnclearIsAmbiguous(Fields(c), TAGS);
      var d := FromFields(gs);
      SerializeJoins(d);
      assert Serialize(d) == Serialize(c) && d != c;
    }
  }

  lemma SameTail(head: string, s: string, t: string)
    requires head + s == head + t
    ensures s == t
  {
    assert s == (head + s)[|head|..] && t == (head + t)[|head|..];
  }

  // ------------------------------------------------------------- what the daemon builds

  predicate Ascii(s: string) {
    forall i :: 0 <= i < |s| ==> s[i] as int < 0x80
  }

  /** A 32-byte key in base64: 44 characters of the alphabet of section 4 of RFC 4648. */
  predicate IsKey(s: string) {
    |s| == 44 && Ascii(s) && OneLine(s)
  }

  /** The configuration `add_temp_peer` returns. */
  function ConfigFor(addr: byte, privateKey: string, publicKey: string, domainName: bool): WgConfig {
    WgConfig("10.4.1." + Decimal.Print(addr) + "/32", privateKey, publicKey, Endpoint(domainName), ALLOWED_IPS)
  }

  const ALLOWED_IPS := "10.4.2.0/32"

  /** Chosen by the `domain_name` build feature. */
  function Endpoint(domainName: bool): string {
    if domainName then "scdt.club:51820" else "127.0.0.1:51820"
  }

  lemma EndpointAscii(domainName: bool)
    ensures Ascii(Endpoint(domainName)) && OneLine(Endpoint(domainName)) && |Endpoint(domainName)| == 15
    ensures Ascii(ALLOWED_IPS) && |ALLOWED_IPS| == 11
  {
  }

  /** An ASCII line before ASCII text is ASCII, of known length. */
  lemma AsciiLine(tag: string, value: string, rest: string)
    requires Ascii(tag) && Ascii(value) && Ascii(rest)
    ensures Ascii(Line(tag, value, rest))
    ensures |Line(tag, value, rest)| == |tag| + |value| + 1 + |rest|
  {
  }

  lemma AddressAscii(addr: byte)
    ensures var s := "10.4.1." + Decimal.Print(addr) + "/32"; Ascii(s) && OneLine(s) && |s| <= 13
  {
    Decimal.DigitsOnly(addr);
    Decimal.ShortPrint(addr);
  }

  lemma SerializeAscii(c: WgConfig)
    requires Ascii(c.address) && Ascii(c.privateKey) && Ascii(c.publicKey) && Ascii(c.endpoint) && Ascii(c.allowedIps)
    ensures |Utf8.Encode(Serialize(c))|
            == 83 + |c.address| + |c.privateKey| + |c.publicKey| + |c.endpoint| + |c.allowedIps|
  {
    var c4 := "AllowedIPs = " + c.allowedIps;
    var c3 := Line("Endpoint = ", c.endpoint, c4);
    AsciiLine("Endpoint = ", c.endpoint, c4);
    AsciiLine("PublicKey = ", c.publicKey, c3);
    AsciiLine("[Peer]", "", Line("PublicKey = ", c.publicKey, c3));
    var c2 := Line("", "", PeerSection(c));
    var c1 := Line("PrivateKey = ", c.privateKey, c2);
    AsciiLine("", "", PeerSection(c));
    AsciiLine("PrivateKey = ", c.privateKey, c2);
    AsciiLine("Address = ", c.address, c1);
    AsciiLine("[Interface]", "", Line("Address = ", c.address, c1));
    Utf8.AsciiLength(Serialize(c));
  }

  /** The reply's length cast never truncates: every configuration the daemon builds
      is plain ASCII on single lines and far below 65536 bytes. */
  lemma ConfigIsSmall(addr: byte, privateKey: string, publicKey: string, domainName: bool)
    requires IsKey(privateKey) && IsKey(publicKey)
    ensures var c := ConfigFor(addr, privateKey, publicKey, domainName);
            OneLiners(c) && |Utf8.Encode(Serialize(c))| <= 210
  {
    var c := ConfigFor(addr, privateKey, publicKey, domainName);
    AddressAscii(addr);
    EndpointAscii(domainName);
    SerializeAscii(c);
  }

  // ------------------------------------------------------------- the exchange

  /** How a request ends for the client: refused with a code, started, or dropped
      because the session task panicked before replying. */
  datatype Outcome = Refused(code: byte) | Started(config: Option<WgConfig>) | Lost

  /** Everything the daemon writes before it closes the stream. A configuration too
      long for its length field panics the writer after the result byte. */
  function ReplyBytes(o: Outcome): seq<byte> {
    match o
    case Refused(code) => [code]
    case Lost => []
    case Started(None) => [RESULT_OK]
    case Started(Some(c)) =>
      var bytes := Utf8.Encode(Serialize(c));
      if |bytes| < 0x1_0000 then [RESULT_OK] + Le16(|bytes|) + bytes else [RESULT_OK]
  }

  /** The bytes of each reply, as numbers. */
  lemma {:induction false} ReplyLayout(o: Outcome)
    ensures o.Refused? ==> ReplyBytes(o) == [o.code]
    ensures o.Lost? ==> ReplyBytes(o) == []
    ensures o == Started(None) ==> ReplyBytes(o) == [0]
    ensures o.Started? && o.config.Some? ==>
              var bytes := Utf8.Encode(Serialize(o.config.value));
              ReplyBytes(o) == if |bytes| < 65536 then [0, |bytes| % 256, |bytes| / 256] + bytes else [0]
  {
    if o.Started? && o.config.Some? {
      var bytes := Utf8.Encode(Serialize(o.config.value));
      if |bytes| < 65536 {
        assert [RESULT_OK] + Le16(|bytes|) == [0, |bytes| % 256, |bytes| / 256];
      }
    }
  }

  datatype ClientResult = Ok(config: string) | ResponseCode(code: byte) | Io | Utf8Panic

  /** The reading half of `start_container`. */
  method ReadReply(s: ByteStream, guest: bool) returns (r: ClientResult)
    requires s.Valid()
    modifies s
    ensures s.Valid()
    ensures (r, if r.Ok? || r.ResponseCode? then s.Remaining() else []) == ParseReply(old(s.Remaining()), guest)
  {
    var resp := s.ReadU8();
    if resp.None? {
      return Io;
    }
    if resp.value != RESULT_OK {
      return ResponseCode(resp.value);
    }
    if !guest {
      return Ok("");
    }
    var len := s.ReadU16Le();
    if len.None? {
      return Io;
    }
    var buf := s.ReadBytes(len.value);
    if buf.None? {
      return Io;
    }
    match Utf8.Decode(buf.value) {
      case None => r := Utf8Panic;
      case Some(config) => r := Ok(config);
    }
  }

  /** The client's result and the bytes it leaves unread. */
  function ParseReply(b: seq<byte>, guest: bool): (ClientResult, seq<byte>) {
    match ReadByte(b)
    case Fail => (Io, [])
    case Got(resp, b1) =>
      if resp != RESULT_OK then
        (ResponseCode(resp), b1)
      else if !guest then
        (Ok(""), b1)
      else
        match ReadLe16(b1)
        case Fail => (Io, [])
        case Got(len, b2) =>
          match ReadExact(len, b2)
          case Fail => (Io, [])
          case Got(buf, b3) =>
            match Utf8.Decode(buf)
            case None => (Utf8Panic, [])
            case Some(config) => (Ok(config), b3)
  }

  lemma {:induction false} FramedRoundTrip(text: string)
    requires |Utf8.Encode(text)| < 0x1_0000
    ensures var bytes := Utf8.Encode(text);
            ParseReply([RESULT_OK] + Le16(|bytes|) + bytes, true) == (Ok(text), [])
  {
    var bytes := Utf8.Encode(text);
    var b := [RESULT_OK] + Le16(|bytes|) + bytes;
    FrameParts(bytes, b);
    assert bytes[..|bytes|] == bytes && bytes[|bytes|..] == [];
    assert ReadExact(|bytes|, bytes) == Got(bytes, []);
    Utf8.RoundTrip(text);
  }

  lemma FrameParts(bytes: seq<byte>, b: seq<byte>)
    requires |bytes| < 0x1_0000 && b == [RESULT_OK] + Le16(|bytes|) + bytes
    ensures ReadByte(b) == Got(RESULT_OK, b[1..]) && ReadLe16(b[1..]) == Got(|bytes|, bytes)
  {
    assert b[1..] == Le16(|bytes|) + bytes;
    WireTheorems.Cut(Le16(|bytes|), bytes);
  }

  /** For every mode and outcome the client recovers what the daemon meant and reads
      every byte it wrote, exactly when a configuration accompanies guest mode only
      and fits its length field. */
  lemma {:induction false} ReplyRecovered(o: Outcome, guest: bool)
    requires o.Refused? ==> o.code != 0
    requires o.Started? ==> (guest <==> o.config.Some?)
    ensures ParseReply(ReplyBytes(o), guest)
            == (match o
                case Refused(code) => (ResponseCode(code), [])
                case Lost => (Io, [])
                case Started(None) => (Ok(""), [])
                case Started(Some(c)) => (Ok(Serialize(c)), []))
            <==> (o.Started? && o.config.Some? ==> |Utf8.Encode(Serialize(o.config.value))| < 0x1_0000)
  {
    match o {
      case Refused(code) => assert ReplyBytes(o)[1..] == [];
      case Lost =>
      case Started(None) => assert ReplyBytes(o)[1..] == [];
      case Started(Some(c)) =>
        if |Utf8.Encode(Serialize(c))| < 0x1_0000 {
          FramedRoundTrip(Serialize(c));
        }
    }
  }

  lemma {:induction false} ConfigLines(addr: byte, privateKey: string, publicKey: string, domainName: bool)
    requires IsKey(privateKey) && IsKey(publicKey)
    ensures Lines(Serialize(ConfigFor(addr, privateKey, publicKey, domainName)))
            == ["[Interface]",
                "Address = 10.4.1." + Decimal.Print(addr) + "/32",
                "PrivateKey = " + privateKey,
                "",
                "[Peer]",
                "PublicKey = " + publicKey,
                if domainName then "Endpoint = scdt.club:51820" else "Endpoint = 127.0.0.1:51820",
                "AllowedIPs = 10.4.2.0/32"]
  {
    var c := ConfigFor(addr, privateKey, publicKey, domainName);
    ConfigIsSmall(addr, privateKey, publicKey, domainName);
    SerializedLines(c);
    AddressLine(Decimal.Print(addr));
    EndpointLine(domainName);
  }

  lemma AddressLine(addr: string)
    ensures "Address = " + ("10.4.1." + addr + "/32") == "Address = 10.4.1." + addr + "/32"
  {
    assert "Address = " + "10.4.1." == "Address = 10.4.1.";
    WireTheorems.Assoc("Address = ", "10.4.1.", addr);
    WireTheorems.Assoc("Address = ", "10.4.1." + addr, "/32");
  }

  lemma EndpointLine(domainName: bool)
    ensures "Endpoint = " + Endpoint(domainName)
            == if domainName then "Endpoint = scdt.club:51820" else "Endpoint = 127.0.0.1:51820"
    ensures "AllowedIPs = " + ALLOWED_IPS == "AllowedIPs = 10.4.2.0/32"
  {
  }

  /** What the client of a started guest holds after the exchange: its own address and
      private key, the server's public key, the endpoint of the build and the network
      of the challenges, each on its line. */
  lemma {:induction false} GuestReads(addr: byte, privateKey: string, publicKey: string, domainName: bool)
    requires IsKey(privateKey) && IsKey(publicKey)
    ensures var c := ConfigFor(addr, privateKey, publicKey, domainName);
            var (r, rest) := ParseReply(ReplyBytes(Started(Some(c))), true);
            && r.Ok? && rest == []
            && Lines(r.config)
               == ["[Interface]",
                   "Address = 10.4.1." + Decimal.Print(addr) + "/32",
                   "PrivateKey = " + privateKey,
                   "",
                   "[Peer]",
                   "PublicKey = " + publicKey,
                   if domainName then "Endpoint = scdt.club:51820" else "Endpoint = 127.0.0.1:51820",
                   "AllowedIPs = 10.4.2.0/32"]
  {
    GuestGetsConfig(addr, addr, privateKey, privateKey, publicKey, domainName);
    ConfigLines(addr, privateKey, publicKey, domainName);
  }

  /** A started guest always gets its own configuration, in full, and two guests with
      different addresses or keys get different ones. */
  lemma {:induction false} GuestGetsConfig(a1: byte, a2: byte, key1: string, key2: string,
                                           publicKey: string, domainName: bool)
    requires IsKey(key1) && IsKey(key2) && IsKey(publicKey)
    ensures var c := ConfigFor(a1, key1, publicKey, domainName);
            ParseReply(ReplyBytes(Started(Some(c))), true) == (Ok(Serialize(c)), [])
    ensures (ReplyBytes(Started(Some(ConfigFor(a1, key1, publicKey, domainName))))
             == ReplyBytes(Started(Some(ConfigFor(a2, key2, publicKey, domainName)))))
            <==> (a1 == a2 && key1 == key2)
  {
    var c, d := ConfigFor(a1, key1, publicKey, domainName), ConfigFor(a2, key2, publicKey, domainName);
    ConfigIsSmall(a1, key1, publicKey, domainName);
    ConfigIsSmall(a2, key2, publicKey, domainName);
    ReplyRecovered(Started(Some(c)), true);
    ReplyRecovered(Started(Some(d)), true);
    if ReplyBytes(Started(Some(c))) == ReplyBytes(Started(Some(d))) {
      SerializeInjective(c, d);
      var p1, p2 := Decimal.Print(a1), Decimal.Print(a2);
      assert c.address[7..|c.address| - 3] == p1 && d.address[7..|d.address| - 3] == p2;
      Decimal.Injective(a1, a2);
    }
  }
}
