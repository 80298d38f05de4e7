/** End to end: from the administrator's port map to the Docker bindings. */
module Delivery {
  import opened Basics
  import opened Wire
  import opened Challenges
  import opened Ports
  import opened WireCode
  import Addresses
  import Lifecycle
  import LifecycleRequests
  import LifecycleTheorems
  import Utf8
  import WireTheorems

  /** The mappings list each exposed port once, the same number on both sides. */
  ghost predicate Lists(ms: seq<PortMapping>, ports: ExposedPorts) {
    && |ms| == |ports|
    && (forall i :: 0 <= i < |ms| ==>
          ms[i].fromPort == ms[i].toPort && ms[i].fromPort in ports && ports[ms[i].fromPort] == ms[i].portType)
    && (forall i, j :: 0 <= i < j < |ms| ==> ms[i].fromPort != ms[j].fromPort)
    && (forall p :: p in ports ==> PortMapping(p, p, ports[p]) in ms)
  }

  /** A null-free row unpacks index by index. */
  lemma {:induction false} UnpackAt(row: Row, i: nat)
    requires NullFree(row) && i < |row.portNumbers|
    ensures Unpack(row).Mappings? && |Unpack(row).ms| == |row.portNumbers|
    ensures var n := AsU16(row.portNumbers[i].value); Unpack(row).ms[i] == PortMapping(n, n, row.portTypes[i].value)
  {
    FlattenAll(row.portNumbers);
    FlattenAll(row.portTypes);
    ZipAt(Flatten(row.portNumbers), Flatten(row.portTypes), i);
  }

  lemma UnpackLength(row: Row)
    requires NullFree(row)
    ensures Unpack(row).Mappings? && |Unpack(row).ms| == |row.portNumbers|
  {
    FlattenAll(row.portNumbers);
    FlattenAll(row.portTypes);
  }

  lemma UnpackCovers(row: Row, ports: ExposedPorts, p: u16)
    requires PackedFrom(row, ports) && p in ports
    ensures Unpack(row).Mappings? && PortMapping(p, p, ports[p]) in Unpack(row).ms
  {
    assert Some(AsI16(p)) in row.portNumbers;
    var i :| 0 <= i < |row.portNumbers| && row.portNumbers[i] == Some(AsI16(p));
    CastsInvert(p, 0);
    UnpackAt(row, i);
  }

  /** No assertion fails on a packed row, and its mappings list the exposed ports. */
  lemma {:induction false} UnpackPacked(row: Row, ports: ExposedPorts)
    requires PackedFrom(row, ports)
    ensures Unpack(row).Mappings? && Lists(Unpack(row).ms, ports)
  {
    UnpackLength(row);
    var ms := Unpack(row).ms;
    forall i: nat | i < |ms|
      ensures ms[i].fromPort == ms[i].toPort && ms[i].fromPort in ports && ports[ms[i].fromPort] == ms[i].portType
    {
      UnpackAt(row, i);
    }
    forall p | p in ports
      ensures PortMapping(p, p, ports[p]) in ms
    {
      UnpackCovers(row, ports, p);
    }
    forall i: nat, j: nat | i < j < |ms|
      ensures ms[i].fromPort != ms[j].fromPort
    {
      UnpackAt(row, i);
      UnpackAt(row, j);
      CastsInvert(0, row.portNumbers[i].value);
      CastsInvert(0, row.portNumbers[j].value);
      assert row.portNumbers[i] != row.portNumbers[j];
    }
  }

  /** Exactly one binding per exposed port, with that port and protocol on both
      sides and the given host address. */
  ghost predicate Exposes(h: BindingMap, ports: ExposedPorts, addr: Option<byte>) {
    |h| == |ports| && forall p :: p in ports ==> Binds(h, PortMapping(p, p, ports[p]), addr)
  }

  lemma {:induction false} ListedBindings(ms: seq<PortMapping>, ports: ExposedPorts, addr: Option<byte>)
    requires Lists(ms, ports)
    ensures Exposes(Bindings(ms, addr), ports, addr)
  {
    assert DistinctPorts(ms);
    DistinctKeepsAll(ms, addr);
    forall p | p in ports
      ensures Binds(Bindings(ms, addr), PortMapping(p, p, ports[p]), addr)
    {
      var i :| 0 <= i < |ms| && ms[i] == PortMapping(p, p, ports[p]);
    }
  }

  lemma {:induction false} FewerBindings(ms: seq<PortMapping>, addr: Option<byte>)
    ensures |Bindings(ms, addr)| <= |ms|
  {
    if ms != [] {
      FewerBindings(ms[..|ms| - 1], addr);
    }
  }

  /** The request `start` or `host_demo` sends for a stored row. */
  function RequestFor(row: Row, mode: Mode): Request
    requires row.dockerImage.Some? && Unpack(row).Mappings?
  {
    Request(mode, row.dockerImage.value, Unpack(row).ms)
  }

  lemma ImageFitsLengthByte(row: Row)
    requires row.dockerImage.Some? && ImageFits(row)
    ensures FitsName(row.dockerImage.value)
  {
    Utf8.LengthBound(row.dockerImage.value);
  }

  /** What `start` and `host_demo` do with a challenge id. */
  datatype StartResult = NoSuchChallenge | NotConfigured | AssertionPanic | Send(request: Request)

  function StartChallenge(rows: map<int, Row>, id: int, mode: Mode): StartResult {
    if id !in rows then
      NoSuchChallenge
    else if rows[id].dockerImage.None? then
      NotConfigured
    else
      match Unpack(rows[id])
      case AssertionFailed => AssertionPanic
      case Mappings(ms) => Send(Request(mode, rows[id].dockerImage.value, ms))
  }

  /** On every table the two operations can produce, the loud assertions never fire: a
      configured challenge is always sent, with its own image, which fits the length
      byte, in the mode asked for, guest code included, and with the ports exposed. */
  lemma StartNeverPanics(rows: map<int, Row>, id: int, mode: Mode)
    requires forall k :: k in rows ==> WellPacked(rows[k])
    ensures StartChallenge(rows, id, mode) == NoSuchChallenge <==> id !in rows
    ensures StartChallenge(rows, id, mode) == NotConfigured <==> id in rows && rows[id].dockerImage.None?
    ensures id in rows && rows[id].dockerImage.Some? ==>
              && StartChallenge(rows, id, mode).Send?
              && var request := StartChallenge(rows, id, mode).request;
                 && request.image == rows[id].dockerImage.value && |Utf8.Encode(request.image)| <= 255
                 && request.mode == mode
                 && forall ports: ExposedPorts :: PackedFrom(rows[id], ports) ==> Lists(request.ports, ports)
  {
    if id in rows && rows[id].dockerImage.Some? {
      assert WellPacked(rows[id]);
      ImageFitsLengthByte(rows[id]);
      forall ports: ExposedPorts | PackedFrom(rows[id], ports)
        ensures Lists(Unpack(rows[id]).ms, ports)
      {
        UnpackPacked(rows[id], ports);
      }
    }
  }

  /** Whatever order the hash map was iterated in: the daemon accepts the request
      sent for a configured row, reads no byte beyond it, understands its image and mode
      and binds exactly the exposed ports on whatever address it is given, if and only
      if fewer than ten ports are exposed. */
  lemma {:induction false} EndToEnd(row: Row, ports: ExposedPorts, mode: Mode, addr: Option<byte>, rest: seq<byte>)
    requires PackedFrom(row, ports) && row.dockerImage.Some? && ImageFits(row)
    ensures Unpack(row).Mappings?
    ensures var d := DecodeRequest(EncodeRequest(RequestFor(row, mode)) + rest);
            (&& d.Accepted? && d.rest == rest
             && d.request.image == row.dockerImage.value
             && d.request.mode == mode
             && Exposes(Bindings(d.request.ports, addr), ports, addr))
            <==> |ports| < 10
  {
    UnpackPacked(row, ports);
    ImageFitsLengthByte(row);
    var req := RequestFor(row, mode);
    if |ports| < 10 {
      WireTheorems.RoundTripExactly(req, rest);
      ListedBindings(req.ports, ports, addr);
    } else {
      TooManyMappings(req, addr, rest);
    }
  }

  lemma {:induction false} TooManyMappings(req: Request, addr: Option<byte>, rest: seq<byte>)
    requires FitsName(req.image) && |req.ports| >= 10
    ensures var d := DecodeRequest(EncodeRequest(req) + rest);
            if |req.ports| % 256 >= 10 then d == InvalidPort
            else && d.Accepted? && d.request.image == req.image && d.request.mode == req.mode
                 && |Bindings(d.request.ports, addr)| < |req.ports|
  {
    var kept := req.ports[..|req.ports| % 256];
    assert |req.ports| % 256 < 10 ==> |kept| < |req.ports|;
    FewerBindings(kept, addr);
    WireTheorems.DecodeOfEncode(req, rest);
  }

  /** With ten ports or more nothing is bound correctly: the daemon answers
      INVALID_PORT, or, where the count byte wraps round, binds fewer ports. */
  lemma {:induction false} TooManyPorts(row: Row, ports: ExposedPorts, mode: Mode, addr: Option<byte>, rest: seq<byte>)
    requires PackedFrom(row, ports) && row.dockerImage.Some? && ImageFits(row)
    ensures Unpack(row).Mappings?
    ensures |ports| >= 10 ==>
              var d := DecodeRequest(EncodeRequest(RequestFor(row, mode)) + rest);
              if |ports| % 256 >= 10 then d == InvalidPort
              else && d.Accepted? && d.request.image == row.dockerImage.value && d.request.mode == mode
                   && |Bindings(d.request.ports, addr)| < |ports|
  {
    UnpackPacked(row, ports);
    ImageFitsLengthByte(row);
    if |ports| >= 10 {
      TooManyMappings(RequestFor(row, mode), addr, rest);
    }
  }

  // ------------------------------------------------------------- the two programs

  /** What comes of a start: the daemon's refusal code, or what it makes of the request:
      for whom, from which image, on which address and with which port bindings. */
  datatype Outcome =
    | NotSent
    | Refused(code: byte)
    | Bound(mode: Mode, image: string, addr: Option<byte>, bindings: BindingMap)

  /** The mode chooses the host address: the least free one for a guest, none for a
      demo. The flags change accordingly. */
  ghost predicate AddressFor(mode: Mode, used: seq<bool>, used': seq<bool>, addr: Option<byte>) {
    match mode
    case Demo => addr.None? && used' == used
    case Guest(_) =>
      addr.Some? && addr.value >= 1 && IsLeastFree(used, 0, addr.value - 1) && used' == used[addr.value - 1 := true]
  }

  /** The handler's answer to an accepted request: BUSY, or its image started in its
      mode on the address of that mode. */
  ghost predicate Answers(o: Outcome, mode: Mode, image: string, used: seq<bool>, used': seq<bool>) {
    if mode.Guest? && AllSet(used) then
      o == Refused(3) && used' == used
    else
      o.Bound? && o.mode == mode && o.image == image && AddressFor(mode, used, used', o.addr)
  }

  /** The address `handle` takes for an accepted request. */
  method ChooseAddress(mode: Mode, addrs: Addresses.AddressManager) returns (busy: bool, addr: Option<byte>)
    requires addrs.Valid()
    modifies addrs.used
    ensures busy <==> mode.Guest? && AllSet(old(addrs.used[..]))
    ensures busy ==> addrs.used[..] == old(addrs.used[..])
    ensures !busy ==> AddressFor(mode, old(addrs.used[..]), addrs.used[..], addr)
  {
    busy, addr := false, None;
    if mode.Guest? {
      addr := addrs.TakeNextAddr();
      busy := addr.None?;
    }
  }

  /** The daemon's handler, up to the port map it gives Docker. */
  method Handle(message: seq<byte>, addrs: Addresses.AddressManager) returns (o: Outcome)
    requires addrs.Valid()
    modifies addrs.used
    ensures match DecodeRequest(message)
            case Malformed => o == Refused(1) && addrs.used[..] == old(addrs.used[..])
            case InvalidPort => o == Refused(2) && addrs.used[..] == old(addrs.used[..])
            case Accepted(request, _) =>
              && Answers(o, request.mode, request.image, old(addrs.used[..]), addrs.used[..])
              && (o.Bound? ==> o.bindings == Bindings(request.ports, o.addr))
  {
    var stream := new ByteStream(message);
    var verdict := stream.ReadRequest();
    match verdict
    case Malformed => o := Refused(RESULT_MALFORMED_REQUEST);
    case InvalidPort => o := Refused(RESULT_INVALID_PORT);
    case Accepted(request, _) =>
      var busy, addr := ChooseAddress(request.mode, addrs);
      if busy {
        o := Refused(RESULT_BUSY);
      } else {
        var h := IntoHashmap(request.ports, addr);
        o := Bound(request.mode, request.image, addr, h);
      }
  }

  /** What the administrator's image and port map must lead to. */
  ghost predicate Delivered(
      o: Outcome, image: string, ports: ExposedPorts, mode: Mode, used: seq<bool>, used': seq<bool>) {
    if |ports| >= 10 && |ports| % 256 >= 10 then
      o == Refused(2) && used' == used
    else
      && Answers(o, mode, image, used, used')
      && (o.Bound? ==> if |ports| < 10 then Exposes(o.bindings, ports, o.addr) else |o.bindings| < |ports|)
  }

  /** The request for a configured row, sent by one program and handled by the other. */
  method SendAndHandle(request: Request, ghost row: Row, ghost ports: ExposedPorts, addrs: Addresses.AddressManager)
    returns (o: Outcome)
    requires PackedFrom(row, ports) && row.dockerImage.Some? && ImageFits(row) && addrs.Valid()
    requires Unpack(row).Mappings? && request == RequestFor(row, request.mode)
    modifies addrs.used
    ensures Delivered(o, row.dockerImage.value, ports, request.mode, old(addrs.used[..]), addrs.used[..])
  {
    var message := BuildMessage(request.image, request.ports, request.mode);
    o := Handle(message, addrs);
    assert message == EncodeRequest(request) + [];
    ghost var addr := if o.Bound? then o.addr else None;
    EndToEnd(row, ports, request.mode, addr, []);
    TooManyPorts(row, ports, request.mode, addr, []);
  }

  /** Both programs one after the other: configure the challenge, start it, send the
      message, read it in the daemon, take the address, build Docker's port map. */
  method ConfigureAndStart(
      table: ChallengeTable, id: int, image: string, ports: ExposedPorts, mode: Mode, addrs: Addresses.AddressManager)
    returns (status: Status, o: Outcome)
    requires table.Valid() && addrs.Valid()
    modifies table, addrs.used
    ensures table.Valid()
    ensures id in old(table.rows) ==>
              (status == Success <==>
               && Stored(image).Some?
               && !exists k :: k in old(table.rows) && k != id && old(table.rows)[k].dockerImage == Stored(image))
    ensures status == Success && id in old(table.rows) ==>
              && Stored(image).Some?
              && Delivered(o, Stored(image).value, ports, mode, old(addrs.used[..]), addrs.used[..])
    ensures status != Success || id !in old(table.rows) ==>
              o == NotSent && table.rows == old(table.rows) && addrs.used[..] == old(addrs.used[..])
  {
    o := NotSent;
    status := table.ConfigureDocker(true, id, image, ports);
    var start := StartChallenge(table.rows, id, mode);
    StartNeverPanics(table.rows, id, mode);
    if status == Success && start.Send? {
      o := SendAndHandle(start.request, table.rows[id], ports, addrs);
    }
  }

  // ------------------------------------------------------------- live sessions

  lemma {:induction false} BoundOnHostIp(ms: seq<PortMapping>, addr: Option<byte>, key: string)
    requires key in Bindings(ms, addr)
    ensures var b := Bindings(ms, addr)[key];
            b.Some? && |b.value| == 1 && b.value[0].hostIp == Some(HostIp(addr))
  {
    if key != KeyOf(ms[|ms| - 1]) {
      BoundOnHostIp(ms[..|ms| - 1], addr, key);
    }
  }

  /** In every reachable state, no two guest connections that own addresses bind
      the same host endpoint, whatever ports their requests asked for. */
  lemma {:induction false} EndpointsDisjoint(n: nat, r: Lifecycle.Run, k: nat, c: nat, d: nat, a: byte, b: byte,
                           ms1: seq<PortMapping>, ms2: seq<PortMapping>, key1: string, key2: string)
    requires 1 <= n <= 254 && Lifecycle.IsRun(n, r) && k < |r.states|
    requires c < |r.states[k].conns| && d < |r.states[k].conns| && c != d
    requires LifecycleTheorems.Owns(r.states[k].conns[c].phase, a)
    requires LifecycleTheorems.Owns(r.states[k].conns[d].phase, b)
    requires key1 in Bindings(ms1, Some(a)) && key2 in Bindings(ms2, Some(b))
    ensures Bindings(ms1, Some(a))[key1] != Bindings(ms2, Some(b))[key2]
    ensures HostIp(Some(a)) != HostIp(Some(b))
  {
    LifecycleTheorems.Ownership(n, r, k);
    BoundOnHostIp(ms1, Some(a), key1);
    BoundOnHostIp(ms2, Some(b), key2);
    if HostIp(Some(a)) == HostIp(Some(b)) {
      HostIpInjective(a, b);
    }
  }

  function AsByte(addr: Option<nat>): Option<byte>
    requires addr.Some? ==> addr.value < 0x100
  {
    match addr
    case None => None
    case Some(a) => Some(a)
  }

  /** The address of a session is the one its mode calls for. */
  lemma {:induction false} SessionAddress(n: nat, r: Lifecycle.Run, k: nat, c: nat)
    requires 1 <= n <= 254 && Lifecycle.IsRun(n, r) && k < |r.states| && c < |r.states[k].conns|
    requires Lifecycle.Tracked(r.states[k].conns[c].phase)
    ensures var addr, d := r.states[k].conns[c].phase.session, DecodeRequest(r.states[k].conns[c].input);
            && d.Accepted?
            && (addr.Some? <==> d.request.mode.Guest?)
            && (addr.Some? ==> 1 <= addr.value <= n)
  {
    LifecycleRequests.RunFits(n, r, k);
    LifecycleTheorems.Ownership(n, r, k);
    var conn := r.states[k].conns[c];
    assert LifecycleRequests.Fits(DecodeRequest(conn.input), conn.phase);
    if conn.phase.session.Some? {
      assert LifecycleTheorems.Owns(conn.phase, conn.phase.session.value);
    }
  }

  /** What a session binds: the ports its bytes ask for, on its address. */
  function SessionBindings(conn: Lifecycle.Conn): BindingMap {
    match (DecodeRequest(conn.input), conn.phase)
    case (Accepted(request, _), Session(addr, _)) =>
      if addr.Some? && addr.value >= 0x100 then map[] else Bindings(request.ports, AsByte(addr))
    case _ => map[]
  }

  predicate IsDemo(conn: Lifecycle.Conn) {
    DecodeRequest(conn.input).Accepted? && DecodeRequest(conn.input).request.mode.Demo?
  }

  /** 0.0.0.0 stands for every address of the host. */
  predicate SameHost(ip1: string, ip2: string) {
    ip1 == ip2 || ip1 == "0.0.0.0" || ip2 == "0.0.0.0"
  }

  lemma HostsOverlap(addr1: Option<byte>, addr2: Option<byte>)
    ensures SameHost(HostIp(addr1), HostIp(addr2)) <==> addr1.None? || addr2.None? || addr1 == addr2
  {
    if addr1.Some? && addr2.Some? {
      assert HostIp(addr1)[0] == HostIp(addr2)[0] == '1' && HostIp(None)[0] == '0';
      if HostIp(addr1) == HostIp(addr2) {
        HostIpInjective(addr1.value, addr2.value);
      }
    }
  }

  lemma {:induction false} SessionsApart(n: nat, r: Lifecycle.Run, k: nat, c: nat, d: nat)
    requires 1 <= n <= 254 && Lifecycle.IsRun(n, r) && k < |r.states|
    requires c < |r.states[k].conns| && d < |r.states[k].conns| && c != d
    requires Lifecycle.Tracked(r.states[k].conns[c].phase) && Lifecycle.Tracked(r.states[k].conns[d].phase)
    ensures var addr1, addr2 := r.states[k].conns[c].phase.session, r.states[k].conns[d].phase.session;
            addr1.Some? && addr2.Some? ==> addr1 != addr2
  {
    LifecycleTheorems.Ownership(n, r, k);
    var p, q := r.states[k].conns[c].phase, r.states[k].conns[d].phase;
    if p.session.Some? && p.session == q.session {
      assert LifecycleTheorems.Owns(p, p.session.value) && LifecycleTheorems.Owns(q, p.session.value);
    }
  }

  /** In every reachable state the bindings of two live sessions claim a common host
      address if and only if one of the two is a demo, which claims them all. */
  lemma {:induction false} OverlapOnlyWithDemos(n: nat, r: Lifecycle.Run, k: nat, c: nat, d: nat,
                                                key1: string, key2: string)
    requires 1 <= n <= 254 && Lifecycle.IsRun(n, r) && k < |r.states|
    requires c < |r.states[k].conns| && d < |r.states[k].conns| && c != d
    requires Lifecycle.Tracked(r.states[k].conns[c].phase) && Lifecycle.Tracked(r.states[k].conns[d].phase)
    ensures var h1, h2 := SessionBindings(r.states[k].conns[c]), SessionBindings(r.states[k].conns[d]);
            key1 in h1 && key2 in h2 ==>
              && h1[key1].Some? && |h1[key1].value| == 1 && h1[key1].value[0].hostIp.Some?
              && h2[key2].Some? && |h2[key2].value| == 1 && h2[key2].value[0].hostIp.Some?
              && (SameHost(h1[key1].value[0].hostIp.value, h2[key2].value[0].hostIp.value)
                  <==> IsDemo(r.states[k].conns[c]) || IsDemo(r.states[k].conns[d]))
  {
    SessionAddress(n, r, k, c);
    SessionAddress(n, r, k, d);
    SessionsApart(n, r, k, c, d);
    var conn1, conn2 := r.states[k].conns[c], r.states[k].conns[d];
    var addr1, addr2 := AsByte(conn1.phase.session), AsByte(conn2.phase.session);
    if key1 in SessionBindings(conn1) && key2 in SessionBindings(conn2) {
      BoundOnHostIp(DecodeRequest(conn1.input).request.ports, addr1, key1);
      BoundOnHostIp(DecodeRequest(conn2.input).request.ports, addr2, key2);
      HostsOverlap(addr1, addr2);
    }
  }

  /** In every reachable state: a session that stems from the request for a configured
      row runs its image, has an address of 1..n if it is a guest's and none if it is a
      demo, and binds exactly the exposed ports there, if and only if these are fewer than ten. */
  lemma {:induction false} SessionExposes(n: nat, r: Lifecycle.Run, k: nat, c: nat,
                                          row: Row, ports: ExposedPorts, mode: Mode, rest: seq<byte>)
    requires 1 <= n <= 254 && Lifecycle.IsRun(n, r) && k < |r.states| && c < |r.states[k].conns|
    requires Lifecycle.Tracked(r.states[k].conns[c].phase)
    requires PackedFrom(row, ports) && row.dockerImage.Some? && ImageFits(row) && Unpack(row).Mappings?
    requires r.states[k].conns[c].input == EncodeRequest(RequestFor(row, mode)) + rest
    ensures var addr, d := r.states[k].conns[c].phase.session, DecodeRequest(r.states[k].conns[c].input);
            && d.Accepted?
            && (addr.Some? <==> mode.Guest?)
            && (addr.Some? ==> 1 <= addr.value <= n)
            && d.request.image == row.dockerImage.value && d.request.mode == mode
            && (Exposes(Bindings(d.request.ports, AsByte(addr)), ports, AsByte(addr)) <==> |ports| < 10)
            && (|ports| < 10 ==> d.rest == rest)
  {
    SessionAddress(n, r, k, c);
    var addr := AsByte(r.states[k].conns[c].phase.session);
    UnpackPacked(row, ports);
    ImageFitsLengthByte(row);
    WireTheorems.DecodeOfEncode(RequestFor(row, mode), rest);
    EndToEnd(row, ports, mode, addr, rest);
    TooManyPorts(row, ports, mode, addr, rest);
  }
}
