/** Decimal printing, as `format!("{n}")` does it, and the strings built from it. */
module Decimal {

  function Digit(d: nat): char
    requires d < 10
  {
    '0' + d as char
  }

  function Print(n: nat): (s: string)
    ensures |s| > 0
  {
    if n < 10 then [Digit(n)] else Print(n / 10) + [Digit(n % 10)]
  }

  predicate IsDigit(c: char) {
    '0' <= c <= '9'
  }

  lemma {:induction false} DigitsOnly(n: nat)
    ensures forall i :: 0 <= i < |Print(n)| ==> IsDigit(Print(n)[i])
  {
    if n >= 10 {
      DigitsOnly(n / 10);
    }
  }

  lemma DigitInjective(d: nat, e: nat)
    requires d < 10 && e < 10 && Digit(d) == Digit(e)
    ensures d == e
  {
    assert Digit(d) as int == '0' as int + d && Digit(e) as int == '0' as int + e;
  }

  lemma {:induction false} LongPrint(n: nat)
    ensures |Print(n)| == 1 <==> n < 10
  {
  }

  lemma {:induction false} Injective(m: nat, n: nat)
    requires Print(m) == Print(n)
    ensures m == n
  {
    LongPrint(m);
    LongPrint(n);
    if m < 10 {
      DigitInjective(m, n);
    } else {
      var s, t := Print(m / 10), Print(n / 10);
      assert Print(m)[..|Print(m)| - 1] == s && Print(n)[..|Print(n)| - 1] == t;
      assert Print(m)[|s|] == Digit(m % 10) && Print(n)[|t|] == Digit(n % 10);
      Injective(m / 10, n / 10);
      DigitInjective(m % 10, n % 10);
    }
  }

  // ------------------------------------------------------------- what is printed

  /** The number a digit string stands for. */
  function Value(s: string): int {
    if s == [] then 0 else 10 * Value(s[..|s| - 1]) + (s[|s| - 1] as int - '0' as int)
  }

  /** The decimal notation of `n`: digits that stand for it, no leading zero. */
  predicate IsDecimal(s: string, n: nat) {
    && s != []
    && (forall i :: 0 <= i < |s| ==> '0' <= s[i] <= '9')
    && (|s| > 1 ==> s[0] != '0')
    && Value(s) == n
  }

  lemma {:induction false} PrintsDecimal(n: nat)
    ensures IsDecimal(Print(n), n)
  {
    DigitsOnly(n);
    if n >= 10 {
      PrintsDecimal(n / 10);
      var front := Print(n / 10);
      LongPrint(n / 10);
      assert Print(n)[..|front|] == front && Print(n)[0] == front[0];
      if |front| == 1 {
        assert front[0] == Digit(n / 10) && Digit(n / 10) != '0';
      }
    } else {
      assert Print(n)[..0] == [];
    }
  }

  lemma {:induction false} Positive(s: string)
    requires s != [] && s[0] != '0' && forall i :: 0 <= i < |s| ==> '0' <= s[i] <= '9'
    ensures Value(s) > 0
  {
    if |s| > 1 {
      Positive(s[..|s| - 1]);
    } else {
      assert s[..0] == [];
    }
  }

  lemma LastDigit(s: string, n: nat)
    requires IsDecimal(s, n)
    ensures var k := |s| - 1;
            if k == 0 then n < 10 && s == [Digit(n)] else n >= 10 && IsDecimal(s[..k], n / 10) && s[k] == Digit(n % 10)
  {
    var k := |s| - 1;
    var d := s[k] as int - '0' as int;
    assert n == 10 * Value(s[..k]) + d && 0 <= d < 10;
    assert s[k] == '0' + d as char;
    if k == 0 {
      assert s[..k] == [];
    } else {
      Positive(s[..k]);
      assert n / 10 == Value(s[..k]) && n % 10 == d;
    }
  }

  /** Printing gives the decimal notation and nothing else. */
  lemma {:induction false} PrintsExactly(s: string, n: nat)
    ensures s == Print(n) <==> IsDecimal(s, n)
    decreases |s|
  {
    PrintsDecimal(n);
    if IsDecimal(s, n) {
      var k := |s| - 1;
      LastDigit(s, n);
      if k > 0 {
        PrintsExactly(s[..k], n / 10);
        assert s == s[..k] + [Digit(n % 10)];
      }
    }
  }

  /** A three-digit number prints in at most three characters. */
  lemma ShortPrint(n: nat)
    requires n < 1000
    ensures |Print(n)| <= 3
  {
    LongPrint(n / 10);
    LongPrint(n / 10 / 10);
  }
}

/** The Docker port bindings the daemon builds from a request's mappings. */
module Ports {
  import opened Basics
  import opened Wire
  import Decimal

  datatype PortBinding = PortBinding(hostIp: Option<string>, hostPort: Option<string>)
  type BindingMap = map<string, Option<seq<PortBinding>>>

  function AsString(t: PortType, port: u16): string {
    Decimal.Print(port) + match t case Tcp => "/tcp" case Udp => "/udp"
  }

  /** The text "<port>/tcp" or "<port>/udp". */
  predicate NamesPort(s: string, t: PortType, port: u16) {
    && |s| > 4
    && s[|s| - 4..] == (match t case Tcp => "/tcp" case Udp => "/udp")
    && Decimal.IsDecimal(s[..|s| - 4], port)
  }

  lemma {:induction false} AsStringExactly(s: string, t: PortType, port: u16)
    ensures s == AsString(t, port) <==> NamesPort(s, t, port)
  {
    var suffix := match t case Tcp => "/tcp" case Udp => "/udp";
    if |s| > 4 {
      Decimal.PrintsExactly(s[..|s| - 4], port);
      assert s == s[..|s| - 4] + s[|s| - 4..];
    }
    if s == AsString(t, port) {
      assert s[..|s| - 4] == Decimal.Print(port) && s[|s| - 4..] == suffix;
    }
  }

  lemma AsStringInjective(t1: PortType, p1: u16, t2: PortType, p2: u16)
    requires AsString(t1, p1) == AsString(t2, p2)
    ensures t1 == t2 && p1 == p2
  {
    var d1, d2 := Decimal.Print(p1), Decimal.Print(p2);
    var s := AsString(t1, p1);
    assert s[..|s| - 4] == d1 && s[..|s| - 4] == d2;
    assert s[|d1| + 1] == if t1.Tcp? then 't' else 'u';
    assert s[|d2| + 1] == if t2.Tcp? then 't' else 'u';
    Decimal.Injective(p1, p2);
  }

  function HostIp(addr: Option<byte>): string {
    match addr
    case Some(a) => "10.4.2." + Decimal.Print(a)
    case None => "0.0.0.0"
  }

  /** The host's address for a guest, or all of them for a demo. */
  predicate NamesHost(s: string, addr: Option<byte>) {
    match addr
    case Some(a) => |s| > 7 && s[..7] == "10.4.2." && Decimal.IsDecimal(s[7..], a)
    case None => s == "0.0.0.0"
  }

  lemma {:induction false} HostIpExactly(s: string, addr: Option<byte>)
    ensures s == HostIp(addr) <==> NamesHost(s, addr)
  {
    if addr.Some? {
      if |s| > 7 {
        Decimal.PrintsExactly(s[7..], addr.value);
        assert s == s[..7] + s[7..];
      }
      if s == HostIp(addr) {
        assert s[..7] == "10.4.2." && s[7..] == Decimal.Print(addr.value);
      }
    }
  }

  lemma HostIpInjective(a: byte, b: byte)
    requires HostIp(Some(a)) == HostIp(Some(b))
    ensures a == b
  {
    assert HostIp(Some(a))[7..] == Decimal.Print(a) && HostIp(Some(b))[7..] == Decimal.Print(b);
    Decimal.Injective(a, b);
  }

  function KeyOf(m: PortMapping): string {
    AsString(m.portType, m.fromPort)
  }

  function BindingOf(m: PortMapping, addr: Option<byte>): Option<seq<PortBinding>> {
    Some([PortBinding(Some(HostIp(addr)), Some(AsString(m.portType, m.toPort)))])
  }

  /** The map after inserting every mapping in order. */
  function Bindings(ms: seq<PortMapping>, addr: Option<byte>): BindingMap {
    if ms == [] then
      map[]
    else
      var last := ms[|ms| - 1];
      Bindings(ms[..|ms| - 1], addr)[KeyOf(last) := BindingOf(last, addr)]
  }

  /** The binding is the given host port and protocol on the given host address. */
  predicate BindsTo(b: Option<seq<PortBinding>>, t: PortType, port: u16, addr: Option<byte>) {
    && b.Some? && |b.value| == 1
    && b.value[0].hostIp.Some? && NamesHost(b.value[0].hostIp.value, addr)
    && b.value[0].hostPort.Some? && NamesPort(b.value[0].hostPort.value, t, port)
  }

  /** The map binds the mapping's container port to its host port. */
  ghost predicate Binds(h: BindingMap, m: PortMapping, addr: Option<byte>) {
    exists key :: key in h && NamesPort(key, m.portType, m.fromPort) && BindsTo(h[key], m.portType, m.toPort, addr)
  }

  lemma BindsAsNamed(h: BindingMap, m: PortMapping, addr: Option<byte>)
    ensures Binds(h, m, addr) <==> KeyOf(m) in h && h[KeyOf(m)] == BindingOf(m, addr)
  {
    AsStringExactly(KeyOf(m), m.portType, m.fromPort);
    AsStringExactly(AsString(m.portType, m.toPort), m.portType, m.toPort);
    HostIpExactly(HostIp(addr), addr);
    if Binds(h, m, addr) {
      var key :| key in h && NamesPort(key, m.portType, m.fromPort) && BindsTo(h[key], m.portType, m.toPort, addr);
      AsStringExactly(key, m.portType, m.fromPort);
      AsStringExactly(h[key].value[0].hostPort.value, m.portType, m.toPort);
      HostIpExactly(h[key].value[0].hostIp.value, addr);
      assert h[key].value == [h[key].value[0]];
    }
  }

  /** `PortMappings::into_hashmap`. */
  method IntoHashmap(ms: seq<PortMapping>, addr: Option<byte>) returns (h: BindingMap)
    ensures h == Bindings(ms, addr)
    ensures forall i: nat :: LastFor(ms, i) ==> Binds(h, ms[i], addr)
  {
    h := map[];
    for i := 0 to |ms|
      invariant h == Bindings(ms[..i], addr)
    {
      assert ms[..i + 1][..i] == ms[..i];
      var binding := PortBinding(Some(HostIp(addr)), Some(AsString(ms[i].portType, ms[i].toPort)));
      h := h[AsString(ms[i].portType, ms[i].fromPort) := Some([binding])];
    }
    assert ms[..|ms|] == ms;
    LastMappingWins(ms, addr);
  }

  /** The last mapping for a container port and protocol is the one bound. */
  ghost predicate LastFor(ms: seq<PortMapping>, i: nat) {
    && i < |ms|
    && forall j :: i < j < |ms| ==> (ms[j].fromPort, ms[j].portType) != (ms[i].fromPort, ms[i].portType)
  }

  lemma KeyInjective(m1: PortMapping, m2: PortMapping)
    requires KeyOf(m1) == KeyOf(m2)
    ensures m1.fromPort == m2.fromPort && m1.portType == m2.portType
  {
    AsStringInjective(m1.portType, m1.fromPort, m2.portType, m2.fromPort);
  }

  lemma {:induction false} BoundByLast(ms: seq<PortMapping>, addr: Option<byte>, i: nat)
    requires LastFor(ms, i)
    ensures KeyOf(ms[i]) in Bindings(ms, addr) && Bindings(ms, addr)[KeyOf(ms[i])] == BindingOf(ms[i], addr)
  {
    var n := |ms| - 1;
    if i < n {
      var front := ms[..n];
      assert front[i] == ms[i];
      BoundByLast(front, addr, i);
      if KeyOf(ms[i]) == KeyOf(ms[n]) {
        KeyInjective(ms[i], ms[n]);
      }
    }
  }

  lemma {:induction false} KeyHasLast(ms: seq<PortMapping>, addr: Option<byte>, k: string) returns (i: nat)
    requires k in Bindings(ms, addr)
    ensures LastFor(ms, i) && KeyOf(ms[i]) == k
  {
    i := |ms| - 1;
    if k != KeyOf(ms[i]) {
      var n := i;
      i := KeyHasLast(ms[..n], addr, k);
    }
  }

  /** Every key names the container port of a mapping, and each container port and
      protocol is bound to the host port its last mapping says. */
  lemma {:induction false} LastMappingWins(ms: seq<PortMapping>, addr: Option<byte>)
    ensures forall i: nat :: LastFor(ms, i) ==> Binds(Bindings(ms, addr), ms[i], addr)
    ensures forall k :: k in Bindings(ms, addr) ==>
              exists i: nat :: LastFor(ms, i) && NamesPort(k, ms[i].portType, ms[i].fromPort)
  {
    forall i: nat | LastFor(ms, i)
      ensures Binds(Bindings(ms, addr), ms[i], addr)
    {
      BoundByLast(ms, addr, i);
      BindsAsNamed(Bindings(ms, addr), ms[i], addr);
    }
    forall k | k in Bindings(ms, addr)
      ensures exists i: nat :: LastFor(ms, i) && NamesPort(k, ms[i].portType, ms[i].fromPort)
    {
      var i := KeyHasLast(ms, addr, k);
      AsStringExactly(k, ms[i].portType, ms[i].fromPort);
    }
  }

  predicate DistinctPorts(ms: seq<PortMapping>) {
    forall i, j :: 0 <= i < j < |ms| ==> (ms[i].fromPort, ms[i].portType) != (ms[j].fromPort, ms[j].portType)
  }

  lemma {:induction false} DistinctSize(ms: seq<PortMapping>, addr: Option<byte>)
    requires DistinctPorts(ms)
    ensures |Bindings(ms, addr)| == |ms|
  {
    if ms != [] {
      var n := |ms| - 1;
      DistinctSize(ms[..n], addr);
      if KeyOf(ms[n]) in Bindings(ms[..n], addr) {
        var i := KeyHasLast(ms[..n], addr, KeyOf(ms[n]));
        KeyInjective(ms[i], ms[n]);
      }
    }
  }

  /** With distinct container ports every mapping keeps its own entry. */
  lemma {:induction false} DistinctKeepsAll(ms: seq<PortMapping>, addr: Option<byte>)
    requires DistinctPorts(ms)
    ensures |Bindings(ms, addr)| == |ms|
    ensures forall i: nat :: i < |ms| ==> Binds(Bindings(ms, addr), ms[i], addr)
  {
    DistinctSize(ms, addr);
    forall i: nat | i < |ms|
      ensures Binds(Bindings(ms, addr), ms[i], addr)
    {
      BoundByLast(ms, addr, i);
      BindsAsNamed(Bindings(ms, addr), ms[i], addr);
    }
  }
}
