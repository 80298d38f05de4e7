/** UTF-8 as section 3 of RFC 3629 defines it: what `String::as_bytes` yields and
    what `String::from_utf8` accepts. Both ends of the socket rely on it. */
module Utf8 {
  import opened Basics

  /** The continuation byte carrying the low six bits of `n`. */
  function Low(n: nat): (b: byte)
    ensures 0x80 <= b < 0xC0
  {
    0x80 + n % 0x40
  }

  /** Appends the six bits of a continuation byte to the bits read so far. */
  function Join(high: int, b: byte): int {
    high * 0x40 + (b - 0x80)
  }

  function EncodeChar(c: char): (b: seq<byte>)
    ensures 1 <= |b| <= 4
    ensures c as int < 0x80 <==> |b| == 1
  {
    var n := c as int;
    var n1 := n / 0x40;
    var n2 := n1 / 0x40;
    if n < 0x80 then
      [n]
    else if n < 0x800 then
      [0xC0 + n1, Low(n)]
    else if n < 0x1_0000 then
      [0xE0 + n2, Low(n1), Low(n)]
    else
      [0xF0 + n2 / 0x40, Low(n2), Low(n1), Low(n)]
  }

  /** The bytes of each range of section 3 of RFC 3629, as numbers. */
  lemma CharBytes(c: char)
    ensures var n := c as int;
            EncodeChar(c)
            == if n < 128 then [n]
               else if n < 2048 then [192 + n / 64, 128 + n % 64]
               else if n < 65536 then [224 + n / 4096, 128 + n / 64 % 64, 128 + n % 64]
               else [240 + n / 262144, 128 + n / 4096 % 64, 128 + n / 64 % 64, 128 + n % 64]
  {
  }

  predicate Continuation(b: byte) {
    0x80 <= b < 0xC0
  }

  /** Decodes one scalar value and says how many bytes it took. Overlong forms,
      surrogates and values above U+10FFFF are refused by the bounds on the
      second byte (section 4 of RFC 3629). */
  function DecodeChar(b: seq<byte>): (r: Option<(char, nat)>)
    ensures r.Some? ==> 1 <= r.value.1 <= |b|
  {
    if |b| == 0 then
      None
    else if b[0] < 0x80 then
      Some((b[0] as char, 1))
    else if 0xC2 <= b[0] < 0xE0 then
      if |b| >= 2 && Continuation(b[1]) then
        Some((Join(b[0] - 0xC0, b[1]) as char, 2))
      else
        None
    else if 0xE0 <= b[0] < 0xF0 then
      if |b| >= 3 && Continuation(b[1]) && Continuation(b[2])
         && (b[0] == 0xE0 ==> b[1] >= 0xA0) && (b[0] == 0xED ==> b[1] < 0xA0) then
        Some((Join(Join(b[0] - 0xE0, b[1]), b[2]) as char, 3))
      else
        None
    else if 0xF0 <= b[0] < 0xF5 then
      if |b| >= 4 && Continuation(b[1]) && Continuation(b[2]) && Continuation(b[3])
         && (b[0] == 0xF0 ==> b[1] >= 0x90) && (b[0] == 0xF4 ==> b[1] < 0x90) then
        Some((Join(Join(Join(b[0] - 0xF0, b[1]), b[2]), b[3]) as char, 4))
      else
        None
    else
      None
  }

  lemma SplitJoin(n: nat)
    ensures Join(n / 0x40, Low(n)) == n
  {
  }

  lemma JoinSplit(high: nat, b: byte)
    requires Continuation(b)
    ensures Join(high, b) / 0x40 == high && Low(Join(high, b)) == b
  {
  }

  lemma CharRoundTrip(c: char, rest: seq<byte>)
    ensures DecodeChar(EncodeChar(c) + rest) == Some((c, |EncodeChar(c)|))
  {
    var n := c as int;
    assert n < 0xD800 || 0xE000 <= n < 0x11_0000;
    var b := EncodeChar(c) + rest;
    SplitJoin(n);
    SplitJoin(n / 0x40);
    SplitJoin(n / 0x40 / 0x40);
    assert forall i :: 0 <= i < |EncodeChar(c)| ==> b[i] == EncodeChar(c)[i];
  }

  lemma TwoBytes(b0: byte, b1: byte)
    requires 0xC2 <= b0 < 0xE0 && Continuation(b1)
    ensures EncodeChar(Join(b0 - 0xC0, b1) as char) == [b0, b1]
  {
    JoinSplit(b0 - 0xC0, b1);
  }

  lemma ThreeBytes(b0: byte, b1: byte, b2: byte)
    requires 0xE0 <= b0 < 0xF0 && Continuation(b1) && Continuation(b2)
    requires (b0 == 0xE0 ==> b1 >= 0xA0) && (b0 == 0xED ==> b1 < 0xA0)
    ensures EncodeChar(Join(Join(b0 - 0xE0, b1), b2) as char) == [b0, b1, b2]
  {
    var high := Join(b0 - 0xE0, b1);
    JoinSplit(b0 - 0xE0, b1);
    JoinSplit(high, b2);
  }

  lemma FourRange(b0: byte, b1: byte, b2: byte, b3: byte)
    requires 0xF0 <= b0 < 0xF5 && Continuation(b1) && Continuation(b2) && Continuation(b3)
    requires (b0 == 0xF0 ==> b1 >= 0x90) && (b0 == 0xF4 ==> b1 < 0x90)
    ensures 0x1_0000 <= Join(Join(Join(b0 - 0xF0, b1), b2), b3) < 0x11_0000
  {
  }

  /** The shape of a long encoding, given what its number splits into. */
  lemma EncodeLong(n: nat, b0: byte, b1: byte, b2: byte, b3: byte)
    requires 0x1_0000 <= n < 0x11_0000
    requires Low(n) == b3 && Low(n / 0x40) == b2 && Low(n / 0x40 / 0x40) == b1
    requires 0xF0 + n / 0x40 / 0x40 / 0x40 == b0
    ensures EncodeChar(n as char) == [b0, b1, b2, b3]
  {
  }

  lemma FourBytes(b0: byte, b1: byte, b2: byte, b3: byte)
    requires 0xF0 <= b0 < 0xF5 && Continuation(b1) && Continuation(b2) && Continuation(b3)
    requires (b0 == 0xF0 ==> b1 >= 0x90) && (b0 == 0xF4 ==> b1 < 0x90)
    ensures EncodeChar(Join(Join(Join(b0 - 0xF0, b1), b2), b3) as char) == [b0, b1, b2, b3]
  {
    var high := Join(b0 - 0xF0, b1);
    JoinSplit(b0 - 0xF0, b1);
    JoinSplit(high, b2);
    JoinSplit(Join(high, b2), b3);
    FourRange(b0, b1, b2, b3);
    EncodeLong(Join(Join(high, b2), b3), b0, b1, b2, b3);
  }

  lemma CharCanonical(b: seq<byte>)
    requires DecodeChar(b).Some?
    ensures var (c, k) := DecodeChar(b).value; b[..k] == EncodeChar(c)
  {
    if 0xC2 <= b[0] < 0xE0 {
      TwoBytes(b[0], b[1]);
    } else if 0xE0 <= b[0] < 0xF0 {
      ThreeBytes(b[0], b[1], b[2]);
    } else if 0xF0 <= b[0] {
      FourBytes(b[0], b[1], b[2], b[3]);
    }
  }

  function Encode(s: string): (b: seq<byte>) {
    if s == [] then [] else EncodeChar(s[0]) + Encode(s[1..])
  }

  function Decode(b: seq<byte>): (r: Option<string>)
    decreases |b|
  {
    if b == [] then
      Some([])
    else
      match DecodeChar(b)
      case None => None
      case Some((c, k)) =>
        match Decode(b[k..])
        case None => None
        case Some(s) => Some([c] + s)
  }

  lemma {:induction false} RoundTrip(s: string)
    ensures Decode(Encode(s)) == Some(s)
  {
    if s != [] {
      var head, tail := EncodeChar(s[0]), Encode(s[1..]);
      CharRoundTrip(s[0], tail);
      assert (head + tail)[|head|..] == tail;
      RoundTrip(s[1..]);
      assert [s[0]] + s[1..] == s;
    }
  }

  lemma {:induction false} FirstChar(b: seq<byte>) returns (k: nat)
    requires b != [] && Decode(b).Some?
    ensures 1 <= k <= |b| && Decode(b[k..]).Some? && Decode(b).value != []
    ensures b[..k] == EncodeChar(Decode(b).value[0]) && Decode(b).value[1..] == Decode(b[k..]).value
  {
    k := DecodeChar(b).value.1;
    CharCanonical(b);
  }

  lemma {:induction false} Canonical(b: seq<byte>)
    requires Decode(b).Some?
    ensures Encode(Decode(b).value) == b
    decreases |b|
  {
    if b != [] {
      var k := FirstChar(b);
      Canonical(b[k..]);
      assert b == b[..k] + b[k..];
    }
  }

  /** A `VARCHAR(63)` image name is at most 252 bytes, so its length fits the
      length byte. */
  lemma {:induction false} LengthBound(s: string)
    ensures |s| <= |Encode(s)| <= 4 * |s|
  {
    if s != [] {
      LengthBound(s[1..]);
    }
  }

  lemma {:induction false} AsciiLength(s: string)
    requires forall i :: 0 <= i < |s| ==> s[i] as int < 0x80
    ensures |Encode(s)| == |s|
  {
    if s != [] {
      AsciiLength(s[1..]);
    }
  }
}
