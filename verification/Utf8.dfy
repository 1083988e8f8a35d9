/** UTF-8 as `str.encode` and a strict decoder define it: shortest form only, no surrogates, up to U+10FFFF. */
module Utf8 {
  import opened Basics

  predicate IsScalar(n: int) {
    0 <= n < 0xD800 || 0xE000 <= n < 0x11_0000
  }

  function EncodeScalar(n: int): seq<byte>
    requires 0 <= n < 0x11_0000
  {
    if n < 0x80 then [n]
    else if n < 0x800 then [0xC0 + n / 0x40, 0x80 + n % 0x40]
    else if n < 0x1_0000 then [0xE0 + n / 0x1000, 0x80 + n / 0x40 % 0x40, 0x80 + n % 0x40]
    else [0xF0 + n / 0x4_0000, 0x80 + n / 0x1000 % 0x40, 0x80 + n / 0x40 % 0x40, 0x80 + n % 0x40]
  }

  function EncodeChar(c: char): seq<byte> {
    EncodeScalar(c as int)
  }

  function Encode(s: string): seq<byte> {
    if s == "" then [] else EncodeChar(s[0]) + Encode(s[1..])
  }

  predicate Continues(b: byte) {
    0x80 <= b < 0xC0
  }

  /** Six more bits from a continuation byte. */
  function Join(high: int, b: byte): int {
    high * 0x40 + (b as int - 0x80)
  }

  /** The scalar value at the front of `s` and the number of bytes it takes. */
  function DecodeScalar(s: seq<byte>): (r: Option<(int, nat)>)
    requires s != []
    ensures r.Some? ==> IsScalar(r.value.0) && 1 <= r.value.1 <= |s|
  {
    var a: int := s[0];
    if a < 0x80 then Some((a, 1))
    else if 0xC0 <= a < 0xE0 && |s| >= 2 && Continues(s[1]) then
      var n := Join(a - 0xC0, s[1]);
      if 0x80 <= n then Some((n, 2)) else None
    else if 0xE0 <= a < 0xF0 && |s| >= 3 && Continues(s[1]) && Continues(s[2]) then
      var n := Join(Join(a - 0xE0, s[1]), s[2]);
      if 0x800 <= n && IsScalar(n) then Some((n, 3)) else None
    else if 0xF0 <= a < 0xF8 && |s| >= 4 && Continues(s[1]) && Continues(s[2]) && Continues(s[3]) then
      var n := Join(Join(Join(a - 0xF0, s[1]), s[2]), s[3]);
      if 0x1_0000 <= n && IsScalar(n) then Some((n, 4)) else None
    else None
  }

  lemma SplitJoin(n: int)
    requires 0 <= n
    ensures Continues(0x80 + n % 0x40)
    ensures Join(n / 0x40, 0x80 + n % 0x40) == n
  {
  }

  function Decode(s: seq<byte>): Option<string>
    decreases |s|
  {
    if s == [] then Some("")
    else
      var front := DecodeScalar(s);
      if front.None? then None
      else
        var rest := Decode(s[front.value.1..]);
        if rest.None? then None else Some([front.value.0 as char] + rest.value)
  }

  lemma Divisions(n: int)
    requires 0 <= n
    ensures n / 0x40 / 0x40 == n / 0x1000 && n / 0x1000 / 0x40 == n / 0x4_0000
  {
  }

  lemma DecodeEncodedScalar(n: int, rest: seq<byte>)
    requires IsScalar(n)
    ensures DecodeScalar(EncodeScalar(n) + rest) == Some((n, |EncodeScalar(n)|))
  {
    SplitJoin(n);
    SplitJoin(n / 0x40);
    SplitJoin(n / 0x1000);
    Divisions(n);
    var s := EncodeScalar(n) + rest;
    if n < 0x80 {
    } else if n < 0x800 {
      assert s[0] == 0xC0 + n / 0x40 && s[1] == 0x80 + n % 0x40;
    } else if n < 0x1_0000 {
      assert s[0] == 0xE0 + n / 0x1000 && s[1] == 0x80 + n / 0x40 % 0x40 && s[2] == 0x80 + n % 0x40;
    } else {
      assert s[0] == 0xF0 + n / 0x4_0000 && s[1] == 0x80 + n / 0x1000 % 0x40;
      assert s[2] == 0x80 + n / 0x40 % 0x40 && s[3] == 0x80 + n % 0x40;
    }
  }

  lemma EncodeFront(c: char, rest: string)
    ensures Encode([c] + rest) == EncodeScalar(c as int) + Encode(rest)
  {
    assert ([c] + rest)[1..] == rest;
  }

  lemma DecodeFront(front: seq<byte>, c: char, after: seq<byte>, rest: string)
    requires front != [] && DecodeScalar(front + after) == Some((c as int, |front|)) && Decode(after) == Some(rest)
    ensures Decode(front + after) == Some([c] + rest)
  {
    assert (front + after)[|front|..] == after;
  }

  lemma ScalarTakesBytes(n: int)
    requires 0 <= n < 0x11_0000
    ensures EncodeScalar(n) != []
  {
  }

  /** Every text is recovered from its encoding. */
  lemma {:induction false} RoundTrip(s: string)
    ensures Decode(Encode(s)) == Some(s)
  {
    if s != "" {
      RoundTrip(s[1..]);
      ScalarTakesBytes(s[0] as int);
      DecodeEncodedScalar(s[0] as int, Encode(s[1..]));
      DecodeFront(EncodeScalar(s[0] as int), s[0], Encode(s[1..]), s[1..]);
      EncodeFront(s[0], s[1..]);
      assert s == [s[0]] + s[1..];
    }
  }

  lemma JoinBits(high: int, b: byte)
    requires high >= 0 && Continues(b)
    ensures Join(high, b) / 0x40 == high && 0x80 + Join(high, b) % 0x40 == b
  {
  }

  lemma ThreeBytes(a: int, b: byte, c: byte)
    requires a >= 0 && Continues(b) && Continues(c)
    ensures var n := Join(Join(a, b), c);
            n / 0x1000 == a && 0x80 + n / 0x40 % 0x40 == b && 0x80 + n % 0x40 == c
  {
    JoinBits(a, b);
    JoinBits(Join(a, b), c);
    Divisions(Join(Join(a, b), c));
  }

  lemma FourBytes(a: int, b: byte, c: byte, d: byte)
    requires a >= 0 && Continues(b) && Continues(c) && Continues(d)
    ensures var n := Join(Join(Join(a, b), c), d);
            n / 0x4_0000 == a && 0x80 + n / 0x1000 % 0x40 == b && 0x80 + n / 0x40 % 0x40 == c && 0x80 + n % 0x40 == d
  {
    ThreeBytes(a, b, c);
    var high := Join(Join(a, b), c);
    JoinBits(high, d);
    Divisions(Join(high, d));
    assert Join(high, d) / 0x1000 == high / 0x40;
  }

  /** The bytes of each length of sequence, put together and taken apart. */
  lemma TwoByteForm(a: int, b: byte)
    requires 0 <= a < 0x20 && Continues(b) && 0x80 <= Join(a, b)
    ensures Join(a, b) < 0x800 && EncodeScalar(Join(a, b)) == [0xC0 + a, b]
  {
    JoinBits(a, b);
  }

  lemma ThreeByteForm(a: int, b: byte, c: byte)
    requires 0 <= a < 0x10 && Continues(b) && Continues(c) && 0x800 <= Join(Join(a, b), c)
    ensures Join(Join(a, b), c) < 0x1_0000 && EncodeScalar(Join(Join(a, b), c)) == [0xE0 + a, b, c]
  {
    ThreeBytes(a, b, c);
  }

  lemma FourByteForm(a: int, b: byte, c: byte, d: byte)
    requires 0 <= a < 8 && Continues(b) && Continues(c) && Continues(d)
    requires 0x1_0000 <= Join(Join(Join(a, b), c), d) < 0x11_0000
    ensures EncodeScalar(Join(Join(Join(a, b), c), d)) == [0xF0 + a, b, c, d]
  {
    FourBytes(a, b, c, d);
  }

  /** What the decoder has seen of a sequence of each length. */
  lemma DecodedTwo(s: seq<byte>)
    requires s != [] && DecodeScalar(s).Some? && DecodeScalar(s).value.1 == 2
    ensures 0 <= s[0] - 0xC0 < 0x20 && Continues(s[1])
    ensures DecodeScalar(s).value.0 == Join(s[0] - 0xC0, s[1]) >= 0x80
  {
  }

  lemma DecodedThree(s: seq<byte>)
    requires s != [] && DecodeScalar(s).Some? && DecodeScalar(s).value.1 == 3
    ensures 0 <= s[0] - 0xE0 < 0x10 && Continues(s[1]) && Continues(s[2])
    ensures DecodeScalar(s).value.0 == Join(Join(s[0] - 0xE0, s[1]), s[2]) >= 0x800
  {
  }

  lemma DecodedFour(s: seq<byte>)
    requires s != [] && DecodeScalar(s).Some? && DecodeScalar(s).value.1 >= 4
    ensures DecodeScalar(s).value.1 == 4
    ensures 0 <= s[0] - 0xF0 < 8 && Continues(s[1]) && Continues(s[2]) && Continues(s[3])
    ensures 0x1_0000 <= DecodeScalar(s).value.0 == Join(Join(Join(s[0] - 0xF0, s[1]), s[2]), s[3]) < 0x11_0000
  {
  }

  lemma DecodedOne(s: seq<byte>)
    requires s != [] && DecodeScalar(s).Some? && DecodeScalar(s).value.1 == 1
    ensures DecodeScalar(s).value.0 == s[0] < 0x80
  {
  }

  lemma FrontOf(s: seq<byte>, k: nat)
    requires 1 <= k <= |s|
    ensures k == 1 ==> s[..k] == [s[0]]
    ensures k == 2 ==> s[..k] == [s[0], s[1]]
    ensures k == 3 ==> s[..k] == [s[0], s[1], s[2]]
    ensures k == 4 ==> s[..k] == [s[0], s[1], s[2], s[3]]
  {
  }

  lemma OneByteForm(a: byte)
    requires a < 0x80
    ensures EncodeScalar(a) == [a]
  {
  }

  /** The decoder takes a scalar value only in the form the encoder gives it. */
  lemma ScalarIsCanonical(s: seq<byte>, n: int, k: nat)
    requires s != [] && DecodeScalar(s) == Some((n, k))
    ensures k <= |s| && EncodeScalar(n) == s[..k]
  {
    FrontOf(s, k);
    if k == 1 {
      DecodedOne(s);
      OneByteForm(s[0]);
    } else if k == 2 {
      DecodedTwo(s);
      TwoByteForm(s[0] - 0xC0, s[1]);
    } else if k == 3 {
      DecodedThree(s);
      ThreeByteForm(s[0] - 0xE0, s[1], s[2]);
    } else {
      DecodedFour(s);
      FourByteForm(s[0] - 0xF0, s[1], s[2], s[3]);
    }
  }

  lemma DecodeSplits(s: seq<byte>) returns (c: char, k: nat, rest: string)
    requires s != [] && Decode(s).Some?
    ensures 1 <= k <= |s| && DecodeScalar(s) == Some((c as int, k)) && Decode(s[k..]) == Some(rest)
    ensures Decode(s).value == [c] + rest
  {
    k := DecodeScalar(s).value.1;
    c := DecodeScalar(s).value.0 as char;
    rest := Decode(s[k..]).value;
  }

  lemma Rejoin(s: seq<byte>, k: nat)
    requires k <= |s|
    ensures s[..k] + s[k..] == s
  {
  }

  /** The decoder is strict: what it accepts is exactly what the encoder writes. */
  lemma {:induction false} DecodeIsStrict(s: seq<byte>)
    requires Decode(s).Some?
    ensures Encode(Decode(s).value) == s
    decreases |s|
  {
    if s != [] {
      var c, k, rest := DecodeSplits(s);
      ScalarIsCanonical(s, c as int, k);
      DecodeIsStrict(s[k..]);
      EncodeFront(c, rest);
      Rejoin(s, k);
    }
  }

  /** One character of each length, as the Unicode standard encodes it. */
  lemma KnownCharacters()
    ensures EncodeChar('A') == [0x41] && EncodeChar('\U{DC}') == [0xC3, 0x9C]
    ensures EncodeChar('\U{20AC}') == [0xE2, 0x82, 0xAC] && EncodeChar('\U{1F600}') == [0xF0, 0x9F, 0x98, 0x80]
  {
  }

  lemma EncodeEmpty(s: string)
    ensures Encode(s) == [] <==> s == ""
  {
    if s != "" {
      assert |EncodeChar(s[0])| >= 1;
    }
  }
}
