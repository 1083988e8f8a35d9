/**
 * The Protocol Buffers wire format, as far as the envelope uses it: Base 128 varints and the records of
 * "Message Structure" in the Protocol Buffers Encoding specification.
 */
module Protobuf {
  import opened Basics

  const U64_LIMIT := 0x1_0000_0000_0000_0000

  const MAX_VARINT_BYTES := 10

  function Varint(n: nat): seq<byte> {
    if n < 128 then [n] else [128 + n % 128] + Varint(n / 128)
  }

  datatype Read<T> = Read(value: T, rest: seq<byte>)

  /** Reads a varint of at most `limit` bytes; the value is not yet cut to 64 bits. */
  function ReadVarintUpTo(limit: nat, s: seq<byte>): (r: Option<Read<nat>>)
    ensures r.Some? ==> |r.value.rest| < |s|
  {
    if s == [] || limit == 0 then None
    else if s[0] < 128 then Some(Read(s[0], s[1..]))
    else
      var high := ReadVarintUpTo(limit - 1, s[1..]);
      if high.None? then None
      else Some(Read(s[0] - 128 + 128 * high.value.value, high.value.rest))
  }

  function ReadVarint(s: seq<byte>): (r: Option<Read<nat>>)
    ensures r.Some? ==> |r.value.rest| < |s| && r.value.value < U64_LIMIT
  {
    var r := ReadVarintUpTo(MAX_VARINT_BYTES, s);
    if r.None? then None else Some(r.value.(value := r.value.value % U64_LIMIT))
  }

  lemma {:induction false} ReadWrittenVarint(limit: nat, n: nat, rest: seq<byte>)
    requires |Varint(n)| <= limit
    ensures ReadVarintUpTo(limit, Varint(n) + rest) == Some(Read(n, rest))
  {
    if n < 128 {
      assert (Varint(n) + rest)[1..] == rest;
    } else {
      ReadWrittenVarint(limit - 1, n / 128, rest);
      assert (Varint(n) + rest)[1..] == Varint(n / 128) + rest;
    }
  }

  function Power128(k: nat): (r: nat)
    ensures r >= 1
  {
    if k == 0 then 1 else 128 * Power128(k - 1)
  }

  /** Seven bits to a byte: `k` bytes are enough below 128^k. */
  lemma {:induction false} VarintSize(n: nat, k: nat, bound: nat)
    requires bound == Power128(k) && n < bound && k >= 1
    ensures 1 <= |Varint(n)| <= k
  {
    if n >= 128 {
      VarintSize(n / 128, k - 1, Power128(k - 1));
    }
  }

  lemma TenBytesCover64Bits()
    ensures U64_LIMIT <= Power128(10)
  {
    assert Power128(2) == 0x4000;
    assert Power128(4) == 0x4000 * Power128(2);
    assert Power128(6) == 0x4000 * Power128(4);
    assert Power128(8) == 0x4000 * Power128(6);
    assert Power128(10) == 0x4000 * Power128(8);
  }

  lemma VarintFits(n: nat)
    requires n < U64_LIMIT
    ensures |Varint(n)| <= MAX_VARINT_BYTES
  {
    TenBytesCover64Bits();
    VarintSize(n, 10, Power128(10));
  }

  /** A value of 64 bits is not cut. */
  lemma NotCut(s: seq<byte>, n: nat, rest: seq<byte>)
    requires ReadVarintUpTo(MAX_VARINT_BYTES, s) == Some(Read(n, rest)) && n < U64_LIMIT
    ensures ReadVarint(s) == Some(Read(n, rest))
  {
    assert n % U64_LIMIT == n;
  }

  lemma VarintRoundTrip(n: nat, rest: seq<byte>)
    requires n < U64_LIMIT
    ensures ReadVarint(Varint(n) + rest) == Some(Read(n, rest))
  {
    VarintFits(n);
    ReadWrittenVarint(MAX_VARINT_BYTES, n, rest);
    NotCut(Varint(n) + rest, n, rest);
  }

  /** A negative int64 is sent as its 64-bit two's complement. */
  predicate IsInt64(n: int) {
    -0x8000_0000_0000_0000 <= n < 0x8000_0000_0000_0000
  }

  function Int64ToWire(n: int): nat
    requires IsInt64(n)
  {
    if n < 0 then n + U64_LIMIT else n
  }

  function Int64FromWire(v: nat): int
    requires v < U64_LIMIT
  {
    if v >= 0x8000_0000_0000_0000 then v - U64_LIMIT else v
  }

  /** The wire value is the one that is congruent to the number: two's complement. */
  lemma TwosComplement(n: int)
    requires -0x8000_0000_0000_0000 <= n < 0x8000_0000_0000_0000
    ensures 0 <= Int64ToWire(n) < 0x1_0000_0000_0000_0000
    ensures Int64ToWire(n) - n in {0, 0x1_0000_0000_0000_0000}
    ensures Int64FromWire(Int64ToWire(n)) == n
  {
  }

  lemma Distribute(b: int, c: int, d: int)
    ensures (b + c) * d == b * d + c * d
  {
  }

  lemma Product(c: nat, d: nat)
    ensures 0 <= c * d
  {
  }

  lemma Gap(a: int, b: int, d: nat)
    ensures a > b ==> a * d >= b * d + d
  {
    if a > b {
      Distribute(b, a - b, d);
      Distribute(1, a - b - 1, d);
      Product(a - b - 1, d);
    }
  }

  lemma DivisionIsUnique(n: nat, d: nat, q: nat, r: nat)
    requires n == q * d + r && r < d
    ensures n / d == q
  {
    Gap(n / d, q, d);
    Gap(q, n / d, d);
    assert n == (n / d) * d + n % d;
  }

  lemma QuotientOfQuotient(n: nat, p: nat)
    requires p > 0
    ensures n / 128 / p == n / (128 * p)
  {
    var q, r := n / 128 / p, n / 128 % p;
    assert n / 128 == q * p + r;
    assert n == 128 * (q * p + r) + n % 128;
    assert 128 * (q * p + r) + n % 128 == q * (128 * p) + (128 * r + n % 128);
    assert 128 * r + n % 128 < 128 * p;
    DivisionIsUnique(n, 128 * p, q, 128 * r + n % 128);
  }

  /** The digits of a varint: seven bits a byte, lowest first, with the top bit set on all bytes but the last. */
  lemma {:induction false} VarintDigits(n: nat, i: nat)
    requires i < |Varint(n)|
    ensures Varint(n)[i] % 128 == n / Power128(i) % 128
    ensures Varint(n)[i] >= 128 <==> i < |Varint(n)| - 1
  {
    if i > 0 {
      VarintDigits(n / 128, i - 1);
      QuotientOfQuotient(n, Power128(i - 1));
    }
  }

  /** `k` bytes are needed from 128^(k - 1) on. */
  lemma {:induction false} VarintNeeds(n: nat, k: nat)
    requires n >= Power128(k)
    ensures |Varint(n)| > k
  {
    if k > 0 {
      assert Power128(k) == 128 * Power128(k - 1) && n / 128 >= Power128(k - 1);
      VarintNeeds(n / 128, k - 1);
    }
  }

  /** A negative timestamp takes ten bytes. */
  lemma NegativeTakesTenBytes(n: int)
    requires -0x8000_0000_0000_0000 <= n < 0
    ensures |Varint(Int64ToWire(n))| == 10
  {
    assert Power128(1) == 128;
    assert Power128(2) == 0x4000;
    assert Power128(4) == 0x4000 * Power128(2);
    assert Power128(6) == 0x4000 * Power128(4);
    assert Power128(8) == 0x4000 * Power128(6);
    assert Power128(9) == 128 * Power128(8) == 0x8000_0000_0000_0000;
    VarintNeeds(Int64ToWire(n), 9);
    VarintFits(Int64ToWire(n));
  }

  // ----- Records -----

  datatype Field =
    | VarintField(number: nat, value: nat)
    | Fixed64Field(number: nat, data: seq<byte>)
    | LenField(number: nat, data: seq<byte>)
    | Fixed32Field(number: nat, data: seq<byte>)

  const MAX_FIELD_NUMBER := 0x1FFF_FFFF

  predicate ValidField(f: Field) {
    && 1 <= f.number <= MAX_FIELD_NUMBER
    && match f
       case VarintField(_, v) => v < U64_LIMIT
       case Fixed64Field(_, d) => |d| == 8
       case LenField(_, d) => |d| < U64_LIMIT
       case Fixed32Field(_, d) => |d| == 4
  }

  function WireType(f: Field): nat {
    match f
    case VarintField(_, _) => 0
    case Fixed64Field(_, _) => 1
    case LenField(_, _) => 2
    case Fixed32Field(_, _) => 5
  }

  function FieldBody(f: Field): seq<byte> {
    match f
    case VarintField(_, v) => Varint(v)
    case Fixed64Field(_, d) => d
    case LenField(_, d) => Varint(|d|) + d
    case Fixed32Field(_, d) => d
  }

  function EncodeField(f: Field): seq<byte> {
    Varint(f.number * 8 + WireType(f)) + FieldBody(f)
  }

  /** The layout of each kind of record: field number and wire type, then the value. */
  lemma RecordLayout(number: nat, value: nat, data: seq<byte>)
    ensures EncodeField(VarintField(number, value)) == Varint(8 * number) + Varint(value)
    ensures EncodeField(Fixed64Field(number, data)) == Varint(8 * number + 1) + data
    ensures EncodeField(LenField(number, data)) == Varint(8 * number + 2) + (Varint(|data|) + data)
    ensures EncodeField(Fixed32Field(number, data)) == Varint(8 * number + 5) + data
  {
  }

  function EncodeFields(fs: seq<Field>): seq<byte> {
    if fs == [] then [] else EncodeField(fs[0]) + EncodeFields(fs[1..])
  }

  function ReadBody(number: nat, wireType: nat, s: seq<byte>): (r: Option<Read<Field>>)
    ensures r.Some? ==> |r.value.rest| <= |s|
  {
    if wireType == 0 then
      var v := ReadVarint(s);
      if v.None? then None else Some(Read(VarintField(number, v.value.value), v.value.rest))
    else if wireType == 1 then
      if |s| < 8 then None else Some(Read(Fixed64Field(number, s[..8]), s[8..]))
    else if wireType == 2 then
      var n := ReadVarint(s);
      if n.None? || n.value.value > |n.value.rest| then None
      else Some(Read(LenField(number, n.value.rest[..n.value.value]), n.value.rest[n.value.value..]))
    else if wireType == 5 then
      if |s| < 4 then None else Some(Read(Fixed32Field(number, s[..4]), s[4..]))
    else None
  }

  function ReadField(s: seq<byte>): (r: Option<Read<Field>>)
    ensures r.Some? ==> |r.value.rest| < |s|
  {
    var tag := ReadVarint(s);
    if tag.None? then None
    else
      var number := tag.value.value / 8;
      if number < 1 || number > MAX_FIELD_NUMBER then None
      else ReadBody(number, tag.value.value % 8, tag.value.rest)
  }

  /** More than ten bytes are no varint, nor are bytes that end before the last one. */
  lemma {:induction false} UnendingVarint(limit: nat, s: seq<byte>)
    requires forall i :: 0 <= i < limit && i < |s| ==> s[i] >= 128
    ensures ReadVarintUpTo(limit, s).None?
    ensures limit == 10 ==> ReadVarint(s).None?
  {
    if s != [] && limit > 0 {
      UnendingVarint(limit - 1, s[1..]);
    }
  }

  /** Records that are refused: field number 0 or above 2^29 - 1, other wire types, and values cut short. */
  lemma RefusedRecords(tag: nat, s: seq<byte>)
    requires tag < U64_LIMIT
    ensures tag / 8 == 0 || tag / 8 > 536_870_911 || tag % 8 in {3, 4, 6, 7} ==> ReadField(Varint(tag) + s).None?
    ensures tag % 8 == 1 && |s| < 8 ==> ReadField(Varint(tag) + s).None?
    ensures tag % 8 == 5 && |s| < 4 ==> ReadField(Varint(tag) + s).None?
    ensures tag % 8 == 2 && ReadVarint(s).Some? && ReadVarint(s).value.value > |ReadVarint(s).value.rest| ==>
              ReadField(Varint(tag) + s).None?
  {
    VarintRoundTrip(tag, s);
  }

  /** The records of a message, or None when the bytes are not a sequence of records. */
  function ReadFields(s: seq<byte>): Option<seq<Field>>
    decreases |s|
  {
    if s == [] then Some([])
    else
      var f := ReadField(s);
      if f.None? then None
      else
        var rest := ReadFields(f.value.rest);
        if rest.None? then None else Some([f.value.value] + rest.value)
  }

  lemma ReadWrittenBody(f: Field, rest: seq<byte>)
    requires ValidField(f)
    ensures ReadBody(f.number, WireType(f), FieldBody(f) + rest) == Some(Read(f, rest))
  {
    match f
    case VarintField(_, v) =>
      VarintRoundTrip(v, rest);
    case Fixed64Field(_, d) =>
      assert (d + rest)[..8] == d && (d + rest)[8..] == rest;
    case LenField(_, d) =>
      VarintRoundTrip(|d|, d + rest);
      ConcatAssociates(Varint(|d|), d, rest);
      assert (d + rest)[..|d|] == d && (d + rest)[|d|..] == rest;
    case Fixed32Field(_, d) =>
      assert (d + rest)[..4] == d && (d + rest)[4..] == rest;
  }

  lemma TagParts(number: nat, wireType: nat)
    requires wireType < 8
    ensures (number * 8 + wireType) / 8 == number && (number * 8 + wireType) % 8 == wireType
  {
  }

  lemma ReadTag(s: seq<byte>, tag: nat, number: nat, wireType: nat, rest: seq<byte>)
    requires ReadVarint(s) == Some(Read(tag, rest))
    requires tag / 8 == number && tag % 8 == wireType && 1 <= number <= MAX_FIELD_NUMBER
    ensures ReadField(s) == ReadBody(number, wireType, rest)
  {
  }

  lemma ReadTagged(number: nat, wireType: nat, s: seq<byte>)
    requires 1 <= number <= MAX_FIELD_NUMBER && wireType < 8
    ensures ReadField(Varint(number * 8 + wireType) + s) == ReadBody(number, wireType, s)
  {
    var tag := number * 8 + wireType;
    VarintRoundTrip(tag, s);
    TagParts(number, wireType);
    ReadTag(Varint(tag) + s, tag, number, wireType, s);
  }

  lemma ReadWrittenField(f: Field, rest: seq<byte>)
    requires ValidField(f)
    ensures ReadField(EncodeField(f) + rest) == Some(Read(f, rest))
  {
    var tag := Varint(f.number * 8 + WireType(f));
    ReadTagged(f.number, WireType(f), FieldBody(f) + rest);
    ConcatAssociates(tag, FieldBody(f), rest);
    ReadWrittenBody(f, rest);
  }

  lemma ReadFirst(f: Field, rest: seq<byte>)
    requires ValidField(f) && ReadFields(rest).Some?
    ensures ReadFields(EncodeField(f) + rest) == Some([f] + ReadFields(rest).value)
  {
    ReadWrittenField(f, rest);
    assert EncodeField(f) + rest != [] by {
      assert |Varint(f.number * 8 + WireType(f))| >= 1;
    }
  }

  /** Any list of valid records, in any order, repeated or unknown, is read back as it was written. */
  lemma {:induction false} RecordsRoundTrip(fs: seq<Field>)
    requires forall i :: 0 <= i < |fs| ==> ValidField(fs[i])
    ensures ReadFields(EncodeFields(fs)) == Some(fs)
  {
    if fs != [] {
      RecordsRoundTrip(fs[1..]);
      ReadFirst(fs[0], EncodeFields(fs[1..]));
      assert fs == [fs[0]] + fs[1..];
    }
  }
}
