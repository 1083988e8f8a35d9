/** Result types and byte sequences shared by every layer. */
module Basics {
  datatype Option<+T> = None | Some(value: T)

  datatype Result<+T, +E> = Ok(value: T) | Err(error: E)

  type byte = x: int | 0 <= x < 256

  /** The concatenation of a list of fragments. */
  function Flatten<T>(parts: seq<seq<T>>): seq<T> {
    if parts == [] then [] else parts[0] + Flatten(parts[1..])
  }

  lemma ConcatAssociates<T>(a: seq<T>, b: seq<T>, c: seq<T>)
    ensures a + b + c == a + (b + c)
  {
  }

  lemma {:induction false} FlattenAppend<T>(parts: seq<seq<T>>, last: seq<T>)
    ensures Flatten(parts + [last]) == Flatten(parts) + last
  {
    if parts == [] {
      assert parts + [last] == [last];
      assert Flatten([last]) == last + Flatten([last][1..]);
    } else {
      assert (parts + [last])[1..] == parts[1..] + [last];
      FlattenAppend(parts[1..], last);
      ConcatAssociates(parts[0], Flatten(parts[1..]), last);
    }
  }

  lemma {:induction false} FlattenConcat<T>(a: seq<seq<T>>, b: seq<seq<T>>)
    ensures Flatten(a + b) == Flatten(a) + Flatten(b)
  {
    if a == [] {
      assert a + b == b;
    } else {
      assert (a + b)[1..] == a[1..] + b;
      FlattenConcat(a[1..], b);
      ConcatAssociates(a[0], Flatten(a[1..]), Flatten(b));
    }
  }
}

/**
 * The application frame: one type byte, a four-byte big-endian payload length, the payload.
 * `struct.pack(">BI", ...)` is written out over bytes.
 */
module FrameCodec {
  import opened Basics

  const HEADER_SIZE := 5

  const DEFAULT_MAX_PAYLOAD_SIZE := 10 * 1024 * 1024

  const U32_LIMIT := 0x1_0000_0000

  datatype MessageType = SignedBundle | Ack | Nack

  /** `LengthNotPackable` is the `struct.error` that packing a length of 2^32 or more raises. */
  datatype FrameError = OversizedFrame | MalformedFrame | InvalidMessageType | LengthNotPackable

  datatype Decoded = NeedMore | Frame(msgType: MessageType, payload: seq<byte>, remaining: seq<byte>)

  datatype Message = Message(msgType: MessageType, payload: seq<byte>)

  function TypeByte(t: MessageType): byte {
    match t
    case SignedBundle => 1
    case Ack => 2
    case Nack => 3
  }

  function TypeOf(b: byte): Option<MessageType> {
    if b == 1 then Some(SignedBundle)
    else if b == 2 then Some(Ack)
    else if b == 3 then Some(Nack)
    else None
  }

  function PackU32(n: nat): seq<byte>
    requires n < U32_LIMIT
  {
    [n / 0x100_0000, n / 0x1_0000 % 0x100, n / 0x100 % 0x100, n % 0x100]
  }

  function UnpackU32(s: seq<byte>): nat
    requires |s| == 4
  {
    var a: int, b: int, c: int, d: int := s[0], s[1], s[2], s[3];
    a * 0x100_0000 + b * 0x1_0000 + c * 0x100 + d
  }

  /** Dividing by a power of 256 is dividing by 256 so many times. */
  lemma Quotients(n: nat)
    ensures n / 0x1_0000 == n / 0x100 / 0x100 && n / 0x100_0000 == n / 0x100 / 0x100 / 0x100
  {
  }

  lemma LastByte(q: nat, r: nat)
    requires r < 0x100
    ensures (q * 0x100 + r) / 0x100 == q && (q * 0x100 + r) % 0x100 == r
  {
  }

  lemma UnpackPack(n: nat)
    requires n < U32_LIMIT
    ensures UnpackU32(PackU32(n)) == n
  {
    Quotients(n);
    var low := n / 0x100;
    var middle := low / 0x100;
    var high := middle / 0x100;
    assert n == low * 0x100 + n % 0x100;
    assert low == middle * 0x100 + low % 0x100;
    assert middle == high * 0x100 + middle % 0x100;
  }

  lemma PackUnpack(s: seq<byte>)
    requires |s| == 4
    ensures UnpackU32(s) < U32_LIMIT
    ensures PackU32(UnpackU32(s)) == s
  {
    var n := UnpackU32(s);
    var a: int, b: int, c: int, d: int := s[0], s[1], s[2], s[3];
    assert n == ((a * 0x100 + b) * 0x100 + c) * 0x100 + d;
    Quotients(n);
    LastByte((a * 0x100 + b) * 0x100 + c, d);
    LastByte(a * 0x100 + b, c);
    LastByte(a, b);
    assert PackU32(n) == [s[0], s[1], s[2], s[3]];
  }

  function EncodeFrame(cap: int, t: MessageType, payload: seq<byte>): Result<seq<byte>, FrameError> {
    if |payload| > cap then Err(OversizedFrame)
    else if |payload| >= U32_LIMIT then Err(LengthNotPackable)
    else Ok([TypeByte(t)] + PackU32(|payload|) + payload)
  }

  function DecodeFrameStream(cap: int, buffer: seq<byte>): Result<Decoded, FrameError> {
    if |buffer| < HEADER_SIZE then Ok(NeedMore)
    else
      var t := TypeOf(buffer[0]);
      var len := UnpackU32(buffer[1..HEADER_SIZE]);
      if t.None? then Err(InvalidMessageType)
      else if len > cap then Err(OversizedFrame)
      else if |buffer| < HEADER_SIZE + len then Ok(NeedMore)
      else Ok(Frame(t.value, buffer[HEADER_SIZE..HEADER_SIZE + len], buffer[HEADER_SIZE + len..]))
  }

  function DecodeFrame(cap: int, data: seq<byte>): Result<Message, FrameError> {
    match DecodeFrameStream(cap, data)
    case Err(e) => Err(e)
    case Ok(NeedMore) => Err(MalformedFrame)
    case Ok(Frame(t, payload, remaining)) =>
      if |remaining| > 0 then Err(MalformedFrame) else Ok(Message(t, payload))
  }

  /** The type bytes, and that no other byte is a type. */
  lemma TypeBytes(b: byte)
    ensures TypeByte(SignedBundle) == 0x01 && TypeByte(Ack) == 0x02 && TypeByte(Nack) == 0x03
    ensures b == 1 ==> TypeOf(b) == Some(SignedBundle)
    ensures b == 2 ==> TypeOf(b) == Some(Ack)
    ensures b == 3 ==> TypeOf(b) == Some(Nack)
    ensures b !in {1, 2, 3} ==> TypeOf(b) == None
  {
  }

  /** The payload length that the first five bytes declare. */
  function DeclaredLength(buffer: seq<byte>): int
    requires |buffer| >= 5
  {
    var a: int, b: int, c: int, d: int := buffer[1], buffer[2], buffer[3], buffer[4];
    ((a * 256 + b) * 256 + c) * 256 + d
  }

  /**
   * What the streaming decoder answers, from the bytes: fewer than five wait; then an unknown type is an error
   * before a length above the cap is; a frame is its declared number of bytes after the header.
   */
  lemma HeaderDecides(cap: int, buffer: seq<byte>)
    ensures |buffer| < 5 ==> DecodeFrameStream(cap, buffer) == Ok(NeedMore)
    ensures |buffer| >= 5 ==>
              var d, n := DecodeFrameStream(cap, buffer), DeclaredLength(buffer);
              && (buffer[0] !in {1, 2, 3} <==> d == Err(InvalidMessageType))
              && (buffer[0] in {1, 2, 3} && n > cap <==> d == Err(OversizedFrame))
              && (buffer[0] in {1, 2, 3} && n <= cap && |buffer| < 5 + n <==> d == Ok(NeedMore))
              && (buffer[0] in {1, 2, 3} && n <= cap && |buffer| >= 5 + n ==>
                    d.Ok? && d.value.Frame? && TypeByte(d.value.msgType) == buffer[0]
                    && d.value.payload == buffer[5..5 + n] && d.value.remaining == buffer[5 + n..])
  {
    if |buffer| >= 5 {
      TypeBytes(buffer[0]);
      var h := buffer[1..HEADER_SIZE];
      assert h[0] == buffer[1] && h[1] == buffer[2] && h[2] == buffer[3] && h[3] == buffer[4];
      assert UnpackU32(h) == DeclaredLength(buffer);
    }
  }

  /** `decode_frame` on its own: too few bytes and trailing bytes are malformed, stream errors are passed on. */
  lemma WholeFrameOnly(cap: int, data: seq<byte>)
    ensures |data| < 5 ==> DecodeFrame(cap, data) == Err(MalformedFrame)
    ensures |data| >= 5 ==>
              var n := DeclaredLength(data);
              && (data[0] !in {1, 2, 3} ==> DecodeFrame(cap, data) == Err(InvalidMessageType))
              && (data[0] in {1, 2, 3} && n > cap ==> DecodeFrame(cap, data) == Err(OversizedFrame))
              && (data[0] in {1, 2, 3} && n <= cap && |data| != 5 + n ==> DecodeFrame(cap, data) == Err(MalformedFrame))
  {
    HeaderDecides(cap, data);
  }

  /** What follows an encoded frame in the buffer is handed back untouched. */
  lemma DecodeEncoded(cap: int, t: MessageType, payload: seq<byte>, rest: seq<byte>)
    requires EncodeFrame(cap, t, payload).Ok?
    ensures DecodeFrameStream(cap, EncodeFrame(cap, t, payload).value + rest) == Ok(Frame(t, payload, rest))
  {
    var frame := EncodeFrame(cap, t, payload).value;
    var buffer := frame + rest;
    assert buffer[1..HEADER_SIZE] == PackU32(|payload|);
    UnpackPack(|payload|);
    assert buffer[HEADER_SIZE..HEADER_SIZE + |payload|] == payload;
    assert buffer[HEADER_SIZE + |payload|..] == rest;
  }

  /** The codec is a bijection between the messages it accepts and the byte strings it decodes. */
  lemma FrameRoundTrip(cap: int, m: Message, data: seq<byte>)
    ensures EncodeFrame(cap, m.msgType, m.payload).Ok? <==> |m.payload| <= cap && |m.payload| < U32_LIMIT
    ensures EncodeFrame(cap, m.msgType, m.payload) == Ok(data) <==> DecodeFrame(cap, data) == Ok(m)
  {
    if EncodeFrame(cap, m.msgType, m.payload) == Ok(data) {
      DecodeEncoded(cap, m.msgType, m.payload, []);
      assert data + [] == data;
    }
    if DecodeFrame(cap, data) == Ok(m) {
      PackUnpack(data[1..HEADER_SIZE]);
      assert data[HEADER_SIZE..] == m.payload;
      assert data == [data[0]] + data[1..HEADER_SIZE] + data[HEADER_SIZE..];
      assert TypeByte(m.msgType) == data[0];
    }
  }

  /** A decision, once reached, is not changed by bytes that arrive later. */
  lemma DecodeStable(cap: int, buffer: seq<byte>, more: seq<byte>)
    ensures var d := DecodeFrameStream(cap, buffer);
            d.Err? ==> DecodeFrameStream(cap, buffer + more) == d
    ensures var d := DecodeFrameStream(cap, buffer);
            d.Ok? && d.value.Frame? ==>
              DecodeFrameStream(cap, buffer + more) == Ok(d.value.(remaining := d.value.remaining + more))
  {
    if |buffer| >= HEADER_SIZE {
      assert (buffer + more)[1..HEADER_SIZE] == buffer[1..HEADER_SIZE];
      var len := UnpackU32(buffer[1..HEADER_SIZE]);
      if |buffer| >= HEADER_SIZE + len {
        assert (buffer + more)[HEADER_SIZE..HEADER_SIZE + len] == buffer[HEADER_SIZE..HEADER_SIZE + len];
        assert (buffer + more)[HEADER_SIZE + len..] == buffer[HEADER_SIZE + len..] + more;
      }
    }
  }

  // ----- Reassembly of a stream of frames -----

  datatype Tail = Buffered(bytes: seq<byte>) | Corrupt(error: FrameError)

  datatype Stream = Stream(messages: seq<Message>, tail: Tail)

  /** Everything a byte string contains, read in one piece. */
  function Parse(cap: int, data: seq<byte>): Stream
    decreases |data|
  {
    match DecodeFrameStream(cap, data)
    case Err(e) => Stream([], Corrupt(e))
    case Ok(NeedMore) => Stream([], Buffered(data))
    case Ok(Frame(t, payload, remaining)) =>
      var rest := Parse(cap, remaining);
      Stream([Message(t, payload)] + rest.messages, rest.tail)
  }

  function Extend(cap: int, s: Stream, more: seq<byte>): Stream {
    match s.tail
    case Corrupt(_) => s
    case Buffered(b) =>
      var late := Parse(cap, b + more);
      Stream(s.messages + late.messages, late.tail)
  }

  lemma ParseFrameThenMore(cap: int, data: seq<byte>, more: seq<byte>)
    requires DecodeFrameStream(cap, data).Ok? && DecodeFrameStream(cap, data).value.Frame?
    ensures var f := DecodeFrameStream(cap, data).value;
            var all := Parse(cap, f.remaining + more);
            Parse(cap, data + more) == Stream([Message(f.msgType, f.payload)] + all.messages, all.tail)
  {
    DecodeStable(cap, data, more);
  }

  lemma ExtendFrame(cap: int, head: Message, rest: Stream, more: seq<byte>)
    ensures var late := Extend(cap, rest, more);
            Extend(cap, Stream([head] + rest.messages, rest.tail), more) == Stream([head] + late.messages, late.tail)
  {
    if rest.tail.Buffered? {
      ConcatAssociates([head], rest.messages, Parse(cap, rest.tail.bytes + more).messages);
    }
  }

  lemma ParseUnfinished(cap: int, data: seq<byte>, more: seq<byte>)
    requires DecodeFrameStream(cap, data) == Ok(NeedMore)
    ensures Parse(cap, data + more) == Extend(cap, Parse(cap, data), more)
  {
    var all := Parse(cap, data + more);
    assert [] + all.messages == all.messages;
  }

  /** Bytes that arrive later extend the stream and never revise what was already read. */
  lemma {:induction false} ParseExtend(cap: int, data: seq<byte>, more: seq<byte>)
    ensures Parse(cap, data + more) == Extend(cap, Parse(cap, data), more)
    decreases |data|
  {
    var d := DecodeFrameStream(cap, data);
    if d.Err? {
      DecodeStable(cap, data, more);
    } else if d.value.NeedMore? {
      ParseUnfinished(cap, data, more);
    } else {
      var head := Message(d.value.msgType, d.value.payload);
      var rest := Parse(cap, d.value.remaining);
      ParseExtend(cap, d.value.remaining, more);
      ParseFrameThenMore(cap, data, more);
      ExtendFrame(cap, head, rest, more);
    }
  }

  /** A stream found corrupt after some fragments is that of all fragments. */
  lemma CorruptStays(cap: int, fragments: seq<seq<byte>>, k: nat)
    requires k <= |fragments| && Parse(cap, Flatten(fragments[..k])).tail.Corrupt?
    ensures Parse(cap, Flatten(fragments)) == Parse(cap, Flatten(fragments[..k]))
  {
    FlattenConcat(fragments[..k], fragments[k..]);
    assert fragments == fragments[..k] + fragments[k..];
    ParseExtend(cap, Flatten(fragments[..k]), Flatten(fragments[k..]));
  }

  /** What one more fragment adds to what was read. */
  lemma OneMoreFragment(cap: int, fragments: seq<seq<byte>>, i: nat, messages: seq<Message>, buffer: seq<byte>)
    requires i < |fragments| && Parse(cap, Flatten(fragments[..i])) == Stream(messages, Buffered(buffer))
    ensures var late := Parse(cap, buffer + fragments[i]);
            Parse(cap, Flatten(fragments[..i + 1])) == Stream(messages + late.messages, late.tail)
  {
    FlattenAppend(fragments[..i], fragments[i]);
    assert fragments[..i + 1] == fragments[..i] + [fragments[i]];
    ParseExtend(cap, Flatten(fragments[..i]), fragments[i]);
  }

  /**
   * The receive loop: append each fragment to the buffer, take out every complete frame.
   * Whatever the fragmentation, the outcome is that of the unfragmented bytes, errors included.
   */
  method Reassemble(cap: int, fragments: seq<seq<byte>>) returns (s: Stream)
    ensures s == Parse(cap, Flatten(fragments))
  {
    var buffer: seq<byte> := [];
    var messages: seq<Message> := [];
    for i := 0 to |fragments|
      invariant Parse(cap, Flatten(fragments[..i])) == Stream(messages, Buffered(buffer))
    {
      OneMoreFragment(cap, fragments, i, messages, buffer);
      ghost var before := messages;
      buffer := buffer + fragments[i];
      ghost var whole := Parse(cap, buffer);
      while true
        invariant before + whole.messages == messages + Parse(cap, buffer).messages
        invariant whole.tail == Parse(cap, buffer).tail
        decreases |buffer|
      {
        match DecodeFrameStream(cap, buffer)
        case Err(e) =>
          CorruptStays(cap, fragments, i + 1);
          return Stream(messages, Corrupt(e));
        case Ok(NeedMore) =>
          break;
        case Ok(Frame(t, payload, remaining)) =>
          messages := messages + [Message(t, payload)];
          buffer := remaining;
      }
    }
    assert fragments[..|fragments|] == fragments;
    return Stream(messages, Buffered(buffer));
  }

  predicate Sendable(cap: int, messages: seq<Message>) {
    forall i :: 0 <= i < |messages| ==> EncodeFrame(cap, messages[i].msgType, messages[i].payload).Ok?
  }

  function EncodeAll(cap: int, messages: seq<Message>): seq<byte>
    requires Sendable(cap, messages)
  {
    if messages == [] then []
    else EncodeFrame(cap, messages[0].msgType, messages[0].payload).value + EncodeAll(cap, messages[1..])
  }

  /** Back-to-back frames parse to exactly the messages sent, in order, with nothing left over. */
  lemma {:induction false} ParseEncoded(cap: int, messages: seq<Message>)
    requires Sendable(cap, messages)
    ensures Parse(cap, EncodeAll(cap, messages)) == Stream(messages, Buffered([]))
  {
    if messages != [] {
      ParseEncoded(cap, messages[1..]);
      DecodeEncoded(cap, messages[0].msgType, messages[0].payload, EncodeAll(cap, messages[1..]));
      assert messages == [messages[0]] + messages[1..];
    }
  }
}
